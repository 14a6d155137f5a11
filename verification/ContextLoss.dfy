/** What an unmarked view of a context pack can still have lost, and when it has lost nothing. */
module ContextLoss {
  import opened Domain
  import opened Json
  import opened PromptProjection
  import opened PromptBudget
  import opened ContextView
  import opened Lossless
  import Utf8

  const PROMPT_CONTENT := "prompt_content"
  const PURPOSE := "purpose"

  /** Every field of the pack that is not null is shown, just as it is. */
  ghost predicate ShowsWhole(pack: Fields, shown: Fields) {
    forall k :: k in pack ==> ShowsField(pack, shown, k)
  }

  predicate ShowsField(pack: Fields, shown: Fields, k: string)
    requires k in pack
  {
    pack[k] != Null ==> k in shown && shown[k] == pack[k]
  }

  predicate Entries(value: Json, atMost: nat, keys: set<string>, maxBytes: nat) {
    ObjectList(value, atMost) && forall i :: 0 <= i < |value.items| ==> ShownEntry(value.items[i], keys, maxBytes)
  }

  predicate References(value: Json) {
    ObjectList(value, MAX_PROMPT_SOURCE_REFS) && forall i :: 0 <= i < |value.items| ==> OnlyFields(value.items[i], REF_KEYS)
  }

  /** What this field must be like to be shown whole in a view whose parts were kept. */
  predicate LosslessField(k: string, value: Json) {
    if value == Null then true
    else if k == VERSION_KEY || k == "pack_type" then true
    else if k == PURPOSE then value.Str? && Utf8.Size(value.s) <= MAX_PURPOSE_BYTES
    else if k == "repository" then OnlyFields(value, {"name", "source_type"})
    else if k == "snapshot" then OnlyFields(value, {"commit_sha"})
    else if k == "summary" then value.Obj? && ShownScalars(value.fields)
    else if k == SOURCE_REFS then References(value)
    else if k == FILES then Entries(value, MAX_PROMPT_FILES, FILE_KEYS, MAX_PROMPT_FILE_EXCERPT_BYTES)
    else if k == GUIDANCE then Entries(value, MAX_PROMPT_GUIDANCE, GUIDANCE_KEYS, MAX_PROMPT_GUIDANCE_EXCERPT_BYTES)
    else if k == DRIFT then ShownDrift(value)
    else if k == ATTENTION then ShownProfile(value)
    else if k == INSPECTION then value.Obj?
    else false
  }

  /** A condition on the pack alone. */
  predicate LosslessPack(pack: Fields) {
    forall k :: k in pack ==> LosslessField(k, pack[k])
  }

  // ---- Fields that are shown in any case -------------------------------------------------

  const BASE_KEYS := {VERSION_KEY, "pack_type", PURPOSE, "repository", "snapshot", "summary"}

  lemma BaseIsKept(pack: Fields, maxBytes: int, toolMaxBytes: int, k: string)
    requires k in BASE_KEYS
    ensures var d := Projection(pack, maxBytes, toolMaxBytes).fields; k in d && d[k] == BaseProjection(pack)[k]
  {
    BaseKeysDiffer();
    assert k in BaseProjection(pack);
    hide Projection, WithFiles, WithInspection, WithRefs, WithProfile, SetPart, CompactDrift, CompactAttentionProfile, BaseProjection;
    PartsAreSeparate(pack, maxBytes, toolMaxBytes);
    ProfileKeepsBase(pack, maxBytes, k);
  }

  lemma BaseKeysDiffer()
    ensures BASE_KEYS !! {DRIFT, ATTENTION, SOURCE_REFS, INSPECTION, FILES, GUIDANCE}
  {
  }

  lemma ProfileKeepsBase(pack: Fields, maxBytes: int, k: string)
    requires k in BaseProjection(pack) && k != DRIFT && k != ATTENTION
    ensures var d := WithProfile(pack, maxBytes).fields; k in d && d[k] == BaseProjection(pack)[k]
  {
    hide BaseProjection, CompactDrift, CompactAttentionProfile;
  }

  lemma BaseFieldShown(pack: Fields, k: string)
    requires k in BASE_KEYS && k in pack
    ensures ShowsField(pack, BaseProjection(pack), k) <==> LosslessField(k, pack[k])
  {
    hide SelectedMapping, OnlyFields, ScalarMapping, ShownScalars, Utf8.TruncateTextBytes, Utf8.Size;
    var v := pack[k];
    if k == PURPOSE && v.Str? {
      TruncatedIsWhole(v.s, MAX_PURPOSE_BYTES);
    } else if k == "repository" {
      SelectedIsWhole(v, {"name", "source_type"});
    } else if k == "snapshot" {
      SelectedIsWhole(v, {"commit_sha"});
    } else if k == "summary" {
      ScalarMappingIsWhole(v);
    }
  }

  // ---- Fields that are set if they fit ---------------------------------------------------

  lemma DriftIsNew(pack: Fields)
    ensures DRIFT !in BaseProjection(pack) && ATTENTION !in BaseProjection(pack) && INSPECTION !in BaseProjection(pack)
    ensures PROMPT_CONTENT !in BaseProjection(pack)
    ensures PROMPT_CONTENT !in {DRIFT, ATTENTION, SOURCE_REFS, INSPECTION, FILES, GUIDANCE}
  {
    BaseKeys(pack);
  }

  /** A part that there is nothing to set for is not there. */
  lemma AbsentParts(pack: Fields, maxBytes: int, toolMaxBytes: int)
    ensures var d := Projection(pack, maxBytes, toolMaxBytes).fields;
            && (CompactDrift(Get(pack, DRIFT)).None? ==> DRIFT !in d)
            && (CompactAttentionProfile(Get(pack, ATTENTION)).None? ==> ATTENTION !in d)
            && (!Get(pack, INSPECTION).Obj? ==> INSPECTION !in d)
            && PROMPT_CONTENT !in d
  {
    KeysDiffer();
    DriftIsNew(pack);
    AbsentProfile(pack, maxBytes);
    AbsentInspection(pack, maxBytes, toolMaxBytes);
    hide BaseProjection, CompactDrift, CompactAttentionProfile, WithProfile, WithRefs, WithInspection, WithFiles, Projection;
    PartsAreSeparate(pack, maxBytes, toolMaxBytes);
  }

  lemma AbsentProfile(pack: Fields, maxBytes: int)
    ensures var d := WithProfile(pack, maxBytes).fields;
            && (CompactDrift(Get(pack, DRIFT)).None? ==> DRIFT !in d)
            && (CompactAttentionProfile(Get(pack, ATTENTION)).None? ==> ATTENTION !in d)
            && PROMPT_CONTENT !in d
  {
    KeysDiffer();
    DriftIsNew(pack);
    hide BaseProjection, CompactDrift, CompactAttentionProfile;
  }

  lemma AbsentInspection(pack: Fields, maxBytes: int, toolMaxBytes: int)
    ensures !Get(pack, INSPECTION).Obj? ==> WithInspection(pack, maxBytes, toolMaxBytes) == WithRefs(pack, maxBytes)
  {
    hide WithRefs, Compacted;
  }

  lemma PartShown(pack: Fields, shown: Fields, k: string, v: Option<Json>)
    requires k in pack && PartSet(shown, k, v)
    requires v.None? ==> k !in shown
    ensures ShowsField(pack, shown, k) <==> pack[k] == Null || v == Some(pack[k])
  {
  }

  lemma DriftShown(pack: Fields, maxBytes: int, toolMaxBytes: int)
    requires DRIFT in pack && PartSet(Projection(pack, maxBytes, toolMaxBytes).fields, DRIFT, CompactDrift(pack[DRIFT]))
    ensures ShowsField(pack, Projection(pack, maxBytes, toolMaxBytes).fields, DRIFT) <==> pack[DRIFT] == Null || ShownDrift(pack[DRIFT])
  {
    hide CompactDrift, ShownDrift, Projection;
    var v, shown := pack[DRIFT], Projection(pack, maxBytes, toolMaxBytes).fields;
    AbsentParts(pack, maxBytes, toolMaxBytes);
    NoDrift(v);
    ShownAreObjects(v);
    if v.Obj? { DriftIsWhole(v); }
    PartShown(pack, shown, DRIFT, CompactDrift(v));
  }

  lemma ProfileShown(pack: Fields, maxBytes: int, toolMaxBytes: int)
    requires ATTENTION in pack
    requires PartSet(Projection(pack, maxBytes, toolMaxBytes).fields, ATTENTION, CompactAttentionProfile(pack[ATTENTION]))
    ensures ShowsField(pack, Projection(pack, maxBytes, toolMaxBytes).fields, ATTENTION)
            <==> pack[ATTENTION] == Null || ShownProfile(pack[ATTENTION])
  {
    hide CompactAttentionProfile, ShownProfile, Projection;
    var v, shown := pack[ATTENTION], Projection(pack, maxBytes, toolMaxBytes).fields;
    AbsentParts(pack, maxBytes, toolMaxBytes);
    NoDrift(v);
    ShownAreObjects(v);
    if v.Obj? { ProfileIsWhole(v); }
    PartShown(pack, shown, ATTENTION, CompactAttentionProfile(v));
  }

  lemma SetFieldShown(pack: Fields, maxBytes: int, toolMaxBytes: int, k: string)
    requires k in pack && k in {DRIFT, ATTENTION, INSPECTION, PROMPT_CONTENT}
    requires PartsKept(pack, Projection(pack, maxBytes, toolMaxBytes).fields)
    ensures ShowsField(pack, Projection(pack, maxBytes, toolMaxBytes).fields, k) <==> LosslessField(k, pack[k])
  {
    hide CompactDrift, CompactAttentionProfile, ShownDrift, ShownProfile, Projection, ListComplete;
    KeysDiffer();
    if k == DRIFT {
      DriftShown(pack, maxBytes, toolMaxBytes);
    } else if k == ATTENTION {
      ProfileShown(pack, maxBytes, toolMaxBytes);
    } else {
      AbsentParts(pack, maxBytes, toolMaxBytes);
    }
  }

  lemma ShownAreObjects(v: Json)
    ensures ShownDrift(v) || ShownProfile(v) ==> v.Obj?
  {
  }

  lemma NoDrift(v: Json)
    ensures CompactDrift(v).None? <==> !v.Obj?
    ensures CompactAttentionProfile(v).None? <==> !v.Obj?
  {
  }

  // ---- Lists -----------------------------------------------------------------------------

  /** A list whose objects were all kept in full is shown whole if it has only objects that are shown whole. */
  lemma ListShown(pack: Fields, shown: Fields, k: string, atMost: nat, choices: seq<Choice>)
    requires k in pack && ListComplete(shown, k, |DictItems(pack[k])|, choices) && |choices| <= atMost
    ensures ShowsField(pack, shown, k)
            <==> pack[k] == Null || (ObjectList(pack[k], atMost) && |choices| == |pack[k].items|
                                     && forall i :: 0 <= i < |choices| ==> choices[i].full == pack[k].items[i])
  {
    var v := pack[k];
    if v.Arr? {
      ObjectsAreWhole(v.items);
      var kept := shown[k].items;
      hide Objects;
      if kept == v.items {
        assert |Objects(v.items)| == |v.items|;
      }
      if AllObjects(v.items) && |choices| == |v.items| && forall i :: 0 <= i < |choices| ==> choices[i].full == v.items[i] {
        assert kept == v.items;
      }
    }
  }

  lemma ReferencesShown(pack: Fields, shown: Fields)
    requires SOURCE_REFS in pack && ListComplete(shown, SOURCE_REFS, |DictItems(pack[SOURCE_REFS])|, Wholes(SourceRefs(pack)))
    ensures ShowsField(pack, shown, SOURCE_REFS) <==> pack[SOURCE_REFS] == Null || References(pack[SOURCE_REFS])
  {
    var v := pack[SOURCE_REFS];
    ListShown(pack, shown, SOURCE_REFS, MAX_PROMPT_SOURCE_REFS, Wholes(SourceRefs(pack)));
    if ObjectList(v, MAX_PROMPT_SOURCE_REFS) {
      ObjectsAreWhole(v.items);
      hide Objects, SelectedMapping, OnlyFields, ListComplete;
      forall i | 0 <= i < |v.items| ensures Wholes(SourceRefs(pack))[i].full == v.items[i] <==> OnlyFields(v.items[i], REF_KEYS) {
        SelectedIsWhole(v.items[i], REF_KEYS);
      }
    }
  }

  lemma FilesShown(pack: Fields, shown: Fields)
    requires FILES in pack && ListComplete(shown, FILES, |DictItems(pack[FILES])|, FileChoices(pack))
    ensures ShowsField(pack, shown, FILES)
            <==> pack[FILES] == Null || Entries(pack[FILES], MAX_PROMPT_FILES, FILE_KEYS, MAX_PROMPT_FILE_EXCERPT_BYTES)
  {
    var v := pack[FILES];
    ListShown(pack, shown, FILES, MAX_PROMPT_FILES, FileChoices(pack));
    if ObjectList(v, MAX_PROMPT_FILES) {
      ObjectsAreWhole(v.items);
      hide Objects, Excerpted, ShownEntry, ListComplete;
      forall i | 0 <= i < |v.items|
        ensures FileChoices(pack)[i].full == v.items[i] <==> ShownEntry(v.items[i], FILE_KEYS, MAX_PROMPT_FILE_EXCERPT_BYTES)
      {
        EntryIsWhole(v.items[i], FILE_KEYS, MAX_PROMPT_FILE_EXCERPT_BYTES);
      }
    }
  }

  lemma GuidanceShown(pack: Fields, shown: Fields)
    requires GUIDANCE in pack && ListComplete(shown, GUIDANCE, |DictItems(pack[GUIDANCE])|, GuidanceChoices(pack))
    ensures ShowsField(pack, shown, GUIDANCE)
            <==> pack[GUIDANCE] == Null || Entries(pack[GUIDANCE], MAX_PROMPT_GUIDANCE, GUIDANCE_KEYS, MAX_PROMPT_GUIDANCE_EXCERPT_BYTES)
  {
    var v := pack[GUIDANCE];
    ListShown(pack, shown, GUIDANCE, MAX_PROMPT_GUIDANCE, GuidanceChoices(pack));
    if ObjectList(v, MAX_PROMPT_GUIDANCE) {
      ObjectsAreWhole(v.items);
      hide Objects, Excerpted, ShownEntry, ListComplete;
      forall i | 0 <= i < |v.items|
        ensures GuidanceChoices(pack)[i].full == v.items[i] <==> ShownEntry(v.items[i], GUIDANCE_KEYS, MAX_PROMPT_GUIDANCE_EXCERPT_BYTES)
      {
        EntryIsWhole(v.items[i], GUIDANCE_KEYS, MAX_PROMPT_GUIDANCE_EXCERPT_BYTES);
      }
    }
  }

  // ---- When nothing is lost --------------------------------------------------------------

  lemma FieldShown(pack: Fields, maxBytes: int, toolMaxBytes: int, k: string)
    requires k in pack && PartsKept(pack, Projection(pack, maxBytes, toolMaxBytes).fields)
    ensures ShowsField(pack, Projection(pack, maxBytes, toolMaxBytes).fields, k) <==> LosslessField(k, pack[k])
  {
    var shown := Projection(pack, maxBytes, toolMaxBytes).fields;
    assert k in KNOWN_KEYS;
    hide Projection, CompactDrift, CompactAttentionProfile, SourceRefs, FileChoices, GuidanceChoices, ListComplete, DictItems;
    if k in BASE_KEYS {
      BaseIsKept(pack, maxBytes, toolMaxBytes, k);
      BaseFieldShown(pack, k);
    } else if k == SOURCE_REFS {
      ReferencesShown(pack, shown);
    } else if k == FILES {
      FilesShown(pack, shown);
    } else if k == GUIDANCE {
      GuidanceShown(pack, shown);
    } else {
      SetFieldShown(pack, maxBytes, toolMaxBytes, k);
    }
  }

  /**
   * An unmarked view shows its whole pack exactly if the pack has nothing that selecting and
   * shortening change: a condition on the pack alone.
   */
  lemma UnmarkedViewIsWholeExactly(pack: Fields, maxBytes: int, toolMaxBytes: int)
    requires ViewOf(pack, maxBytes, toolMaxBytes).Ok? && !ViewOf(pack, maxBytes, toolMaxBytes).value.truncated
    ensures ShowsWhole(pack, ViewOf(pack, maxBytes, toolMaxBytes).value.payload.fields) <==> LosslessPack(pack)
  {
    UnmarkedViewKeepsItsParts(pack, maxBytes, toolMaxBytes);
    var shown := ViewOf(pack, maxBytes, toolMaxBytes).value.payload.fields;
    assert shown == Projection(pack, maxBytes, toolMaxBytes).fields;
    hide Projection, PartsKept, LosslessField, ShowsField;
    forall k | k in pack ensures ShowsField(pack, shown, k) <==> LosslessField(k, pack[k]) {
      FieldShown(pack, maxBytes, toolMaxBytes, k);
    }
  }

  // ---- Two packs that lose something without a mark --------------------------------------

  lemma BaseKeysArePlain()
    ensures Plain(VERSION_KEY) && Plain("pack_type") && Plain(PURPOSE) && Plain("repository") && Plain("snapshot") && Plain("summary")
    ensures Plain(SOURCE_REFS) && Plain(FILES) && Plain(GUIDANCE)
  {
  }

  lemma SameLengthKeysDiffer()
    ensures VERSION_KEY != FILES && PURPOSE != "summary"
  {
    assert VERSION_KEY[0] == 's' && FILES[0] == 'i' && PURPOSE[0] == 'p' && "summary"[0] == 's';
  }

  /** The bytes of what is shown in any case: 140 for keys and empty lists, and the six values. */
  lemma BaseSize(pack: Fields)
    ensures var b := BaseProjection(pack);
            Size(Obj(b)) == 140 + Size(b[VERSION_KEY]) + Size(b["pack_type"]) + Size(b[PURPOSE]) + Size(b["repository"])
                            + Size(b["snapshot"]) + Size(b["summary"])
  {
    BaseKeysArePlain();
    SameLengthKeysDiffer();
    hide Size, Plain, SelectedMapping, ScalarMapping, Utf8.TruncateTextBytes;
    var b := BaseProjection(pack);
    var b1 := map[VERSION_KEY := b[VERSION_KEY]];
    var b2 := b1["pack_type" := b["pack_type"]];
    var b3 := b2[PURPOSE := b[PURPOSE]];
    var b4 := b3["repository" := b["repository"]];
    var b5 := b4["snapshot" := b["snapshot"]];
    var b6 := b5["summary" := b["summary"]];
    var b7 := b6[SOURCE_REFS := Arr([])];
    var b8 := b7[FILES := Arr([])];
    assert VERSION_KEY in b1 && VERSION_KEY in b2 && VERSION_KEY in b3 && VERSION_KEY in b4;
    assert VERSION_KEY in b5 && VERSION_KEY in b6 && VERSION_KEY in b7 && VERSION_KEY in b8;
    SingleField(VERSION_KEY, b[VERSION_KEY]);
    AddedField(b1, "pack_type", b["pack_type"]);
    AddedField(b2, PURPOSE, b[PURPOSE]);
    AddedField(b3, "repository", b["repository"]);
    AddedField(b4, "snapshot", b["snapshot"]);
    AddedField(b5, "summary", b["summary"]);
    EmptyListSize(b6, SOURCE_REFS);
    EmptyListSize(b7, FILES);
    EmptyListSize(b8, GUIDANCE);
    assert b8[GUIDANCE := Arr([])] == b;
  }

  /** A pack without the parts that are set or filled is shown by its base, without a mark. */
  lemma OnlyBaseIsShown(pack: Fields, maxBytes: int, toolMaxBytes: int)
    requires pack.Keys <= BASE_KEYS + {PROMPT_CONTENT}
    ensures Projection(pack, maxBytes, toolMaxBytes) == Draft(BaseProjection(pack), false)
  {
    KeysDiffer();
    BaseKeys(pack);
    BaseKeysDiffer();
    NothingToKeep(pack);
    hide BaseProjection;
    assert pack.Keys <= KNOWN_KEYS;
    var d := Draft(BaseProjection(pack), false);
    assert WithProfile(pack, maxBytes) == d;
    NothingFilled(d, SOURCE_REFS, maxBytes);
    NothingFilled(d, FILES, maxBytes);
    NothingFilled(d, GUIDANCE, maxBytes);
    hide FillPart, Greedy;
    assert WithRefs(pack, maxBytes) == d;
    assert WithInspection(pack, maxBytes, toolMaxBytes) == d;
    assert WithFiles(pack, maxBytes, toolMaxBytes) == d;
  }

  lemma NothingToKeep(pack: Fields)
    requires pack.Keys <= BASE_KEYS + {PROMPT_CONTENT}
    ensures Get(pack, DRIFT) == Null && Get(pack, ATTENTION) == Null && Get(pack, INSPECTION) == Null
    ensures DictItems(Get(pack, SOURCE_REFS)) == [] && DictItems(Get(pack, FILES)) == [] && DictItems(Get(pack, GUIDANCE)) == []
    ensures Wholes(SourceRefs(pack)) == [] && FileChoices(pack) == [] && GuidanceChoices(pack) == []
  {
    BaseKeysDiffer();
    DriftIsNew(pack);
  }

  lemma NothingFilled(d: Draft, key: string, maxBytes: int)
    requires key in d.fields && d.fields[key] == Arr([])
    ensures FillPart(d, key, 0, [], maxBytes) == d
  {
    assert d.fields[key := Arr([])] == d.fields;
  }

  const LONG_PURPOSE: Fields := map[PURPOSE := Str(Xs(501))]

  lemma {:induction false} EscapedSizeAppend(a: string, b: string)
    ensures EscapedSize(a + b) == EscapedSize(a) + EscapedSize(b)
  {
    if a == "" {
      assert a + b == b;
    } else {
      assert (a + b)[1..] == a[1..] + b;
      EscapedSizeAppend(a[1..], b);
    }
  }

  lemma LineEndSize()
    ensures EscapedSize("\n") == 2
  {
  }

  lemma MarkerSize()
    ensures EscapedSize(Utf8.MARKER) == 16
  {
    LineEndSize();
    hide EscapedSize;
    assert Utf8.MARKER == "\n" + "...[truncated]";
    EscapedSizeAppend("\n", "...[truncated]");
    PlainSize("...[truncated]");
  }

  /** 501 bytes are cut to 485 and the marker, whose line end takes two bytes in JSON. */
  lemma LongPurposeIsCut()
    ensures Utf8.TruncateTextBytes(Xs(501), 500) == Xs(485) + Utf8.MARKER
    ensures Size(Str(Xs(485) + Utf8.MARKER)) == 503
  {
    hide Utf8.TruncateTextBytes, Utf8.Size, EscapedSize;
    XsSize(501);
    XsSize(485);
    MarkerSize();
    EscapedSizeAppend(Xs(485), Utf8.MARKER);
    Utf8.TruncateTextBytesIsExact(Xs(501), 500);
    var r := Utf8.TruncateTextBytes(Xs(501), 500);
    var kept := r[..|r| - 15];
    assert Xs(501)[..485] == Xs(485);
    XsPrefix(kept);
  }

  lemma XsPrefix(kept: string)
    requires kept <= Xs(501) && Utf8.Size(kept) <= 485 && |kept| >= 485
    ensures kept == Xs(485)
  {
    assert kept == Xs(|kept|);
    XsSize(|kept|);
  }

  /** A purpose of 501 bytes is cut, and the view is not marked. */
  lemma LongPurposeIsCutUnmarked(maxBytes: int, toolMaxBytes: int)
    requires maxBytes >= MIN_CONTEXT_BYTES && toolMaxBytes >= MIN_TOOL_BYTES
    ensures var r := ViewOf(LONG_PURPOSE, maxBytes, toolMaxBytes);
            && r.Ok? && !r.value.truncated && r.value.originalBytes == 515 && r.value.usedBytes == 654
            && !ShowsWhole(LONG_PURPOSE, r.value.payload.fields) && !LosslessPack(LONG_PURPOSE)
  {
    OnlyBaseIsShown(LONG_PURPOSE, maxBytes, toolMaxBytes);
    OriginalSizes(Null);
    LongPurposeBase();
    LongPurposeIsLost();
    hide Projection, BaseProjection, Xs, Size, LONG_PURPOSE, LosslessField;
    assert PURPOSE in LONG_PURPOSE;
  }

  lemma LongPurposeIsLost()
    ensures PURPOSE in LONG_PURPOSE && !LosslessField(PURPOSE, LONG_PURPOSE[PURPOSE])
    ensures !ShowsField(LONG_PURPOSE, BaseProjection(LONG_PURPOSE), PURPOSE)
  {
    XsSize(501);
    hide Xs, Utf8.Size, BaseProjection;
    BaseFieldShown(LONG_PURPOSE, PURPOSE);
  }

  lemma LongPurposeBase()
    ensures Size(Obj(BaseProjection(LONG_PURPOSE))) == 654
  {
    LongPurposeIsCut();
    BaseSize(LONG_PURPOSE);
    EmptySizes();
    hide Size, Utf8.TruncateTextBytes, Xs;
    BaseValues(LONG_PURPOSE);
  }

  lemma OnlyPurposeOrContent(pack: Fields)
    requires pack.Keys <= {PURPOSE, PROMPT_CONTENT}
    ensures VERSION_KEY !in pack && Get(pack, "pack_type") == Null && Get(pack, "repository") == Null
    ensures Get(pack, "snapshot") == Null && Get(pack, "summary") == Null
  {
    SameLengthKeysDiffer();
  }

  lemma NothingSelected(keys: set<string>)
    ensures SelectedMapping(Null, keys) == Obj(map[]) && ScalarMapping(Null) == Obj(map[])
  {
  }

  /** The base of a pack that has at most a purpose. */
  lemma BaseValues(pack: Fields)
    requires pack.Keys <= {PURPOSE, PROMPT_CONTENT}
    ensures var b := BaseProjection(pack);
            && b[VERSION_KEY] == Int(1) && b["pack_type"] == Null && b["repository"] == Obj(map[])
            && b["snapshot"] == Obj(map[]) && b["summary"] == Obj(map[])
            && b[PURPOSE] == Str(Utf8.TruncateTextBytes(TextOf(Get(pack, PURPOSE)), MAX_PURPOSE_BYTES))
  {
    OnlyPurposeOrContent(pack);
    NothingSelected({"name", "source_type"});
    NothingSelected({"commit_sha"});
    SameLengthKeysDiffer();
    hide Utf8.TruncateTextBytes, SelectedMapping, ScalarMapping, Get;
  }

  lemma EmptySizes()
    ensures Size(Int(1)) == 1 && Size(Null) == 4 && Size(Obj(map[])) == 2 && Size(Str("")) == 2
  {
  }

  lemma OriginalSizes(v: Json)
    ensures Size(Obj(LONG_PURPOSE)) == 515
    ensures Size(Obj(map[PROMPT_CONTENT := v])) == 19 + Size(v)
  {
    XsSize(501);
    BaseKeysArePlain();
    ContentKeyIsPlain();
    hide Xs, EscapedSize, Plain;
    SingleField(PURPOSE, Str(Xs(501)));
    SingleField(PROMPT_CONTENT, v);
  }

  lemma ContentKeyIsPlain()
    ensures Plain(PROMPT_CONTENT)
  {
  }

  /** Prompt content vanishes without a mark, if it is not larger than what the empty base adds. */
  lemma PromptContentVanishesUnmarked(v: Json, maxBytes: int, toolMaxBytes: int)
    requires maxBytes >= MIN_CONTEXT_BYTES && toolMaxBytes >= MIN_TOOL_BYTES
    ensures var r := ViewOf(map[PROMPT_CONTENT := v], maxBytes, toolMaxBytes);
            && r.Ok? && PROMPT_CONTENT !in r.value.payload.fields
            && (!r.value.truncated <==> Size(v) <= 134)
  {
    var pack := map[PROMPT_CONTENT := v];
    OnlyBaseIsShown(pack, maxBytes, toolMaxBytes);
    OriginalSizes(v);
    DriftIsNew(pack);
    BaseSize(pack);
    EmptySizes();
    ContentBase(pack);
    hide Projection, BaseProjection, Size;
  }

  lemma ContentBase(pack: Fields)
    requires pack.Keys <= {PROMPT_CONTENT}
    ensures Size(Obj(BaseProjection(pack))) == 153
  {
    BaseSize(pack);
    EmptySizes();
    TruncatedIsWhole("", MAX_PURPOSE_BYTES);
    hide Size, Utf8.TruncateTextBytes;
    BaseValues(pack);
  }
}
