/** Which values the compaction of a context pack leaves as they are. */
module Lossless {
  import opened Domain
  import opened Json
  import opened PromptProjection
  import opened PromptBudget
  import Utf8

  const DRIFT_KEYS := {"id", "from_commit_sha", "to_commit_sha", "drift_score", "severity"}
  const CHANGED_KEYS := {"path", "status", "insertions", "deletions", "language"}
  const PROFILE_KEYS := {"id", "name", "default_weight"}
  const AREA_KEYS := {"name", "weight"}
  const OMITTED_KEYS := {"omitted", "omitted_reason"}
  const EXCERPT_KEYS := {"text", "start_line", "end_line", TRUNCATED}

  // ---- Selected mappings and scalars -----------------------------------------------------

  /** An object with no other fields, none of them null. */
  predicate OnlyFields(value: Json, keys: set<string>) {
    value.Obj? && forall k :: k in value.fields ==> k in keys && value.fields[k] != Null
  }

  lemma SelectedIsWhole(value: Json, keys: set<string>)
    ensures SelectedMapping(value, keys) == value <==> OnlyFields(value, keys)
  {
  }

  predicate TextList(items: seq<Json>, maxBytes: nat) {
    forall i :: 0 <= i < |items| ==> items[i].Str? && Utf8.Size(items[i].s) <= maxBytes
  }

  /** A scalar, a text of at most 300 bytes, or a list of at most 12 texts of at most 200 bytes. */
  predicate ShownScalar(item: Json) {
    match item
    case Str(s) => Utf8.Size(s) <= 300
    case Arr(items) => |items| <= MAX_LISTED && TextList(items, 200)
    case Obj(_) => false
    case _ => true
  }

  lemma TruncatedIsWhole(s: string, maxBytes: nat)
    ensures Utf8.TruncateTextBytes(s, maxBytes) == s <==> Utf8.Size(s) <= maxBytes
  {
    hide Utf8.TruncateTextBytes, Utf8.Size;
    Utf8.TruncateTextBytesIsExact(s, maxBytes);
  }

  lemma ShortenedIsWhole(items: seq<Json>, maxBytes: nat)
    requires forall i :: 0 <= i < |items| ==> items[i].Str?
    ensures Shortened(items, maxBytes) == items <==> TextList(items, maxBytes)
  {
    hide Utf8.TruncateTextBytes, Utf8.Size;
    forall i | 0 <= i < |items| ensures Shortened(items, maxBytes)[i] == items[i] <==> Utf8.Size(items[i].s) <= maxBytes {
      TruncatedIsWhole(items[i].s, maxBytes);
    }
  }

  lemma ScalarIsWhole(item: Json)
    ensures ScalarItem(item) == Some(item) <==> ShownScalar(item)
  {
    hide Utf8.TruncateTextBytes, Utf8.Size, Shortened;
    match item
    case Str(s) => TruncatedIsWhole(s, 300);
    case Arr(items) =>
      if forall i :: 0 <= i < |items| ==> items[i].Str? {
        ShortenedIsWhole(Take(items, MAX_LISTED), 200);
        ShortenedLength(Take(items, MAX_LISTED), 200);
      }
    case _ =>
  }

  lemma ShortenedLength(items: seq<Json>, maxBytes: nat)
    requires forall i :: 0 <= i < |items| ==> items[i].Str?
    ensures |Shortened(items, maxBytes)| == |items|
  {
  }

  /** At most 12 fields, each shown as it is. */
  predicate ShownScalars(fields: Fields) {
    |fields| <= MAX_SCALARS && forall k :: k in fields ==> ShownScalar(fields[k])
  }

  lemma {:induction false} PartCount(a: set<string>, b: set<string>)
    requires a <= b
    ensures |a| <= |b| && (|a| == |b| ==> a == b)
    decreases |a|
  {
    if a != {} {
      var x :| x in a;
      PartCount(a - {x}, b - {x});
      assert a == a - {x} + {x} && b == b - {x} + {x};
    }
  }

  /** `rest` are the fields of a mapping without some that are shown in another way. */
  lemma ScalarsAreWhole(fields: Fields, rest: Fields)
    requires forall k :: k in rest ==> k in fields && fields[k] == rest[k]
    requires forall k :: k in fields && k !in rest ==> ScalarItem(fields[k]).None?
    ensures ScalarMapping(Obj(fields)).fields == rest <==> ShownScalars(rest)
  {
    var items, r := ScalarItems(fields), ScalarMapping(Obj(fields)).fields;
    ScalarMappingShowsTheFirst(Obj(fields));
    hide ScalarItem, ScalarMapping, ShownScalar;
    forall k | k in rest ensures k in items && items[k] == rest[k] <==> ShownScalar(rest[k]) {
      ScalarIsWhole(rest[k]);
    }
    if ShownScalars(rest) {
      PartCount(r.Keys, rest.Keys);
      assert |r.Keys| == |r| && |rest.Keys| == |rest|;
    }
  }

  lemma ScalarMappingIsWhole(value: Json)
    ensures ScalarMapping(value) == value <==> value.Obj? && ShownScalars(value.fields)
  {
    if value.Obj? {
      ScalarsAreWhole(value.fields, value.fields);
    }
  }

  // ---- Lists of objects ------------------------------------------------------------------

  predicate AllObjects(items: seq<Json>) {
    forall i :: 0 <= i < |items| ==> items[i].Obj?
  }

  lemma {:induction false} ObjectsAreWhole(items: seq<Json>)
    ensures |Objects(items)| <= |items| && AllObjects(Objects(items))
    ensures |Objects(items)| == |items| <==> AllObjects(items)
    ensures AllObjects(items) ==> Objects(items) == items
  {
    if items != [] {
      ObjectsAreWhole(items[1..]);
      assert items == [items[0]] + items[1..];
      if AllObjects(items) {
        assert AllObjects(items[1..]);
      }
      if AllObjects(items[1..]) && items[0].Obj? {
        assert forall i :: 1 <= i < |items| ==> items[i] == items[1..][i - 1];
      }
    }
  }

  /** A list of at most so many objects. */
  predicate ObjectList(value: Json, atMost: nat) {
    value.Arr? && AllObjects(value.items) && |value.items| <= atMost
  }

  // ---- Drift -----------------------------------------------------------------------------

  predicate ShownBreakdown(fields: Fields) {
    var changed := Get(fields, "changed_files");
    if DictItems(changed) == [] then ShownScalars(fields)
    else
      && ObjectList(changed, MAX_LISTED)
      && (forall i :: 0 <= i < |changed.items| ==> OnlyFields(changed.items[i], CHANGED_KEYS))
      && ShownScalars(fields - {"changed_files"})
  }

  predicate ShownDrift(value: Json) {
    && value.Obj?
    && OnlyFields(Obj(value.fields - {"breakdown"}), DRIFT_KEYS)
    && ("breakdown" in value.fields ==> value.fields["breakdown"].Obj? && ShownBreakdown(value.fields["breakdown"].fields))
  }

  // ---- Attention profile -----------------------------------------------------------------

  predicate ShownArea(area: Json) {
    && area.Obj?
    && OnlyFields(Obj(area.fields - {"path_globs"}), AREA_KEYS)
    && var globs := Get(area.fields, "path_globs");
    globs.Arr? && |globs.items| <= MAX_LISTED && forall i :: 0 <= i < |globs.items| ==> globs.items[i].Str?
  }

  /** An empty list of focus areas is dropped. */
  predicate ShownProfile(value: Json) {
    && value.Obj?
    && OnlyFields(Obj(value.fields - {"focus_areas"}), PROFILE_KEYS)
    && ("focus_areas" in value.fields ==>
          var areas := value.fields["focus_areas"];
          && ObjectList(areas, MAX_PROMPT_FOCUS_AREAS) && areas.items != []
          && forall i :: 0 <= i < |areas.items| ==> ShownArea(areas.items[i]))
  }

  // ---- Entries with excerpts -------------------------------------------------------------

  /** The excerpt has exactly the fields that are shown, and its text is within the limit. */
  predicate ShownExcerpt(excerpt: Json, maxBytes: nat) {
    && excerpt.Obj?
    && if Get(excerpt.fields, "text").Str? then
         && excerpt.fields.Keys == EXCERPT_KEYS
         && Utf8.Size(excerpt.fields["text"].s) <= maxBytes && excerpt.fields[TRUNCATED].Bool?
       else OnlyFields(excerpt, OMITTED_KEYS)
  }

  predicate ShownEntry(item: Json, keys: set<string>, maxBytes: nat) {
    && item.Obj?
    && OnlyFields(Obj(item.fields - {EXCERPT}), keys)
    && (EXCERPT in item.fields ==> ShownExcerpt(item.fields[EXCERPT], maxBytes))
  }

  /** Setting a field of a selection gives the value back exactly if the rest was selected whole. */
  lemma SelectionWith(value: Json, keys: set<string>, key: string, v: Json)
    requires value.Obj? && key !in keys && key in value.fields
    ensures Obj(SelectedMapping(value, keys).fields[key := v]) == value
            <==> OnlyFields(Obj(value.fields - {key}), keys) && v == value.fields[key]
  {
    var r := SelectedMapping(value, keys).fields[key := v];
    var rest := value.fields - {key};
    if OnlyFields(Obj(rest), keys) && v == value.fields[key] {
      forall k ensures k in r <==> k in value.fields {
        if k != key { assert k in rest <==> k in value.fields; }
      }
      assert r == value.fields;
    }
    if r == value.fields {
      forall k | k in rest ensures k in keys && rest[k] != Null {
        assert r[k] == value.fields[k];
      }
    }
  }

  /** And without the field, exactly if there was none. */
  lemma SelectionWithout(value: Json, keys: set<string>, key: string)
    requires value.Obj? && key !in keys
    ensures SelectedMapping(value, keys) == value
            <==> key !in value.fields && OnlyFields(Obj(value.fields - {key}), keys)
  {
    SelectedIsWhole(value, keys);
    if key !in value.fields {
      assert value.fields - {key} == value.fields;
    }
  }

  // ---- What compaction leaves as it is ---------------------------------------------------

  lemma SelectionsAreWhole(items: seq<Json>, keys: set<string>)
    ensures Selections(items, keys) == items <==> forall i :: 0 <= i < |items| ==> OnlyFields(items[i], keys)
  {
    hide SelectedMapping, OnlyFields;
    forall i | 0 <= i < |items| ensures Selections(items, keys)[i] == items[i] <==> OnlyFields(items[i], keys) {
      SelectedIsWhole(items[i], keys);
    }
  }

  lemma ScalarChangedFiles(fields: Fields)
    ensures DictItems(Get(fields, "changed_files")) != [] ==>
              "changed_files" in fields && fields["changed_files"].Arr? && ScalarItem(fields["changed_files"]).None?
  {
    var changed := Get(fields, "changed_files");
    if changed.Arr? {
      NoObjects(changed.items);
    }
  }

  lemma {:induction false} NoObjects(items: seq<Json>)
    ensures (forall i :: 0 <= i < |items| ==> items[i].Str?) ==> Objects(items) == []
  {
    if items != [] {
      NoObjects(items[1..]);
    }
  }

  /** The breakdown as it is shown. */
  function CompactBreakdown(fields: Fields): Fields {
    var scalars := ScalarMapping(Obj(fields)).fields;
    var changed := DictItems(Get(fields, "changed_files"));
    if changed == [] then scalars else scalars["changed_files" := Arr(Selections(Take(changed, MAX_LISTED), CHANGED_KEYS))]
  }

  lemma BreakdownIsWhole(fields: Fields)
    ensures CompactBreakdown(fields) == fields <==> ShownBreakdown(fields)
  {
    var changed := Get(fields, "changed_files");
    if DictItems(changed) == [] {
      ScalarsAreWhole(fields, fields);
    } else {
      ScalarChangedFiles(fields);
      var rest := fields - {"changed_files"};
      ScalarsAreWhole(fields, rest);
      ScalarMappingShowsTheFirst(Obj(fields));
      ObjectsAreWhole(changed.items);
      SelectionsAreWhole(changed.items, CHANGED_KEYS);
      var scalars := ScalarMapping(Obj(fields)).fields;
      assert "changed_files" !in scalars;
      hide ScalarMapping, ShownScalars, Selections, Objects, FirstItems, OnlyFields;
      var shown := Selections(Take(DictItems(changed), MAX_LISTED), CHANGED_KEYS);
      PutBack(fields, scalars, "changed_files", Arr(shown));
      TakenWhole(changed.items, shown);
    }
  }

  /** A mapping and one more field make the whole exactly if they are its two parts. */
  lemma PutBack(fields: Fields, part: Fields, key: string, v: Json)
    requires key in fields && key !in part
    ensures part[key := v] == fields <==> part == fields - {key} && v == fields[key]
  {
    if part[key := v] == fields {
      forall k ensures k in part <==> k in fields - {key} {
        assert k != key ==> (k in part <==> k in part[key := v]);
      }
      forall k | k in part ensures part[k] == (fields - {key})[k] {
        assert part[key := v][k] == part[k];
      }
      assert part == fields - {key};
    }
    if part == fields - {key} && v == fields[key] {
      assert part[key := v] == fields;
    }
  }

  lemma SelectionsLength(items: seq<Json>, keys: set<string>)
    ensures |Selections(items, keys)| == |items|
  {
  }

  /** A selection of the first 12 objects of a list is the list exactly if that has no others and they are whole. */
  lemma TakenWhole(items: seq<Json>, shown: seq<Json>)
    requires shown == Selections(Take(Objects(items), MAX_LISTED), CHANGED_KEYS)
    ensures shown == items
            <==> AllObjects(items) && |items| <= MAX_LISTED && forall i :: 0 <= i < |items| ==> OnlyFields(items[i], CHANGED_KEYS)
  {
    hide Selections, OnlyFields, Objects, AllObjects;
    ObjectsAreWhole(items);
    SelectionsLength(Take(Objects(items), MAX_LISTED), CHANGED_KEYS);
    if AllObjects(items) && |items| <= MAX_LISTED {
      SelectionsAreWhole(items, CHANGED_KEYS);
    } else {
      assert |shown| != |items|;
    }
  }

  lemma DriftIsWhole(value: Json)
    requires value.Obj?
    ensures CompactDrift(value) == Some(value) <==> ShownDrift(value)
  {
    var breakdown := Get(value.fields, "breakdown");
    assert "breakdown" !in DRIFT_KEYS;
    if breakdown.Obj? {
      BreakdownIsWhole(breakdown.fields);
      assert CompactDrift(value)
             == Some(Obj(SelectedMapping(value, DRIFT_KEYS).fields["breakdown" := Obj(CompactBreakdown(breakdown.fields))]));
      hide SelectedMapping, OnlyFields, CompactBreakdown, ShownBreakdown, CompactDrift;
      SelectionWith(value, DRIFT_KEYS, "breakdown", Obj(CompactBreakdown(breakdown.fields)));
    } else {
      assert CompactDrift(value) == Some(SelectedMapping(value, DRIFT_KEYS));
      hide SelectedMapping, OnlyFields, CompactDrift, ShownBreakdown;
      SelectionWithout(value, DRIFT_KEYS, "breakdown");
    }
  }

  lemma {:induction false} StringsAreWhole(items: seq<Json>)
    ensures |Strings(items)| <= |items| && forall i :: 0 <= i < |Strings(items)| ==> Strings(items)[i].Str?
    ensures |Strings(items)| == |items| ==> forall i :: 0 <= i < |items| ==> items[i].Str?
    ensures (forall i :: 0 <= i < |items| ==> items[i].Str?) ==> Strings(items) == items
  {
    if items != [] {
      StringsAreWhole(items[1..]);
      assert items == [items[0]] + items[1..];
    }
  }

  lemma AreaIsWhole(area: Json)
    requires area.Obj?
    ensures CompactFocusArea(area) == area <==> ShownArea(area)
  {
    var globs := Get(area.fields, "path_globs");
    if globs.Arr? {
      StringsAreWhole(globs.items);
    }
    var shown := Arr(Take(StringItems(globs), MAX_LISTED));
    assert "path_globs" !in AREA_KEYS;
    assert CompactFocusArea(area) == Obj(SelectedMapping(area, AREA_KEYS).fields["path_globs" := shown]);
    hide SelectedMapping, OnlyFields, CompactFocusArea, Strings;
    if "path_globs" in area.fields {
      SelectionWith(area, AREA_KEYS, "path_globs", shown);
    } else {
      assert "path_globs" in SelectedMapping(area, AREA_KEYS).fields["path_globs" := shown];
    }
  }

  lemma ProfileIsWhole(value: Json)
    requires value.Obj?
    ensures CompactAttentionProfile(value) == Some(value) <==> ShownProfile(value)
  {
    var given := Get(value.fields, "focus_areas");
    var areas := Take(DictItems(given), MAX_PROMPT_FOCUS_AREAS);
    assert "focus_areas" !in PROFILE_KEYS;
    if areas == [] {
      assert CompactAttentionProfile(value) == Some(SelectedMapping(value, PROFILE_KEYS));
      if given.Arr? {
        ObjectsAreWhole(given.items);
      }
      hide SelectedMapping, OnlyFields, CompactAttentionProfile, Objects, ShownArea;
      SelectionWithout(value, PROFILE_KEYS, "focus_areas");
    } else {
      var listed := seq(|areas|, i requires 0 <= i < |areas| => CompactFocusArea(areas[i]));
      assert CompactAttentionProfile(value) == Some(Obj(SelectedMapping(value, PROFILE_KEYS).fields["focus_areas" := Arr(listed)]));
      ObjectsAreWhole(given.items);
      hide SelectedMapping, OnlyFields, CompactAttentionProfile, Objects, ShownArea, CompactFocusArea;
      forall i | 0 <= i < |areas| ensures listed[i] == areas[i] <==> ShownArea(areas[i]) {
        AreaIsWhole(areas[i]);
      }
      SelectionWith(value, PROFILE_KEYS, "focus_areas", Arr(listed));
    }
  }

  /** The excerpt as it is shown. */
  function CompactExcerpt(excerpt: Fields, maxBytes: nat): Json {
    var text := Get(excerpt, "text");
    if !text.Str? then SelectedMapping(Obj(excerpt), OMITTED_KEYS)
    else
      var bounded := Utf8.TruncateTextBytes(text.s, maxBytes);
      Obj(map["text" := Str(bounded), "start_line" := Get(excerpt, "start_line"), "end_line" := Get(excerpt, "end_line"),
              TRUNCATED := Bool(Get(excerpt, TRUNCATED) == Bool(true) || bounded != text.s)])
  }

  lemma FourFields(excerpt: Fields, text: Json, start: Json, end: Json, cut: Json)
    ensures map["text" := text, "start_line" := start, "end_line" := end, TRUNCATED := cut] == excerpt
            <==> && excerpt.Keys == EXCERPT_KEYS && excerpt["text"] == text && excerpt["start_line"] == start
                 && excerpt["end_line"] == end && excerpt[TRUNCATED] == cut
  {
    var shown := map["text" := text, "start_line" := start, "end_line" := end, TRUNCATED := cut];
    assert shown.Keys == EXCERPT_KEYS;
    assert |"text"| == 4 && |"start_line"| == 10 && |"end_line"| == 8 && |TRUNCATED| == 9;
  }

  lemma ExcerptIsWhole(excerpt: Fields, maxBytes: nat)
    ensures CompactExcerpt(excerpt, maxBytes) == Obj(excerpt) <==> ShownExcerpt(Obj(excerpt), maxBytes)
  {
    hide Utf8.TruncateTextBytes, Utf8.Size, SelectedMapping, OnlyFields;
    var text := Get(excerpt, "text");
    if text.Str? {
      var bounded := Utf8.TruncateTextBytes(text.s, maxBytes);
      TruncatedIsWhole(text.s, maxBytes);
      FourFields(excerpt, Str(bounded), Get(excerpt, "start_line"), Get(excerpt, "end_line"),
                 Bool(Get(excerpt, TRUNCATED) == Bool(true) || bounded != text.s));
    } else {
      SelectedIsWhole(Obj(excerpt), OMITTED_KEYS);
    }
  }

  lemma EntryIsWhole(item: Json, keys: set<string>, maxBytes: nat)
    requires item.Obj? && EXCERPT !in keys
    ensures Excerpted(item, keys, maxBytes).full == item <==> ShownEntry(item, keys, maxBytes)
  {
    var excerpt := Get(item.fields, EXCERPT);
    if excerpt.Obj? {
      ExcerptIsWhole(excerpt.fields, maxBytes);
      assert Excerpted(item, keys, maxBytes).full
             == Obj(SelectedMapping(item, keys).fields[EXCERPT := CompactExcerpt(excerpt.fields, maxBytes)]);
      hide SelectedMapping, OnlyFields, Excerpted, CompactExcerpt, ShownExcerpt;
      SelectionWith(item, keys, EXCERPT, CompactExcerpt(excerpt.fields, maxBytes));
    } else {
      assert Excerpted(item, keys, maxBytes).full == SelectedMapping(item, keys);
      hide SelectedMapping, OnlyFields, Excerpted;
      SelectionWithout(item, keys, EXCERPT);
    }
  }
}
