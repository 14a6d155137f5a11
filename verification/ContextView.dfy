/** The view of a context pack that fits into a prompt: what it contains and what its flag says. */
module ContextView {
  import opened Domain
  import opened Json
  import opened PromptProjection
  import opened PromptBudget
  import Utf8

  /** A payload under construction, and whether something of the context pack is missing from it. */
  datatype Draft = Draft(fields: Fields, cut: bool)

  datatype View = View(payload: Json, originalBytes: nat, usedBytes: nat, maxBytes: int, truncated: bool)

  datatype ViewError = ContextBudgetTooSmall | ToolBudgetTooSmall | ProjectionTooLarge

  const KNOWN_KEYS := {
    "schema_version", "pack_type", "purpose", "repository", "snapshot", "summary", SOURCE_REFS, FILES, GUIDANCE,
    DRIFT, ATTENTION, INSPECTION, "prompt_content"}

  function TextOf(value: Json): string {
    if value.Str? then value.s else ""
  }

  /** What is shown in any case. */
  function BaseProjection(pack: Fields): Fields {
    map["schema_version" := if "schema_version" in pack then pack["schema_version"] else Int(1),
        "pack_type" := Get(pack, "pack_type"),
        "purpose" := Str(Utf8.TruncateTextBytes(TextOf(Get(pack, "purpose")), MAX_PURPOSE_BYTES)),
        "repository" := SelectedMapping(Get(pack, "repository"), {"name", "source_type"}),
        "snapshot" := SelectedMapping(Get(pack, "snapshot"), {"commit_sha"}),
        "summary" := ScalarMapping(Get(pack, "summary")),
        SOURCE_REFS := Arr([]),
        FILES := Arr([]),
        GUIDANCE := Arr([])]
  }

  /** Sets a field if the payload then fits. */
  function SetPart(d: Draft, key: string, v: Option<Json>, maxBytes: int): Draft {
    if v.None? then d
    else if Size(Obj(d.fields[key := v.value])) <= maxBytes then d.(fields := d.fields[key := v.value])
    else d.(cut := true)
  }

  /** Fills a list with the entries that fit, of `available` that there are. */
  function FillPart(d: Draft, key: string, available: nat, choices: seq<Choice>, maxBytes: int): Draft {
    var r := Greedy(d.fields, key, [], choices, maxBytes);
    Draft(d.fields[key := Arr(r.kept)], d.cut || r.cut || available > |r.kept|)
  }

  function InspectionPart(d: Draft, inspection: Json, maxBytes: int, toolMaxBytes: int): Draft {
    if !inspection.Obj? then d
    else
      var compact := Obj(Compacted(inspection.fields, toolMaxBytes));
      var r := SetPart(d, INSPECTION, Some(compact), maxBytes);
      r.(cut := r.cut || compact != inspection)
  }

  function SourceRefs(pack: Fields): seq<Json> {
    Selections(Take(DictItems(Get(pack, SOURCE_REFS)), MAX_PROMPT_SOURCE_REFS), REF_KEYS)
  }

  function FileChoices(pack: Fields): seq<Choice> {
    var files := Take(DictItems(Get(pack, FILES)), MAX_PROMPT_FILES);
    seq(|files|, i requires 0 <= i < |files| => CompactFile(files[i]))
  }

  function GuidanceChoices(pack: Fields): seq<Choice> {
    var items := Take(DictItems(Get(pack, GUIDANCE)), MAX_PROMPT_GUIDANCE);
    seq(|items|, i requires 0 <= i < |items| => CompactGuidance(items[i]))
  }

  // The payload after each part.

  function WithProfile(pack: Fields, maxBytes: int): Draft {
    var base := Draft(BaseProjection(pack), !(pack.Keys <= KNOWN_KEYS));
    var drift := SetPart(base, DRIFT, CompactDrift(Get(pack, DRIFT)), maxBytes);
    SetPart(drift, ATTENTION, CompactAttentionProfile(Get(pack, ATTENTION)), maxBytes)
  }

  function WithRefs(pack: Fields, maxBytes: int): Draft {
    FillPart(WithProfile(pack, maxBytes), SOURCE_REFS, |DictItems(Get(pack, SOURCE_REFS))|, Wholes(SourceRefs(pack)), maxBytes)
  }

  function WithInspection(pack: Fields, maxBytes: int, toolMaxBytes: int): Draft {
    InspectionPart(WithRefs(pack, maxBytes), Get(pack, INSPECTION), maxBytes, toolMaxBytes)
  }

  function WithFiles(pack: Fields, maxBytes: int, toolMaxBytes: int): Draft {
    FillPart(WithInspection(pack, maxBytes, toolMaxBytes), FILES, |DictItems(Get(pack, FILES))|, FileChoices(pack), maxBytes)
  }

  function Projection(pack: Fields, maxBytes: int, toolMaxBytes: int): Draft {
    FillPart(WithFiles(pack, maxBytes, toolMaxBytes), GUIDANCE, |DictItems(Get(pack, GUIDANCE))|, GuidanceChoices(pack), maxBytes)
  }

  function ViewOf(pack: Fields, maxBytes: int, toolMaxBytes: int): Result<View, ViewError> {
    if maxBytes < MIN_CONTEXT_BYTES then Err(ContextBudgetTooSmall)
    else if toolMaxBytes < MIN_TOOL_BYTES then Err(ToolBudgetTooSmall)
    else
      var d := Projection(pack, maxBytes, toolMaxBytes);
      var used := Size(Obj(d.fields));
      if used > maxBytes then Err(ProjectionTooLarge)
      else Ok(View(Obj(d.fields), Size(Obj(pack)), used, maxBytes, d.cut || used < Size(Obj(pack))))
  }

  // ---- Fitting -------------------------------------------------------------------------

  /** The payload fits in the one state exactly if it fits in the other. */
  predicate SameFit(a: Draft, b: Draft, maxBytes: int) {
    Size(Obj(a.fields)) <= maxBytes <==> Size(Obj(b.fields)) <= maxBytes
  }

  lemma SetPartFits(d: Draft, key: string, v: Option<Json>, maxBytes: int)
    requires key !in d.fields
    ensures SameFit(d, SetPart(d, key, v, maxBytes), maxBytes)
  {
    if v.Some? {
      NewFieldSize(Obj(d.fields), key, v.value);
    }
  }

  lemma FillPartFits(d: Draft, key: string, available: nat, choices: seq<Choice>, maxBytes: int)
    requires key in d.fields && d.fields[key] == Arr([])
    ensures SameFit(d, FillPart(d, key, available, choices, maxBytes), maxBytes)
  {
    GreedyFits(d.fields, key, [], choices, maxBytes);
    assert d.fields[key := Arr([])] == d.fields;
  }

  lemma KeysDiffer()
    ensures DRIFT != ATTENTION && DRIFT != SOURCE_REFS && DRIFT != INSPECTION && DRIFT != FILES && DRIFT != GUIDANCE
    ensures ATTENTION != SOURCE_REFS && ATTENTION != INSPECTION && ATTENTION != FILES && ATTENTION != GUIDANCE
    ensures SOURCE_REFS != INSPECTION && SOURCE_REFS != FILES && SOURCE_REFS != GUIDANCE
    ensures INSPECTION != FILES && INSPECTION != GUIDANCE && FILES != GUIDANCE
  {
    assert |DRIFT| == 5 && |ATTENTION| == 17 && |SOURCE_REFS| == 11 && |INSPECTION| == 15 && |FILES| == 14 && |GUIDANCE| == 17;
    assert ATTENTION[0] == 'a' && GUIDANCE[0] == 'i';
  }

  lemma BaseKeys(pack: Fields)
    ensures var d := BaseProjection(pack);
            && DRIFT !in d && ATTENTION !in d && INSPECTION !in d
            && SOURCE_REFS in d && FILES in d && GUIDANCE in d
            && d[SOURCE_REFS] == Arr([]) && d[FILES] == Arr([]) && d[GUIDANCE] == Arr([])
  {
    KeysDiffer();
  }

  /** Nothing but this field differs. */
  predicate Elsewhere(a: Draft, b: Draft, key: string) {
    && (forall k :: k in a.fields && k != key ==> k in b.fields && b.fields[k] == a.fields[k])
    && (forall k :: k in b.fields && k != key ==> k in a.fields)
  }

  lemma PartsAreLocal(d: Draft, key: string, v: Option<Json>, available: nat, choices: seq<Choice>, maxBytes: int)
    ensures Elsewhere(d, SetPart(d, key, v, maxBytes), key)
    ensures Elsewhere(d, FillPart(d, key, available, choices, maxBytes), key)
  {
  }

  lemma InspectionIsLocal(d: Draft, inspection: Json, maxBytes: int, toolMaxBytes: int)
    ensures Elsewhere(d, InspectionPart(d, inspection, maxBytes, toolMaxBytes), INSPECTION)
  {
  }

  /** The parts come under keys of their own: those that are set are new, and the lists are empty until filled. */
  lemma PartsAreSeparate(pack: Fields, maxBytes: int, toolMaxBytes: int)
    ensures var d := WithProfile(pack, maxBytes).fields;
            && INSPECTION !in d && SOURCE_REFS in d && d[SOURCE_REFS] == Arr([])
            && FILES in d && d[FILES] == Arr([]) && GUIDANCE in d && d[GUIDANCE] == Arr([])
    ensures Elsewhere(WithProfile(pack, maxBytes), WithRefs(pack, maxBytes), SOURCE_REFS)
    ensures Elsewhere(WithRefs(pack, maxBytes), WithInspection(pack, maxBytes, toolMaxBytes), INSPECTION)
    ensures Elsewhere(WithInspection(pack, maxBytes, toolMaxBytes), WithFiles(pack, maxBytes, toolMaxBytes), FILES)
    ensures Elsewhere(WithFiles(pack, maxBytes, toolMaxBytes), Projection(pack, maxBytes, toolMaxBytes), GUIDANCE)
  {
    KeysDiffer();
    BaseKeys(pack);
    var base := Draft(BaseProjection(pack), !(pack.Keys <= KNOWN_KEYS));
    var drift := SetPart(base, DRIFT, CompactDrift(Get(pack, DRIFT)), maxBytes);
    PartsAreLocal(base, DRIFT, CompactDrift(Get(pack, DRIFT)), 0, [], maxBytes);
    PartsAreLocal(drift, ATTENTION, CompactAttentionProfile(Get(pack, ATTENTION)), 0, [], maxBytes);
    PartsAreLocal(WithProfile(pack, maxBytes), SOURCE_REFS, None, |DictItems(Get(pack, SOURCE_REFS))|, Wholes(SourceRefs(pack)), maxBytes);
    InspectionIsLocal(WithRefs(pack, maxBytes), Get(pack, INSPECTION), maxBytes, toolMaxBytes);
    PartsAreLocal(WithInspection(pack, maxBytes, toolMaxBytes), FILES, None, |DictItems(Get(pack, FILES))|, FileChoices(pack), maxBytes);
    PartsAreLocal(WithFiles(pack, maxBytes, toolMaxBytes), GUIDANCE, None, |DictItems(Get(pack, GUIDANCE))|, GuidanceChoices(pack), maxBytes);
  }

  /** The projection fits exactly if what is shown in any case fits. */
  lemma ProjectionFitsExactly(pack: Fields, maxBytes: int, toolMaxBytes: int)
    ensures Size(Obj(Projection(pack, maxBytes, toolMaxBytes).fields)) <= maxBytes
            <==> Size(Obj(BaseProjection(pack))) <= maxBytes
  {
    KeysDiffer();
    BaseKeys(pack);
    PartsAreSeparate(pack, maxBytes, toolMaxBytes);
    var base := Draft(BaseProjection(pack), !(pack.Keys <= KNOWN_KEYS));
    var drift := SetPart(base, DRIFT, CompactDrift(Get(pack, DRIFT)), maxBytes);
    SetPartFits(base, DRIFT, CompactDrift(Get(pack, DRIFT)), maxBytes);
    SetPartFits(drift, ATTENTION, CompactAttentionProfile(Get(pack, ATTENTION)), maxBytes);
    FillPartFits(WithProfile(pack, maxBytes), SOURCE_REFS, |DictItems(Get(pack, SOURCE_REFS))|, Wholes(SourceRefs(pack)), maxBytes);
    var inspection := Get(pack, INSPECTION);
    if inspection.Obj? {
      SetPartFits(WithRefs(pack, maxBytes), INSPECTION, Some(Obj(Compacted(inspection.fields, toolMaxBytes))), maxBytes);
    }
    FillPartFits(WithInspection(pack, maxBytes, toolMaxBytes), FILES, |DictItems(Get(pack, FILES))|, FileChoices(pack), maxBytes);
    FillPartFits(WithFiles(pack, maxBytes, toolMaxBytes), GUIDANCE, |DictItems(Get(pack, GUIDANCE))|, GuidanceChoices(pack), maxBytes);
  }

  /** With sufficient limits, a view fails exactly if its base exceeds the limit, and stays within it otherwise. */
  lemma ViewFailsExactly(pack: Fields, maxBytes: int, toolMaxBytes: int)
    requires maxBytes >= MIN_CONTEXT_BYTES && toolMaxBytes >= MIN_TOOL_BYTES
    ensures var r := ViewOf(pack, maxBytes, toolMaxBytes);
            && (r == Err(ProjectionTooLarge) <==> Size(Obj(BaseProjection(pack))) > maxBytes)
            && (r.Ok? <==> Size(Obj(BaseProjection(pack))) <= maxBytes)
            && (r.Ok? ==> Utf8.Size(Dumps(r.value.payload)) == r.value.usedBytes <= maxBytes)
  {
    ProjectionFitsExactly(pack, maxBytes, toolMaxBytes);
    SizeCountsBytes(Obj(Projection(pack, maxBytes, toolMaxBytes).fields));
  }

  // ---- What is kept --------------------------------------------------------------------

  /**
   * Source references, files and guidance are each kept from the front, as far as they fit on top of
   * the parts before them; a file or guidance entry that does not fit is shown without its excerpt.
   */
  lemma ListsKeepTheFirst(pack: Fields, maxBytes: int, toolMaxBytes: int)
    ensures var d := Projection(pack, maxBytes, toolMaxBytes).fields;
            && ListKept(d, SOURCE_REFS, WithProfile(pack, maxBytes).fields, Wholes(SourceRefs(pack)), maxBytes)
            && ListKept(d, FILES, WithInspection(pack, maxBytes, toolMaxBytes).fields, FileChoices(pack), maxBytes)
            && ListKept(d, GUIDANCE, WithFiles(pack, maxBytes, toolMaxBytes).fields, GuidanceChoices(pack), maxBytes)
            && d[SOURCE_REFS].items <= SourceRefs(pack)
  {
    RefsKeepTheFirst(pack, maxBytes, toolMaxBytes);
    FilesKeepTheFirst(pack, maxBytes, toolMaxBytes);
    GuidanceKeepsTheFirst(pack, maxBytes, toolMaxBytes);
  }

  lemma RefsKeepTheFirst(pack: Fields, maxBytes: int, toolMaxBytes: int)
    ensures var d := Projection(pack, maxBytes, toolMaxBytes).fields;
            && ListKept(d, SOURCE_REFS, WithProfile(pack, maxBytes).fields, Wholes(SourceRefs(pack)), maxBytes)
            && d[SOURCE_REFS].items <= SourceRefs(pack)
  {
    KeysDiffer();
    PartsAreSeparate(pack, maxBytes, toolMaxBytes);
    GreedyKeepsFirst(WithProfile(pack, maxBytes).fields, SOURCE_REFS, [], Wholes(SourceRefs(pack)), maxBytes);
    assert WithRefs(pack, maxBytes).fields[SOURCE_REFS] == Projection(pack, maxBytes, toolMaxBytes).fields[SOURCE_REFS];
  }

  lemma FilesKeepTheFirst(pack: Fields, maxBytes: int, toolMaxBytes: int)
    ensures ListKept(Projection(pack, maxBytes, toolMaxBytes).fields, FILES, WithInspection(pack, maxBytes, toolMaxBytes).fields,
                     FileChoices(pack), maxBytes)
  {
    KeysDiffer();
    PartsAreSeparate(pack, maxBytes, toolMaxBytes);
    GreedyKeepsFirst(WithInspection(pack, maxBytes, toolMaxBytes).fields, FILES, [], FileChoices(pack), maxBytes);
  }

  lemma GuidanceKeepsTheFirst(pack: Fields, maxBytes: int, toolMaxBytes: int)
    ensures ListKept(Projection(pack, maxBytes, toolMaxBytes).fields, GUIDANCE, WithFiles(pack, maxBytes, toolMaxBytes).fields,
                     GuidanceChoices(pack), maxBytes)
  {
    KeysDiffer();
    PartsAreSeparate(pack, maxBytes, toolMaxBytes);
    GreedyKeepsFirst(WithFiles(pack, maxBytes, toolMaxBytes).fields, GUIDANCE, [], GuidanceChoices(pack), maxBytes);
  }

  // ---- What the flag says --------------------------------------------------------------

  ghost predicate PartSet(d: Fields, key: string, v: Option<Json>) {
    v.Some? ==> key in d && d[key] == v.value
  }

  /** All there were are shown, in full and with their whole text. */
  ghost predicate ListComplete(d: Fields, key: string, available: nat, choices: seq<Choice>) {
    && available == |choices|
    && key in d && d[key].Arr? && AllInFull([], choices, d[key].items)
  }

  /**
   * The parts that are set or filled are all there in their compacted form: drift, attention profile,
   * every reference, file and guidance entry, and the tool inspection. This says nothing about what
   * selecting and shortening leave out of the pack, nor about the parts that are shown in any case.
   */
  ghost predicate PartsKept(pack: Fields, d: Fields) {
    && pack.Keys <= KNOWN_KEYS
    && PartSet(d, DRIFT, CompactDrift(Get(pack, DRIFT)))
    && PartSet(d, ATTENTION, CompactAttentionProfile(Get(pack, ATTENTION)))
    && ListComplete(d, SOURCE_REFS, |DictItems(Get(pack, SOURCE_REFS))|, Wholes(SourceRefs(pack)))
    && (Get(pack, INSPECTION).Obj? ==> PartSet(d, INSPECTION, Some(Get(pack, INSPECTION))))
    && ListComplete(d, FILES, |DictItems(Get(pack, FILES))|, FileChoices(pack))
    && ListComplete(d, GUIDANCE, |DictItems(Get(pack, GUIDANCE))|, GuidanceChoices(pack))
  }

  lemma SetPartFlag(d: Draft, key: string, v: Option<Json>, maxBytes: int)
    requires key !in d.fields
    ensures var r := SetPart(d, key, v, maxBytes); !r.cut <==> !d.cut && PartSet(r.fields, key, v)
  {
  }

  lemma InspectionFlag(d: Draft, inspection: Json, maxBytes: int, toolMaxBytes: int)
    requires INSPECTION !in d.fields
    ensures var r := InspectionPart(d, inspection, maxBytes, toolMaxBytes);
            !r.cut <==> !d.cut && (inspection.Obj? ==> PartSet(r.fields, INSPECTION, Some(inspection)))
  {
  }

  lemma FillPartFlag(d: Draft, key: string, available: nat, choices: seq<Choice>, maxBytes: int)
    requires |choices| <= available
    ensures var r := FillPart(d, key, available, choices, maxBytes);
            !r.cut <==> !d.cut && ListComplete(r.fields, key, available, choices)
  {
    GreedyFlag(d.fields, key, [], choices, maxBytes);
    GreedyKeepsFirst(d.fields, key, [], choices, maxBytes);
  }

  lemma ProfileFlag(pack: Fields, maxBytes: int)
    ensures var d := WithProfile(pack, maxBytes);
            !d.cut <==>
              && pack.Keys <= KNOWN_KEYS
              && PartSet(d.fields, DRIFT, CompactDrift(Get(pack, DRIFT)))
              && PartSet(d.fields, ATTENTION, CompactAttentionProfile(Get(pack, ATTENTION)))
  {
    KeysDiffer();
    BaseKeys(pack);
    var base := Draft(BaseProjection(pack), !(pack.Keys <= KNOWN_KEYS));
    var drift := SetPart(base, DRIFT, CompactDrift(Get(pack, DRIFT)), maxBytes);
    SetPartFlag(base, DRIFT, CompactDrift(Get(pack, DRIFT)), maxBytes);
    SetPartFlag(drift, ATTENTION, CompactAttentionProfile(Get(pack, ATTENTION)), maxBytes);
    PartsAreLocal(drift, ATTENTION, CompactAttentionProfile(Get(pack, ATTENTION)), 0, [], maxBytes);
  }

  /** The flag of the projection is down exactly if the parts were all kept. */
  lemma FlagIsExact(pack: Fields, maxBytes: int, toolMaxBytes: int)
    ensures var d := Projection(pack, maxBytes, toolMaxBytes); !d.cut <==> PartsKept(pack, d.fields)
  {
    KeysDiffer();
    PartsAreSeparate(pack, maxBytes, toolMaxBytes);
    ProfileFlag(pack, maxBytes);
    FillPartFlag(WithProfile(pack, maxBytes), SOURCE_REFS, |DictItems(Get(pack, SOURCE_REFS))|, Wholes(SourceRefs(pack)), maxBytes);
    InspectionFlag(WithRefs(pack, maxBytes), Get(pack, INSPECTION), maxBytes, toolMaxBytes);
    FillPartFlag(WithInspection(pack, maxBytes, toolMaxBytes), FILES, |DictItems(Get(pack, FILES))|, FileChoices(pack), maxBytes);
    FillPartFlag(WithFiles(pack, maxBytes, toolMaxBytes), GUIDANCE, |DictItems(Get(pack, GUIDANCE))|, GuidanceChoices(pack), maxBytes);
  }

  /** A view is unmarked exactly if its parts were all kept and it is no smaller than its pack. */
  lemma UnmarkedViewKeepsItsParts(pack: Fields, maxBytes: int, toolMaxBytes: int)
    requires ViewOf(pack, maxBytes, toolMaxBytes).Ok?
    ensures var v := ViewOf(pack, maxBytes, toolMaxBytes).value;
            !v.truncated <==> PartsKept(pack, v.payload.fields) && v.usedBytes >= v.originalBytes
  {
    FlagIsExact(pack, maxBytes, toolMaxBytes);
  }

  /** An excerpt is within its limit, and the whole text if the entry is not marked as cut. */
  lemma ExcerptIsBounded(item: Json, keys: set<string>, maxBytes: nat)
    requires var excerpt := Get(FieldsOf(item), EXCERPT); excerpt.Obj? && Get(excerpt.fields, "text").Str?
    ensures var text, c := Get(Get(FieldsOf(item), EXCERPT).fields, "text").s, Excerpted(item, keys, maxBytes);
            && c.full.Obj? && EXCERPT in c.full.fields && c.full.fields[EXCERPT].Obj?
            && var shown := Get(c.full.fields[EXCERPT].fields, "text");
            && shown.Str? && Utf8.Size(shown.s) <= maxBytes
            && (!c.cut <==> shown.s == text) && (!c.cut <==> Utf8.Size(text) <= maxBytes)
  {
    hide Utf8.TruncateTextBytes, Utf8.Size, SelectedMapping;
    var text := Get(Get(FieldsOf(item), EXCERPT).fields, "text").s;
    Utf8.TruncateTextBytesIsExact(text, maxBytes);
  }
}
