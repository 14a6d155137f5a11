/**
 * What the agent shows a model of a context pack: which parts it selects, how it shortens them, and
 * which of them it keeps when there is room for so many bytes only.
 */
module PromptProjection {
  import opened Domain
  import opened Json
  import opened TextOrder
  import Utf8

  type Fields = map<string, Json>

  const MIN_CONTEXT_BYTES := 1000
  const MIN_TOOL_BYTES := 250
  const MAX_PROMPT_SOURCE_REFS := 24
  const MAX_PROMPT_FILES := 10
  const MAX_PROMPT_GUIDANCE := 6
  const MAX_PROMPT_FOCUS_AREAS := 8
  const MAX_PROMPT_FILE_EXCERPT_BYTES := 1400
  const MAX_PROMPT_GUIDANCE_EXCERPT_BYTES := 1000
  const MAX_PURPOSE_BYTES := 500
  const MAX_SCALARS := 12
  const MAX_LISTED := 12
  const MAX_EVIDENCE_REFS := 8
  const MIN_CALL_BYTES := 200

  const FAILED_CALLS := "failed_tool_calls"
  const DUPLICATE_CALLS := "duplicate_tool_calls"
  const CALLS := "tool_calls"
  const TRUNCATED := "truncated"

  const VERSION_KEY := "schema_version"
  const TURNS_KEY := "model_turn_count"
  const COMPLETED_KEY := "completed_call_count"
  const FAILED_KEY := "failed_call_count"
  const DUPLICATE_KEY := "duplicate_call_count"

  const SOURCE_REFS := "source_refs"
  const FILES := "included_files"
  const GUIDANCE := "included_guidance"
  const EXCERPT := "content_excerpt"
  const DRIFT := "drift"
  const ATTENTION := "attention_profile"
  const INSPECTION := "tool_inspection"

  const FILE_KEYS := {"path", "status", "language", "parse_status", "size_bytes", "insertions", "deletions"}
  const GUIDANCE_KEYS := {"path", "source_type"}
  const COUNTER_KEYS := {VERSION_KEY, TURNS_KEY, COMPLETED_KEY, FAILED_KEY, DUPLICATE_KEY}

  // ---- Selecting and shortening --------------------------------------------------------

  /** A missing field and a field that is null read the same. */
  function Get(fields: Fields, key: string): Json {
    if key in fields then fields[key] else Null
  }

  function FieldsOf(value: Json): Fields {
    if value.Obj? then value.fields else map[]
  }

  /** The fields under these keys that are not null. */
  function SelectedMapping(value: Json, keys: set<string>): Json {
    var fields := FieldsOf(value);
    Obj(map k | k in fields && k in keys && fields[k] != Null :: fields[k])
  }

  function Objects(items: seq<Json>): seq<Json> {
    if items == [] then [] else (if items[0].Obj? then [items[0]] else []) + Objects(items[1..])
  }

  function DictItems(value: Json): seq<Json> {
    if value.Arr? then Objects(value.items) else []
  }

  function Strings(items: seq<Json>): seq<Json> {
    if items == [] then [] else (if items[0].Str? then [items[0]] else []) + Strings(items[1..])
  }

  function StringItems(value: Json): seq<Json> {
    if value.Arr? then Strings(value.items) else []
  }

  function Take<T>(items: seq<T>, n: nat): seq<T> {
    if |items| <= n then items else items[..n]
  }

  function Selections(items: seq<Json>, keys: set<string>): seq<Json> {
    seq(|items|, i requires 0 <= i < |items| => SelectedMapping(items[i], keys))
  }

  function Shortened(items: seq<Json>, maxBytes: nat): seq<Json>
    requires forall i :: 0 <= i < |items| ==> items[i].Str?
  {
    seq(|items|, i requires 0 <= i < |items| => Str(Utf8.TruncateTextBytes(items[i].s, maxBytes)))
  }

  /** What becomes of an item that is a scalar or a list of strings. Others are left out. */
  function ScalarItem(item: Json): Option<Json> {
    match item
    case Str(s) => Some(Str(Utf8.TruncateTextBytes(s, 300)))
    case Arr(items) =>
      if forall i :: 0 <= i < |items| ==> items[i].Str? then Some(Arr(Shortened(Take(items, MAX_LISTED), 200))) else None
    case Obj(_) => None
    case _ => Some(item)
  }

  /** The scalar items, each as it is shown. */
  function ScalarItems(fields: Fields): Fields {
    map k | k in fields && ScalarItem(fields[k]).Some? :: ScalarItem(fields[k]).value
  }

  /** Adds the items under these keys, in key order, until there are so many. */
  function Scalars(items: Fields, keys: set<string>, compact: Fields, maxItems: nat): Fields
    decreases keys
  {
    if keys == {} then compact
    else
      var k := Least(keys);
      var next := if k in items then compact[k := items[k]] else compact;
      if |next| >= maxItems then next else Scalars(items, keys - {k}, next, maxItems)
  }

  /** The items added come from the mapping, and none that was there is lost or changed. */
  ghost predicate Adds(items: Fields, keys: set<string>, compact: Fields, r: Fields) {
    && (forall k :: k in compact ==> k in r && r[k] == compact[k])
    && (forall k :: k in r && k !in compact ==> k in keys && k in items && r[k] == items[k])
  }

  lemma {:induction false} ScalarsAreItems(items: Fields, keys: set<string>, compact: Fields, maxItems: nat)
    requires |compact| < maxItems && forall k :: k in keys ==> k !in compact
    ensures Adds(items, keys, compact, Scalars(items, keys, compact, maxItems))
    ensures |Scalars(items, keys, compact, maxItems)| <= maxItems
    decreases keys
  {
    if keys != {} {
      var k := Least(keys);
      var next := if k in items then compact[k := items[k]] else compact;
      assert |next| <= maxItems by {
        assert k in items ==> next.Keys == compact.Keys + {k};
      }
      if |next| < maxItems {
        ScalarsAreItems(items, keys - {k}, next, maxItems);
      }
    }
  }

  /** An item is left out only if there are enough, and all of these come before it. */
  lemma {:induction false} ScalarsAreTheFirst(items: Fields, keys: set<string>, compact: Fields, maxItems: nat, left: string)
    requires |compact| < maxItems && forall k :: k in keys ==> k !in compact
    requires left in keys && left in items && left !in Scalars(items, keys, compact, maxItems)
    ensures var r := Scalars(items, keys, compact, maxItems);
            |r| == maxItems && forall taken :: taken in r && taken in keys ==> Before(taken, left)
    decreases keys
  {
    var k := Least(keys);
    var next := if k in items then compact[k := items[k]] else compact;
    assert k in items ==> next.Keys == compact.Keys + {k};
    ScalarsAreItems(items, keys, compact, maxItems);
    if |next| < maxItems {
      ScalarsAreItems(items, keys - {k}, next, maxItems);
      ScalarsAreTheFirst(items, keys - {k}, next, maxItems, left);
    }
  }

  /** `r` holds the first items: one is left out only if there are enough and all come before it. */
  ghost predicate FirstItems(items: Fields, r: Fields, maxItems: nat) {
    && r.Keys <= items.Keys && |r| <= maxItems
    && (forall k :: k in r ==> r[k] == items[k])
    && (forall k :: k in items && k !in r ==> |r| == maxItems && forall taken :: taken in r ==> Before(taken, k))
  }

  function ScalarMapping(value: Json): Json {
    var fields := FieldsOf(value);
    Obj(Scalars(ScalarItems(fields), fields.Keys, map[], MAX_SCALARS))
  }

  /** A mapping is shown by the first of its scalar items. */
  lemma ScalarMappingShowsTheFirst(value: Json)
    ensures FirstItems(ScalarItems(FieldsOf(value)), ScalarMapping(value).fields, MAX_SCALARS)
  {
    var items, keys, r := ScalarItems(FieldsOf(value)), FieldsOf(value).Keys, ScalarMapping(value).fields;
    ScalarsAreItems(items, keys, map[], MAX_SCALARS);
    forall k | k in items && k !in r ensures |r| == MAX_SCALARS && forall taken :: taken in r ==> Before(taken, k) {
      ScalarsAreTheFirst(items, keys, map[], MAX_SCALARS, k);
    }
  }

  function CompactDrift(value: Json): Option<Json> {
    if !value.Obj? then None
    else
      var compact := SelectedMapping(value, {"id", "from_commit_sha", "to_commit_sha", "drift_score", "severity"});
      var breakdown := Get(value.fields, "breakdown");
      if !breakdown.Obj? then Some(compact)
      else
        var scalars := ScalarMapping(breakdown).fields;
        var changed := DictItems(Get(breakdown.fields, "changed_files"));
        var listed := Selections(Take(changed, MAX_LISTED), {"path", "status", "insertions", "deletions", "language"});
        var compactBreakdown := if changed == [] then scalars else scalars["changed_files" := Arr(listed)];
        Some(Obj(compact.fields["breakdown" := Obj(compactBreakdown)]))
  }

  function CompactFocusArea(area: Json): Json {
    Obj(SelectedMapping(area, {"name", "weight"}).fields[
      "path_globs" := Arr(Take(StringItems(Get(FieldsOf(area), "path_globs")), MAX_LISTED))])
  }

  function CompactAttentionProfile(value: Json): Option<Json> {
    if !value.Obj? then None
    else
      var compact := SelectedMapping(value, {"id", "name", "default_weight"});
      var areas := Take(DictItems(Get(value.fields, "focus_areas")), MAX_PROMPT_FOCUS_AREAS);
      if areas == [] then Some(compact)
      else
        var listed := seq(|areas|, i requires 0 <= i < |areas| => CompactFocusArea(areas[i]));
        Some(Obj(compact.fields["focus_areas" := Arr(listed)]))
  }

  /** An entry in full, what is shown of it if that is too much, and whether its text was cut. */
  datatype Choice = Choice(full: Json, brief: Json, cut: bool)

  /** The entry with its excerpt cut to a number of bytes; the brief entry has no excerpt. */
  function Excerpted(item: Json, keys: set<string>, maxBytes: nat): Choice {
    var compact := SelectedMapping(item, keys).fields;
    var brief := Obj(compact - {EXCERPT});
    var excerpt := Get(FieldsOf(item), EXCERPT);
    if !excerpt.Obj? then Choice(Obj(compact), brief, false)
    else
      var text := Get(excerpt.fields, "text");
      if !text.Str? then
        Choice(Obj(compact[EXCERPT := SelectedMapping(excerpt, {"omitted", "omitted_reason"})]), brief, false)
      else
        var bounded := Utf8.TruncateTextBytes(text.s, maxBytes);
        var shown := map[
          "text" := Str(bounded),
          "start_line" := Get(excerpt.fields, "start_line"),
          "end_line" := Get(excerpt.fields, "end_line"),
          TRUNCATED := Bool(Get(excerpt.fields, TRUNCATED) == Bool(true) || bounded != text.s)];
        Choice(Obj(compact[EXCERPT := Obj(shown)]), brief, bounded != text.s)
  }

  function CompactFile(file: Json): Choice {
    Excerpted(file, FILE_KEYS, MAX_PROMPT_FILE_EXCERPT_BYTES)
  }

  function CompactGuidance(guidance: Json): Choice {
    Excerpted(guidance, GUIDANCE_KEYS, MAX_PROMPT_GUIDANCE_EXCERPT_BYTES)
  }

  /** An entry that is kept as it is or not at all. */
  function Whole(item: Json): Choice {
    Choice(item, item, false)
  }

  // ---- Filling a list while there is room ----------------------------------------------

  /** The kept entries, and whether an entry was dropped, shown in brief or had its text cut. */
  datatype Filled = Filled(kept: seq<Json>, cut: bool)

  function With(fields: Fields, key: string, kept: seq<Json>): Json {
    Obj(fields[key := Arr(kept)])
  }

  predicate Fits(fields: Fields, key: string, kept: seq<Json>, maxBytes: int) {
    Size(With(fields, key, kept)) <= maxBytes
  }

  /** Appends the entries one by one, in full or else in brief, up to the first that does not fit. */
  function Greedy(fields: Fields, key: string, kept: seq<Json>, choices: seq<Choice>, maxBytes: int): Filled
    decreases |choices|
  {
    if choices == [] then Filled(kept, false)
    else if Fits(fields, key, kept + [choices[0].full], maxBytes) then
      var rest := Greedy(fields, key, kept + [choices[0].full], choices[1..], maxBytes);
      rest.(cut := rest.cut || choices[0].cut)
    else if Fits(fields, key, kept + [choices[0].brief], maxBytes) then
      Greedy(fields, key, kept + [choices[0].brief], choices[1..], maxBytes).(cut := true)
    else Filled(kept, true)
  }

  lemma AppendingGrows(fields: Fields, key: string, kept: seq<Json>, v: Json)
    ensures Size(With(fields, key, kept + [v])) > Size(With(fields, key, kept))
  {
    ReplacedFieldSize(With(fields, key, kept), key, Arr(kept + [v]));
    assert fields[key := Arr(kept)][key := Arr(kept + [v])] == fields[key := Arr(kept + [v])];
    AppendedItemSize(kept, v);
    SizeIsPositive(v);
  }

  lemma SizeIsPositive(j: Json)
    ensures Size(j) >= 1
  {
  }

  /** A list that fits is filled to one that fits; nothing is added to one that does not. */
  lemma {:induction false} GreedyFits(fields: Fields, key: string, kept: seq<Json>, choices: seq<Choice>, maxBytes: int)
    ensures var r := Greedy(fields, key, kept, choices, maxBytes);
            if Fits(fields, key, kept, maxBytes) then Fits(fields, key, r.kept, maxBytes)
            else r == Filled(kept, choices != [])
    decreases |choices|
  {
    if choices != [] {
      AppendingGrows(fields, key, kept, choices[0].full);
      AppendingGrows(fields, key, kept, choices[0].brief);
      if Fits(fields, key, kept + [choices[0].full], maxBytes) {
        GreedyFits(fields, key, kept + [choices[0].full], choices[1..], maxBytes);
      } else if Fits(fields, key, kept + [choices[0].brief], maxBytes) {
        GreedyFits(fields, key, kept + [choices[0].brief], choices[1..], maxBytes);
      }
    }
  }

  /** The entries kept are the first ones, each in full if it fitted after those before it, else in brief. */
  ghost predicate KeepsFirst(fields: Fields, key: string, kept: seq<Json>, choices: seq<Choice>, maxBytes: int, r: seq<Json>) {
    && kept <= r && |r| - |kept| <= |choices|
    && (forall i :: |kept| <= i < |r| ==>
          r[i] == if Fits(fields, key, r[..i] + [choices[i - |kept|].full], maxBytes) then choices[i - |kept|].full
                  else choices[i - |kept|].brief)
    && (|r| - |kept| < |choices| ==>
          && !Fits(fields, key, r + [choices[|r| - |kept|].full], maxBytes)
          && !Fits(fields, key, r + [choices[|r| - |kept|].brief], maxBytes))
  }

  lemma {:induction false} GreedyKeepsFirst(fields: Fields, key: string, kept: seq<Json>, choices: seq<Choice>, maxBytes: int)
    ensures KeepsFirst(fields, key, kept, choices, maxBytes, Greedy(fields, key, kept, choices, maxBytes).kept)
    decreases |choices|
  {
    if choices != [] {
      var first := if Fits(fields, key, kept + [choices[0].full], maxBytes) then choices[0].full else choices[0].brief;
      if Fits(fields, key, kept + [first], maxBytes) {
        var r := Greedy(fields, key, kept, choices, maxBytes).kept;
        GreedyKeepsFirst(fields, key, kept + [first], choices[1..], maxBytes);
        assert r[|kept|] == (kept + [first])[|kept|];
        assert r[..|kept|] == kept;
      }
    }
  }

  /** The list under the key is what a filling of that list kept. */
  ghost predicate ListKept(d: Fields, key: string, before: Fields, choices: seq<Choice>, maxBytes: int) {
    && key in d && d[key].Arr?
    && KeepsFirst(before, key, [], choices, maxBytes, d[key].items)
  }

  /** All entries were kept, in full and with their whole text. */
  ghost predicate AllInFull(kept: seq<Json>, choices: seq<Choice>, r: seq<Json>) {
    && |r| == |kept| + |choices|
    && forall j :: 0 <= j < |choices| ==> r[|kept| + j] == choices[j].full && !choices[j].cut
  }

  lemma AllInFullStep(kept: seq<Json>, choices: seq<Choice>, r: seq<Json>)
    requires choices != [] && |r| > |kept|
    ensures AllInFull(kept, choices, r) <==>
              r[|kept|] == choices[0].full && !choices[0].cut && AllInFull(kept + [choices[0].full], choices[1..], r)
  {
    var rest := choices[1..];
    if AllInFull(kept, choices, r) {
      forall j | 0 <= j < |rest| ensures r[|kept| + 1 + j] == rest[j].full && !rest[j].cut {
        assert rest[j] == choices[j + 1];
      }
    }
    if r[|kept|] == choices[0].full && !choices[0].cut && AllInFull(kept + [choices[0].full], rest, r) {
      forall j | 0 <= j < |choices| ensures r[|kept| + j] == choices[j].full && !choices[j].cut {
        if j > 0 {
          assert rest[j - 1] == choices[j];
        }
      }
    }
  }

  /** The flag is down exactly if all entries were kept, in full and with their whole text. */
  lemma {:induction false} GreedyFlag(fields: Fields, key: string, kept: seq<Json>, choices: seq<Choice>, maxBytes: int)
    ensures var r := Greedy(fields, key, kept, choices, maxBytes);
            !r.cut <==> AllInFull(kept, choices, r.kept)
    decreases |choices|
  {
    if choices != [] {
      var r := Greedy(fields, key, kept, choices, maxBytes);
      GreedyKeepsFirst(fields, key, kept, choices, maxBytes);
      if Fits(fields, key, kept + [choices[0].full], maxBytes) {
        GreedyFlag(fields, key, kept + [choices[0].full], choices[1..], maxBytes);
        GreedyKeepsFirst(fields, key, kept + [choices[0].full], choices[1..], maxBytes);
        AllInFullStep(kept, choices, r.kept);
      } else if |r.kept| > |kept| {
        assert r.kept[..|kept|] == kept;
        AllInFullStep(kept, choices, r.kept);
      }
    }
  }
}
