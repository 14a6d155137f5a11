/** What a compacted tool observation contains, item by item. */
module CompactionContents {
  import opened Json
  import opened PromptProjection
  import opened PromptBudget
  import opened ViewContents
  import Utf8

  /** A call with its result as text up to its share of the bytes, and its first 8 evidence references. */
  ghost predicate ShowsCall(shown: Json, call: Json, perCallBytes: nat) {
    && shown.Obj? && call.Obj?
    && ShowsKeys(shown.fields - {"payload_json", "evidence_refs"}, call.fields, {"call_id", "tool_name", "arguments"})
    && "payload_json" in shown.fields
    && shown.fields["payload_json"] == Str(Utf8.TruncateTextBytes(ResultText(call.fields), perCallBytes))
    && "evidence_refs" in shown.fields && shown.fields["evidence_refs"].Arr?
    && ShowsFirst(shown.fields["evidence_refs"].items, DictItems(Get(call.fields, "evidence_refs")), 8, {"source_type", "source_uri"})
  }

  /** A text as it is and any other value serialised, under the first of two keys that is there. */
  function ResultText(call: Fields): string {
    if "payload" in call then TextOrDump(call["payload"])
    else if "payload_json" in call then TextOrDump(call["payload_json"])
    else "{}"
  }

  function TextOrDump(value: Json): string {
    if value.Str? then value.s else Dumps(value)
  }

  lemma ResultTextIsPayload(call: Fields)
    ensures PayloadText(call) == ResultText(call)
  {
    var none: Fields := map[];
    assert none.Keys == {};
    assert Dumps(Obj(none)) == "{" + "" + "}";
  }

  lemma TwoAdded(fields: Fields, a: string, v: Json, b: string, w: Json)
    requires a !in fields && b !in fields
    ensures fields[a := v][b := w] - {a, b} == fields
  {
  }

  lemma CallShows(call: Json, perCallBytes: nat)
    requires call.Obj?
    ensures ShowsCall(CompactCall(call, perCallBytes), call, perCallBytes)
  {
    SelectionShows(call, {"call_id", "tool_name", "arguments"});
    var compact := SelectedMapping(call, {"call_id", "tool_name", "arguments"}).fields;
    var shown := CompactCall(call, perCallBytes).fields;
    SelectionsShow(Get(call.fields, "evidence_refs"), 8, {"source_type", "source_uri"});
    ResultTextIsPayload(call.fields);
    assert "payload_json" !in compact && "evidence_refs" !in compact;
    hide SelectedMapping, ShowsKeys, PayloadText, ResultText, DictItems, Selections, ShowsFirst, Utf8.TruncateTextBytes;
    TwoAdded(compact, "payload_json", shown["payload_json"], "evidence_refs", shown["evidence_refs"]);
  }

  /** The bytes for each result: half of its share of the limit, but 200 at least. */
  function ShareOf(maxBytes: int, calls: nat): nat
    requires calls > 0
  {
    if maxBytes / calls / 2 > 200 then maxBytes / calls / 2 else 200
  }

  /** What was there before the calls, and before the duplicates, is the compaction without them. */
  lemma Stages(value: Fields, maxBytes: int)
    requires Size(Obj(value)) > maxBytes
    ensures var r := Compacted(value, maxBytes);
            && AfterDuplicates(value, maxBytes) == r["tool_calls" := Arr([])]
            && AfterFailures(value, maxBytes) == (r - {"tool_calls"})["duplicate_tool_calls" := Arr([])]
            && CompactBase(value) == (r - {"tool_calls", "duplicate_tool_calls"})["failed_tool_calls" := Arr([])]
  {
    hide Size, Greedy, Selections, CompactCalls, DictItems, CompactBase;
    KeysArePlain();
    ListKeysAreNew(value, maxBytes);
    BaseHasFailures(value);
  }

  lemma BaseHasFailures(value: Fields)
    ensures var b := CompactBase(value);
            && CALLS !in b && DUPLICATE_CALLS !in b && FAILED_CALLS in b && b[FAILED_CALLS] == Arr([])
  {
    CounterKeysDiffer();
  }

  /** Besides the three lists a compaction has the counters that are not null, and its mark. */
  lemma CountersAreShown(value: Fields, maxBytes: int)
    requires Size(Obj(value)) > maxBytes
    ensures var r := Compacted(value, maxBytes);
            && "truncated" in r && r["truncated"] == Bool(true)
            && ShowsKeys(r - {"truncated", "failed_tool_calls", "duplicate_tool_calls", "tool_calls"}, value,
                         {"schema_version", "model_turn_count", "completed_call_count", "failed_call_count", "duplicate_call_count"})
  {
    Stages(value, maxBytes);
    SelectionShows(Obj(value), COUNTER_KEYS);
    CountersOf(value);
    hide Compacted, AfterDuplicates, AfterFailures, CompactBase, SelectedMapping, ShowsKeys;
    WithoutTheLists(CompactBase(value), Compacted(value, maxBytes), CALLS, DUPLICATE_CALLS, FAILED_CALLS, TRUNCATED);
  }

  lemma CountersOf(value: Fields)
    ensures var b := CompactBase(value);
            && TRUNCATED in b && b[TRUNCATED] == Bool(true) && TRUNCATED != FAILED_CALLS && TRUNCATED != CALLS && TRUNCATED != DUPLICATE_CALLS
            && b - {TRUNCATED, FAILED_CALLS} == SelectedMapping(Obj(value), COUNTER_KEYS).fields
  {
    CounterKeysDiffer();
    var counters := SelectedMapping(Obj(value), COUNTER_KEYS).fields;
    assert TRUNCATED !in counters && FAILED_CALLS !in counters;
    hide SelectedMapping;
    TwoAdded(counters, TRUNCATED, Bool(true), FAILED_CALLS, Arr([]));
  }

  lemma WithoutTheLists(base: Fields, r: Fields, a: string, b: string, c: string, mark: string)
    requires base == (r - {a, b})[c := Arr([])] && mark in base && mark != c
    ensures mark in r && r[mark] == base[mark]
    ensures base - {mark, c} == r - {mark, c, b, a}
  {
    assert mark in r - {a, b};
  }

  /** The failures shown are the first ones: a failure is left out only if there was no room for it on top of the counters. */
  lemma FailuresAreTheFirst(value: Fields, maxBytes: int, i: nat) returns (selection: Json)
    requires Size(Obj(value)) > maxBytes && i < |DictItems(Get(value, "failed_tool_calls"))|
    ensures ShowsObject(selection, DictItems(Get(value, "failed_tool_calls"))[i],
                        {"call_id", "tool_name", "arguments", "error_type", "error"})
    ensures var r, all := Compacted(value, maxBytes), DictItems(Get(value, "failed_tool_calls"));
            && ListOf(r, "failed_tool_calls", all, |all|)
            && (i <= |r["failed_tool_calls"].items| ==>
                  FilledAt(r - {"tool_calls", "duplicate_tool_calls"}, "failed_tool_calls", r["failed_tool_calls"].items, i,
                           selection, selection, maxBytes))
  {
    var all := DictItems(Get(value, FAILED_CALLS));
    DictItemsAreObjects(Get(value, FAILED_CALLS));
    selection := SelectedMapping(all[i], FAILURE_KEYS);
    SelectionShows(all[i], FAILURE_KEYS);
    var choices := Wholes(Selections(all, FAILURE_KEYS));
    assert |choices| == |all| && choices[i] == Whole(selection);
    CompactedKeepsTheFirst(value, maxBytes);
    Stages(value, maxBytes);
    hide Compacted, AfterDuplicates, AfterFailures, CompactBase, DictItems, SelectedMapping, Selections, Wholes, FilledAt, Size;
    var r := Compacted(value, maxBytes);
    KeptIsFilled(r, r - {CALLS, DUPLICATE_CALLS}, FAILED_CALLS, choices, maxBytes, i);
  }

  /** The duplicates shown are the first ones for which there was room on top of counters and failures. */
  lemma DuplicatesAreTheFirst(value: Fields, maxBytes: int, i: nat) returns (selection: Json)
    requires Size(Obj(value)) > maxBytes && i < |DictItems(Get(value, "duplicate_tool_calls"))|
    ensures ShowsObject(selection, DictItems(Get(value, "duplicate_tool_calls"))[i], {"call_id", "tool_name", "arguments", "error"})
    ensures var r, all := Compacted(value, maxBytes), DictItems(Get(value, "duplicate_tool_calls"));
            && ListOf(r, "duplicate_tool_calls", all, |all|)
            && (i <= |r["duplicate_tool_calls"].items| ==>
                  FilledAt(r - {"tool_calls"}, "duplicate_tool_calls", r["duplicate_tool_calls"].items, i,
                           selection, selection, maxBytes))
  {
    var all := DictItems(Get(value, DUPLICATE_CALLS));
    DictItemsAreObjects(Get(value, DUPLICATE_CALLS));
    selection := SelectedMapping(all[i], DUPLICATE_KEYS);
    SelectionShows(all[i], DUPLICATE_KEYS);
    var choices := Wholes(Selections(all, DUPLICATE_KEYS));
    assert |choices| == |all| && choices[i] == Whole(selection);
    CompactedKeepsTheFirst(value, maxBytes);
    Stages(value, maxBytes);
    hide Compacted, AfterDuplicates, AfterFailures, CompactBase, DictItems, SelectedMapping, Selections, Wholes, FilledAt, Size;
    var r := Compacted(value, maxBytes);
    KeptIsFilled(r, r - {CALLS}, DUPLICATE_CALLS, choices, maxBytes, i);
  }

  /** The calls shown are the first ones for which there was room on top of all else, each with its result cut to its share. */
  lemma CallsAreTheFirst(value: Fields, maxBytes: int, i: nat) returns (shown: Json)
    requires Size(Obj(value)) > maxBytes && i < |DictItems(Get(value, "tool_calls"))|
    ensures var all := DictItems(Get(value, "tool_calls")); ShowsCall(shown, all[i], ShareOf(maxBytes, |all|))
    ensures var r, all := Compacted(value, maxBytes), DictItems(Get(value, "tool_calls"));
            && ListOf(r, "tool_calls", all, |all|)
            && (i <= |r["tool_calls"].items| ==>
                  FilledAt(r, "tool_calls", r["tool_calls"].items, i, shown, shown, maxBytes))
  {
    var all := DictItems(Get(value, CALLS));
    DictItemsAreObjects(Get(value, CALLS));
    shown := CompactCall(all[i], PerCallBytes(maxBytes, |all|));
    CallShows(all[i], PerCallBytes(maxBytes, |all|));
    assert PerCallBytes(maxBytes, |all|) == ShareOf(maxBytes, |all|);
    var choices := Wholes(CompactCalls(all, maxBytes));
    assert |choices| == |all| && choices[i] == Whole(shown);
    CompactedKeepsTheFirst(value, maxBytes);
    Stages(value, maxBytes);
    hide Compacted, AfterDuplicates, AfterFailures, CompactBase, DictItems, CompactCall, CompactCalls, Wholes, FilledAt, Size,
      PerCallBytes, ShareOf, ShowsCall;
    var r := Compacted(value, maxBytes);
    KeptIsFilled(r, r, CALLS, choices, maxBytes, i);
  }
}
