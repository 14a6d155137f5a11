/** When the history of an inspection gets larger, or exceeds its budget, by being compacted. */
module HistoryBytes {
  import opened Json
  import opened PromptProjection
  import opened PromptBudget
  import opened CompactionBytes
  import opened InspectionRequest

  function ExecutionJsons(executions: seq<Execution>): seq<Json> {
    seq(|executions|, i requires 0 <= i < |executions| => ExecutionJson(executions[i]))
  }

  function FailedJsons(failed: seq<FailedCall>): seq<Json> {
    seq(|failed|, i requires 0 <= i < |failed| => FailedJson(failed[i]))
  }

  function DuplicateJsons(duplicates: seq<DuplicateCall>): seq<Json> {
    seq(|duplicates|, i requires 0 <= i < |duplicates| => DuplicateJson(duplicates[i]))
  }

  lemma {:induction false} ObjectsStay(items: seq<Json>)
    requires forall i :: 0 <= i < |items| ==> items[i].Obj?
    ensures Objects(items) == items
  {
    if items != [] {
      ObjectsStay(items[1..]);
    }
  }

  /** Selecting all the fields there are changes nothing, unless one is null. */
  lemma AllSelected(fields: Fields, keys: set<string>)
    requires fields.Keys <= keys && forall k :: k in fields ==> fields[k] != Null
    ensures SelectedMapping(Obj(fields), keys) == Obj(fields)
  {
  }

  lemma FailureIsSelectedWhole(f: FailedCall)
    ensures SelectedMapping(FailedJson(f), FAILURE_KEYS) == FailedJson(f)
  {
    hide SelectedMapping;
    AllSelected(FailedJson(f).fields, FAILURE_KEYS);
  }

  lemma DuplicateIsSelectedWhole(d: DuplicateCall)
    ensures SelectedMapping(DuplicateJson(d), DUPLICATE_KEYS) == DuplicateJson(d)
  {
    hide SelectedMapping;
    AllSelected(DuplicateJson(d).fields, DUPLICATE_KEYS);
  }

  lemma HistoryLists(turns: nat, executions: seq<Execution>, failed: seq<FailedCall>, duplicates: seq<DuplicateCall>)
    ensures var h := HistoryPayload(turns, executions, failed, duplicates);
            && Get(h, FAILED_CALLS) == Arr(FailedJsons(failed)) && Get(h, DUPLICATE_CALLS) == Arr(DuplicateJsons(duplicates))
            && Get(h, CALLS) == Arr(ExecutionJsons(executions))
  {
    hide ExecutionJson, FailedJson, DuplicateJson;
    CounterKeysDiffer();
  }

  lemma FailuresAreSelectedWhole(failed: seq<FailedCall>)
    ensures DictItems(Arr(FailedJsons(failed))) == FailedJsons(failed)
    ensures Selections(FailedJsons(failed), FAILURE_KEYS) == FailedJsons(failed)
  {
    ObjectsStay(FailedJsons(failed));
    hide SelectedMapping, FailedJson;
    forall i | 0 <= i < |failed| ensures SelectedMapping(FailedJson(failed[i]), FAILURE_KEYS) == FailedJson(failed[i]) {
      FailureIsSelectedWhole(failed[i]);
    }
  }

  lemma DuplicatesAreSelectedWhole(duplicates: seq<DuplicateCall>)
    ensures DictItems(Arr(DuplicateJsons(duplicates))) == DuplicateJsons(duplicates)
    ensures Selections(DuplicateJsons(duplicates), DUPLICATE_KEYS) == DuplicateJsons(duplicates)
  {
    ObjectsStay(DuplicateJsons(duplicates));
    hide SelectedMapping, DuplicateJson;
    forall i | 0 <= i < |duplicates| ensures SelectedMapping(DuplicateJson(duplicates[i]), DUPLICATE_KEYS) == DuplicateJson(duplicates[i]) {
      DuplicateIsSelectedWhole(duplicates[i]);
    }
  }

  /** The failures and duplicates of a history are selected whole. */
  lemma EntriesAreSelectedWhole(turns: nat, executions: seq<Execution>, failed: seq<FailedCall>, duplicates: seq<DuplicateCall>)
    ensures var h := HistoryPayload(turns, executions, failed, duplicates);
            && Failures(h) == FailedJsons(failed) && Duplicates(h) == DuplicateJsons(duplicates)
            && DictItems(Get(h, CALLS)) == ExecutionJsons(executions)
  {
    HistoryLists(turns, executions, failed, duplicates);
    ObjectsStay(ExecutionJsons(executions));
    FailuresAreSelectedWhole(failed);
    DuplicatesAreSelectedWhole(duplicates);
    hide HistoryPayload, Selections, FailedJsons, DuplicateJsons, Objects, Get;
  }

  /** The bytes of a history: its counters, three lists with their keys, and the entries. */
  lemma HistorySize(turns: nat, executions: seq<Execution>, failed: seq<FailedCall>, duplicates: seq<DuplicateCall>)
    ensures Size(Obj(HistoryPayload(turns, executions, failed, duplicates)))
            == Size(Obj(Counters(turns, |executions|, |failed|, |duplicates|))) + 65
               + ListBytes(Sizes(ExecutionJsons(executions))) + ListBytes(Sizes(FailedJsons(failed)))
               + ListBytes(Sizes(DuplicateJsons(duplicates)))
  {
    KeysArePlain();
    CounterKeysDiffer();
    hide Size, ListBytes, EscapedSize, ExecutionJson, FailedJson, DuplicateJson;
    var counters := Counters(turns, |executions|, |failed|, |duplicates|);
    assert VERSION_KEY in counters;
    var withCalls := counters[CALLS := Arr(ExecutionJsons(executions))];
    var withFailures := withCalls[FAILED_CALLS := Arr(FailedJsons(failed))];
    AddedField(counters, CALLS, Arr(ExecutionJsons(executions)));
    AddedField(withCalls, FAILED_CALLS, Arr(FailedJsons(failed)));
    AddedField(withFailures, DUPLICATE_CALLS, Arr(DuplicateJsons(duplicates)));
    ArrBytes(ExecutionJsons(executions));
    ArrBytes(FailedJsons(failed));
    ArrBytes(DuplicateJsons(duplicates));
  }

  /** What is lost of entries of these sizes when only those are kept that fit. */
  function Lost(used: int, sizes: seq<nat>, maxBytes: int): int {
    ListBytes(sizes) - ListBytes(sizes[..Taken(used, sizes, 0, maxBytes)])
  }

  /** The bytes that a compaction saves on failures, duplicates and calls; calls may grow by quoting. */
  function Saved(base: int, calls: seq<nat>, compactCalls: seq<nat>, failures: seq<nat>, duplicates: seq<nat>, maxBytes: int): int {
    Lost(base, failures, maxBytes)
    + Lost(FillBytes(base, failures, maxBytes) + 26, duplicates, maxBytes)
    + ListBytes(calls)
    - (CompactedBytes(base, failures, duplicates, compactCalls, maxBytes) - DuplicatesBytes(base, failures, duplicates, maxBytes) - 16)
  }

  /**
   * The mark of a compacted history costs 17 bytes: a history gets larger by being compacted exactly if
   * less than that is saved on its entries.
   */
  lemma CompactionGrowsExactly(turns: nat, executions: seq<Execution>, failed: seq<FailedCall>, duplicates: seq<DuplicateCall>, maxBytes: int)
    requires Size(Obj(HistoryPayload(turns, executions, failed, duplicates))) > maxBytes
    ensures var h := HistoryPayload(turns, executions, failed, duplicates);
            var base := Size(Obj(Counters(turns, |executions|, |failed|, |duplicates|))) + 40;
            var saved := Saved(base, Sizes(ExecutionJsons(executions)), Sizes(CompactCalls(ExecutionJsons(executions), maxBytes)),
                               Sizes(FailedJsons(failed)), Sizes(DuplicateJsons(duplicates)), maxBytes);
            && Size(Obj(Compacted(h, maxBytes))) == Size(Obj(h)) + 17 - saved
            && (Size(Obj(Compacted(h, maxBytes))) > Size(Obj(h)) <==> saved < 17)
  {
    var h := HistoryPayload(turns, executions, failed, duplicates);
    HistoryBaseSize(turns, executions, failed, duplicates);
    EntriesAreSelectedWhole(turns, executions, failed, duplicates);
    hide Size, ListBytes, Counters, HistoryPayload, CompactBase, CompactCalls, Failures, Duplicates, Compacted, Sizes;
    HistorySize(turns, executions, failed, duplicates);
    CompactedSize(h, maxBytes);
  }

  lemma HistoryBaseSize(turns: nat, executions: seq<Execution>, failed: seq<FailedCall>, duplicates: seq<DuplicateCall>)
    ensures Size(Obj(CompactBase(HistoryPayload(turns, executions, failed, duplicates))))
            == Size(Obj(Counters(turns, |executions|, |failed|, |duplicates|))) + 40
  {
    HistoryBase(turns, executions, failed, duplicates);
    CounterKeysDiffer();
    var counters := Counters(turns, |executions|, |failed|, |duplicates|);
    assert VERSION_KEY in counters;
    hide Size, HistoryPayload, CompactBase;
    MarkedSize(counters);
  }

  // ---- The overshoot is reached --------------------------------------------------------

  /** The message for a tool that is not registered, which repeats its name. */
  const UNKNOWN_TOOL := "unknown tool: "

  /** A call of a tool that is not registered, without arguments. */
  function Refused(callIdLength: nat, nameLength: nat): FailedCall {
    var name := Xs(nameLength);
    FailedCall(Xs(callIdLength), name, map[], ToolError("RepoToolError", UNKNOWN_TOOL + name))
  }

  lemma EntryKeysArePlain()
    ensures Plain("call_id") && Plain("tool_name") && Plain("arguments") && Plain("error_type") && Plain("error")
    ensures "tool_name" != "arguments"
  {
    assert "tool_name"[0] == 't' && "arguments"[0] == 'a';
  }

  /** The bytes of a failed call. */
  lemma FailedSize(f: FailedCall)
    ensures Size(FailedJson(f)) == 61 + Size(Str(f.callId)) + Size(Str(f.toolName)) + Size(Obj(f.arguments))
                                   + Size(Str(f.error.kind)) + Size(Str(f.error.message))
  {
    EntryKeysArePlain();
    hide Size, Plain;
    var a := map["call_id" := Str(f.callId)];
    var b := a["tool_name" := Str(f.toolName)];
    var c := b["arguments" := Obj(f.arguments)];
    var d := c["error_type" := Str(f.error.kind)];
    SingleField("call_id", Str(f.callId));
    assert "call_id" in a;
    AddedField(a, "tool_name", Str(f.toolName));
    AddedField(b, "arguments", Obj(f.arguments));
    AddedField(c, "error_type", Str(f.error.kind));
    AddedField(d, "error", Str(f.error.message));
    assert FailedJson(f).fields == d["error" := Str(f.error.message)];
  }

  lemma RefusedSize(callIdLength: nat, nameLength: nat)
    ensures Size(FailedJson(Refused(callIdLength, nameLength))) == 98 + callIdLength + 2 * nameLength
  {
    FailedSize(Refused(callIdLength, nameLength));
    XsSize(callIdLength);
    XsSize(nameLength);
    UnknownToolSize(nameLength);
    OtherSizes();
    hide Size, FailedJson, Xs, UNKNOWN_TOOL;
  }

  lemma UnknownToolSize(nameLength: nat)
    ensures Size(Str(UNKNOWN_TOOL + Xs(nameLength))) == 16 + nameLength
  {
    var prefix, text := UNKNOWN_TOOL, UNKNOWN_TOOL + Xs(nameLength);
    assert |prefix| == 14 && Plain(prefix);
    hide EscapedSize, UNKNOWN_TOOL;
    assert Plain(text);
    PlainSize(text);
  }

  lemma OtherSizes()
    ensures Size(Str("RepoToolError")) == 15 && Size(Obj(map[])) == 2
  {
    hide EscapedSize;
    PlainSize("RepoToolError");
  }

  lemma OneEntryFills(used: int, size: nat, maxBytes: int)
    requires used + size <= maxBytes
    ensures FillBytes(used, [size], maxBytes) == used + size
  {
    assert [size][..1] == [size] && [size][..0] == [];
    assert ListBytes([size]) == size;
    assert Taken(used, [size], 1, maxBytes) == 1;
  }

  /** The refused call whose history has a given size. */
  function RefusedFor(budget: nat): FailedCall
    requires budget >= 254
  {
    Refused(1 + (budget - 254) % 2, 1 + (budget - 254) / 2)
  }

  /**
   * The overshoot of 42 bytes is reached at every limit from 254 on, by a history with one refused call:
   * it exceeds its budget by 25 bytes before it is compacted and by 42 after.
   */
  lemma HistoryOvershoots(budget: nat)
    requires budget >= 254
    ensures var h := HistoryPayload(1, [], [RefusedFor(budget)], []);
            Size(Obj(h)) == budget + 25 && Size(Obj(Compacted(h, budget))) == budget + 42
  {
    var failed := [RefusedFor(budget)];
    var h := HistoryPayload(1, [], failed, []);
    CountersSize(1, 0, 1, 0);
    RefusedSize(1 + (budget - 254) % 2, 1 + (budget - 254) / 2);
    assert Size(FailedJson(failed[0])) == budget - 153;
    HistoryBaseSize(1, [], failed, []);
    HistorySize(1, [], failed, []);
    EntriesAreSelectedWhole(1, [], failed, []);
    hide Size, HistoryPayload, CompactBase, Counters, Failures, Duplicates, FailedJson, Compacted, ListBytes, RefusedFor, FillBytes;
    OneFailure(failed[0]);
    OneEntryFills(153, budget - 153, budget);
    NothingFills(budget + 26, budget);
    NothingFills(budget + 42, budget);
    NoBytes(budget - 153);
    CompactedSize(h, budget);
    assert CompactCalls([], budget) == [];
  }

  lemma OneFailure(f: FailedCall)
    ensures Sizes(FailedJsons([f])) == [Size(FailedJson(f))]
    ensures Sizes(ExecutionJsons([])) == [] && Sizes(DuplicateJsons([])) == []
  {
    hide Size, FailedJson;
  }

  lemma NothingFills(used: int, maxBytes: int)
    ensures FillBytes(used, [], maxBytes) == used
  {
  }

  lemma NoBytes(size: nat)
    ensures ListBytes([]) == 0 && ListBytes([size]) == size
  {
  }
}
