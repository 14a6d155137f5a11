/** The compaction of tool observations to a number of bytes, which it can miss by 42. */
module PromptBudget {
  import opened Json
  import opened PromptProjection
  import Utf8

  // ---- Tool observations ---------------------------------------------------------------

  function Wholes(items: seq<Json>): seq<Choice> {
    seq(|items|, i requires 0 <= i < |items| => Whole(items[i]))
  }

  const FAILURE_KEYS := {"call_id", "tool_name", "arguments", "error_type", "error"}
  const DUPLICATE_KEYS := {"call_id", "tool_name", "arguments", "error"}
  const CALL_KEYS := {"call_id", "tool_name", "arguments"}
  const REF_KEYS := {"source_type", "source_uri"}

  function PerCallBytes(maxBytes: int, calls: nat): nat {
    var share := maxBytes / (if calls == 0 then 1 else calls) / 2;
    if share > MIN_CALL_BYTES then share else MIN_CALL_BYTES
  }

  /** A payload is serialised unless it is a text already. */
  function PayloadText(call: Fields): string {
    var value := if "payload" in call then call["payload"] else if "payload_json" in call then call["payload_json"] else Obj(map[]);
    if value.Str? then value.s else Dumps(value)
  }

  function CompactCall(call: Json, perCallBytes: nat): Json {
    var refs := Take(DictItems(Get(FieldsOf(call), "evidence_refs")), MAX_EVIDENCE_REFS);
    Obj(SelectedMapping(call, CALL_KEYS).fields[
      "payload_json" := Str(Utf8.TruncateTextBytes(PayloadText(FieldsOf(call)), perCallBytes))][
      "evidence_refs" := Arr(Selections(refs, REF_KEYS))])
  }

  function CompactCalls(calls: seq<Json>, maxBytes: int): seq<Json> {
    seq(|calls|, i requires 0 <= i < |calls| => CompactCall(calls[i], PerCallBytes(maxBytes, |calls|)))
  }

  /** The counters, the mark and an empty list of failures. */
  function CompactBase(value: Fields): Fields {
    SelectedMapping(Obj(value), COUNTER_KEYS).fields[TRUNCATED := Bool(true)][FAILED_CALLS := Arr([])]
  }

  function FilledWith(fields: Fields, key: string, items: seq<Json>, maxBytes: int): Fields {
    fields[key := Arr(Greedy(fields, key, [], Wholes(items), maxBytes).kept)]
  }

  /** With the failures that fit, and an empty list of duplicates that is added in any case. */
  function AfterFailures(value: Fields, maxBytes: int): Fields {
    FilledWith(CompactBase(value), FAILED_CALLS, Selections(DictItems(Get(value, FAILED_CALLS)), FAILURE_KEYS), maxBytes)[
      DUPLICATE_CALLS := Arr([])]
  }

  /** With the duplicates that fit, and an empty list of calls that is added in any case. */
  function AfterDuplicates(value: Fields, maxBytes: int): Fields {
    FilledWith(AfterFailures(value, maxBytes), DUPLICATE_CALLS,
               Selections(DictItems(Get(value, DUPLICATE_CALLS)), DUPLICATE_KEYS), maxBytes)[CALLS := Arr([])]
  }

  function Compacted(value: Fields, maxBytes: int): Fields {
    if Size(Obj(value)) <= maxBytes then value
    else FilledWith(AfterDuplicates(value, maxBytes), CALLS, CompactCalls(DictItems(Get(value, CALLS)), maxBytes), maxBytes)
  }

  function Max(a: int, b: int): int {
    if a >= b then a else b
  }

  /** Filling an empty list keeps a payload within its limit, and adds nothing to one that exceeds it. */
  lemma FilledSize(fields: Fields, key: string, items: seq<Json>, maxBytes: int)
    requires key in fields && fields[key] == Arr([])
    ensures var r := FilledWith(fields, key, items, maxBytes);
            if Size(Obj(fields)) <= maxBytes then Size(Obj(r)) <= maxBytes else r == fields
  {
    GreedyFits(fields, key, [], Wholes(items), maxBytes);
    assert fields[key := Arr([])] == fields;
  }

  lemma EmptyListSize(fields: Fields, key: string)
    requires key !in fields && fields != map[] && Plain(key)
    ensures Size(Obj(fields[key := Arr([])])) == Size(Obj(fields)) + |key| + 6
  {
    NewFieldSize(Obj(fields), key, Arr([]));
    PlainSize(key);
  }

  lemma KeysArePlain()
    ensures Plain(TRUNCATED) && |TRUNCATED| == 9
    ensures Plain(FAILED_CALLS) && |FAILED_CALLS| == 17
    ensures Plain(DUPLICATE_CALLS) && |DUPLICATE_CALLS| == 20
    ensures Plain(CALLS) && |CALLS| == 10
  {
  }

  lemma CounterKeysArePlain()
    ensures Plain(VERSION_KEY) && |VERSION_KEY| == 14
    ensures Plain(TURNS_KEY) && |TURNS_KEY| == 16
    ensures Plain(COMPLETED_KEY) && |COMPLETED_KEY| == 20
    ensures Plain(FAILED_KEY) && |FAILED_KEY| == 17
    ensures Plain(DUPLICATE_KEY) && |DUPLICATE_KEY| == 20
  {
  }

  lemma CounterKeysDiffer()
    ensures COMPLETED_KEY != DUPLICATE_KEY && FAILED_KEY != FAILED_CALLS
    ensures DUPLICATE_CALLS != COMPLETED_KEY && DUPLICATE_CALLS != DUPLICATE_KEY
    ensures |CALLS| == 10 && |FAILED_CALLS| == 17 && |DUPLICATE_CALLS| == 20 && |TRUNCATED| == 9
  {
    assert COMPLETED_KEY[0] == 'c' && DUPLICATE_KEY[0] == 'd';
    assert FAILED_KEY[7] == 'c' && FAILED_CALLS[7] == 't';
    assert DUPLICATE_KEY[10] == 'c' && DUPLICATE_CALLS[10] == 't' && DUPLICATE_CALLS[0] == 'd';
  }

  lemma ListKeysAreNew(value: Fields, maxBytes: int)
    ensures DUPLICATE_CALLS !in CompactBase(value)
    ensures CALLS !in AfterFailures(value, maxBytes)
  {
    CounterKeysDiffer();
  }

  /**
   * The two lists that are added without a check cost 42 bytes together: a compacted observation is
   * at most 42 bytes larger than the limit, or than its counters with the mark if those exceed it.
   */
  lemma CompactedIsBounded(value: Fields, maxBytes: int)
    ensures Size(Obj(Compacted(value, maxBytes))) <= Max(maxBytes, Size(Obj(CompactBase(value)))) + 42
  {
    if Size(Obj(value)) > maxBytes {
      CompactedStages(value, maxBytes);
    }
  }

  /** What the stages of a compaction cost. */
  lemma CompactedStages(value: Fields, maxBytes: int)
    requires Size(Obj(value)) > maxBytes
    ensures var base, failures, duplicates := CompactBase(value), AfterFailures(value, maxBytes), AfterDuplicates(value, maxBytes);
            && Size(Obj(failures)) <= Max(maxBytes, Size(Obj(base))) + 26
            && Size(Obj(duplicates)) <= Max(maxBytes, Size(Obj(failures))) + 16
            && (if Size(Obj(duplicates)) <= maxBytes then Size(Obj(Compacted(value, maxBytes))) <= maxBytes
                else Compacted(value, maxBytes) == duplicates)
  {
    KeysArePlain();
    ListKeysAreNew(value, maxBytes);
    var base, failures, duplicates := CompactBase(value), AfterFailures(value, maxBytes), AfterDuplicates(value, maxBytes);
    var failed := Selections(DictItems(Get(value, FAILED_CALLS)), FAILURE_KEYS);
    FilledSize(base, FAILED_CALLS, failed, maxBytes);
    EmptyListSize(FilledWith(base, FAILED_CALLS, failed, maxBytes), DUPLICATE_CALLS);
    var repeated := Selections(DictItems(Get(value, DUPLICATE_CALLS)), DUPLICATE_KEYS);
    FilledSize(failures, DUPLICATE_CALLS, repeated, maxBytes);
    EmptyListSize(FilledWith(failures, DUPLICATE_CALLS, repeated, maxBytes), CALLS);
    FilledSize(duplicates, CALLS, CompactCalls(DictItems(Get(value, CALLS)), maxBytes), maxBytes);
  }

  /** Calls, failures and duplicates are each kept from the front, as far as they fit; the counters stay. */
  lemma CompactedKeepsTheFirst(value: Fields, maxBytes: int)
    requires Size(Obj(value)) > maxBytes
    ensures var r, base := Compacted(value, maxBytes), CompactBase(value);
            && ListKept(r, FAILED_CALLS, base,
                        Wholes(Selections(DictItems(Get(value, FAILED_CALLS)), FAILURE_KEYS)), maxBytes)
            && ListKept(r, DUPLICATE_CALLS, AfterFailures(value, maxBytes),
                        Wholes(Selections(DictItems(Get(value, DUPLICATE_CALLS)), DUPLICATE_KEYS)), maxBytes)
            && ListKept(r, CALLS, AfterDuplicates(value, maxBytes),
                        Wholes(CompactCalls(DictItems(Get(value, CALLS)), maxBytes)), maxBytes)
            && (forall k :: k in base && k != FAILED_CALLS ==> k in r && r[k] == base[k])
  {
    hide CompactBase, Selections, CompactCalls, Greedy, KeepsFirst, Size, DictItems, Wholes;
    KeysArePlain();
    ListKeysAreNew(value, maxBytes);
    GreedyKeepsFirst(CompactBase(value), FAILED_CALLS, [],
                     Wholes(Selections(DictItems(Get(value, FAILED_CALLS)), FAILURE_KEYS)), maxBytes);
    GreedyKeepsFirst(AfterFailures(value, maxBytes), DUPLICATE_CALLS, [],
                     Wholes(Selections(DictItems(Get(value, DUPLICATE_CALLS)), DUPLICATE_KEYS)), maxBytes);
    GreedyKeepsFirst(AfterDuplicates(value, maxBytes), CALLS, [],
                     Wholes(CompactCalls(DictItems(Get(value, CALLS)), maxBytes)), maxBytes);
  }

  /** The text of a call's result is cut to its share; a text within it stays whole. */
  lemma CallIsBounded(call: Json, perCallBytes: nat)
    ensures var text := Get(CompactCall(call, perCallBytes).fields, "payload_json");
            && text.Str? && Utf8.Size(text.s) <= perCallBytes
            && (Utf8.Size(PayloadText(FieldsOf(call))) <= perCallBytes ==> text.s == PayloadText(FieldsOf(call)))
  {
    hide PayloadText, Selections, DictItems;
    Utf8.TruncateTextBytesIsExact(PayloadText(FieldsOf(call)), perCallBytes);
  }

  lemma SingleField(key: string, v: Json)
    requires Plain(key)
    ensures Size(Obj(map[key := v])) == |key| + 5 + Size(v)
  {
    assert map[key := v] == map[][key := v];
    NewFieldSize(Obj(map[]), key, v);
    PlainSize(key);
  }

  lemma AddedField(fields: Fields, key: string, v: Json)
    requires key !in fields && fields != map[] && Plain(key)
    ensures Size(Obj(fields[key := v])) == Size(Obj(fields)) + |key| + 4 + Size(v)
  {
    NewFieldSize(Obj(fields), key, v);
    PlainSize(key);
  }

  /** What the mark and the list of failures add to the counters. */
  lemma MarkedSize(counters: Fields)
    requires counters != map[] && TRUNCATED !in counters && FAILED_CALLS !in counters
    ensures Size(Obj(counters[TRUNCATED := Bool(true)][FAILED_CALLS := Arr([])])) == Size(Obj(counters)) + 40
  {
    KeysArePlain();
    AddedField(counters, TRUNCATED, Bool(true));
    AddedField(counters[TRUNCATED := Bool(true)], FAILED_CALLS, Arr([]));
  }
}
