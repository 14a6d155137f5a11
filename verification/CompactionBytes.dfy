/** How large a compacted observation is, computed from the sizes of its entries alone. */
module CompactionBytes {
  import opened Json
  import opened PromptProjection
  import opened PromptBudget

  function Sizes(items: seq<Json>): (r: seq<nat>)
    ensures |r| == |items| && forall i :: 0 <= i < |items| ==> r[i] == Size(items[i])
  {
    seq(|items|, i requires 0 <= i < |items| => Size(items[i]))
  }

  /** What entries of these sizes add to an empty list: themselves, and a comma between any two. */
  function ListBytes(sizes: seq<nat>): nat {
    if sizes == [] then 0
    else ListBytes(sizes[..|sizes| - 1]) + sizes[|sizes| - 1] + if |sizes| == 1 then 0 else 1
  }

  /** How many entries are taken, one after the other, until one does not fit on top of `used` bytes. */
  function Taken(used: int, sizes: seq<nat>, k: nat, maxBytes: int): (n: nat)
    requires k <= |sizes|
    ensures k <= n <= |sizes|
    decreases |sizes| - k
  {
    if k < |sizes| && used + ListBytes(sizes[..k + 1]) <= maxBytes then Taken(used, sizes, k + 1, maxBytes) else k
  }

  function FillBytes(used: int, sizes: seq<nat>, maxBytes: int): int {
    used + ListBytes(sizes[..Taken(used, sizes, 0, maxBytes)])
  }

  lemma {:induction false} ListBytesGrow(sizes: seq<nat>, m: nat, n: nat)
    requires m <= n <= |sizes|
    ensures ListBytes(sizes[..m]) <= ListBytes(sizes[..n])
    decreases n
  {
    if m < n {
      ListBytesGrow(sizes, m, n - 1);
      assert sizes[..n][..n - 1] == sizes[..n - 1];
    }
  }

  /** As many leading entries are taken as fit together. */
  lemma {:induction false} TakenIsLargest(used: int, sizes: seq<nat>, k: nat, maxBytes: int, n: nat)
    requires k < n <= |sizes|
    ensures n <= Taken(used, sizes, k, maxBytes) <==> used + ListBytes(sizes[..n]) <= maxBytes
    decreases |sizes| - k
  {
    ListBytesGrow(sizes, k + 1, n);
    if used + ListBytes(sizes[..k + 1]) <= maxBytes && k + 1 < n {
      TakenIsLargest(used, sizes, k + 1, maxBytes, n);
    }
  }

  lemma {:induction false} ArrBytes(items: seq<Json>)
    ensures Size(Arr(items)) == 2 + ListBytes(Sizes(items))
    decreases |items|
  {
    if items != [] {
      var front, last := items[..|items| - 1], items[|items| - 1];
      ArrBytes(front);
      AppendedItemSize(front, last);
      assert front + [last] == items;
      assert Sizes(items)[..|items| - 1] == Sizes(front);
    }
  }

  /** The size of a payload whose empty list was filled with these entries. */
  lemma WithBytes(fields: Fields, key: string, items: seq<Json>)
    requires key in fields && fields[key] == Arr([])
    ensures Size(With(fields, key, items)) == Size(Obj(fields)) + ListBytes(Sizes(items))
  {
    ReplacedFieldSize(Obj(fields), key, Arr(items));
    ArrBytes(items);
    ArrBytes([]);
  }

  lemma {:induction false} GreedyTakes(fields: Fields, key: string, items: seq<Json>, k: nat, maxBytes: int)
    requires key in fields && fields[key] == Arr([]) && k <= |items|
    ensures Greedy(fields, key, items[..k], Wholes(items)[k..], maxBytes).kept
            == items[..Taken(Size(Obj(fields)), Sizes(items), k, maxBytes)]
    decreases |items| - k
  {
    hide Size, ListBytes;
    if k < |items| {
      var choices := Wholes(items)[k..];
      assert choices[0] == Whole(items[k]) && choices[1..] == Wholes(items)[k + 1..];
      assert items[..k] + [items[k]] == items[..k + 1];
      assert Sizes(items)[..k + 1] == Sizes(items[..k + 1]);
      WithBytes(fields, key, items[..k + 1]);
      GreedyTakes(fields, key, items, k + 1, maxBytes);
    }
  }

  /** A filled list takes the bytes that the sizes of its entries say. */
  lemma FilledBytes(fields: Fields, key: string, items: seq<Json>, maxBytes: int)
    requires key in fields && fields[key] == Arr([])
    ensures Size(Obj(FilledWith(fields, key, items, maxBytes))) == FillBytes(Size(Obj(fields)), Sizes(items), maxBytes)
  {
    hide Size, ListBytes, Greedy;
    GreedyTakes(fields, key, items, 0, maxBytes);
    var n := Taken(Size(Obj(fields)), Sizes(items), 0, maxBytes);
    assert items[..0] == [] && Wholes(items)[0..] == Wholes(items);
    assert Sizes(items)[..n] == Sizes(items[..n]);
    WithBytes(fields, key, items[..n]);
  }

  // ---- Compacted observations ----------------------------------------------------------

  function Failures(value: Fields): seq<Json> {
    Selections(DictItems(Get(value, FAILED_CALLS)), FAILURE_KEYS)
  }

  function Duplicates(value: Fields): seq<Json> {
    Selections(DictItems(Get(value, DUPLICATE_CALLS)), DUPLICATE_KEYS)
  }

  function Calls(value: Fields, maxBytes: int): seq<Json> {
    CompactCalls(DictItems(Get(value, CALLS)), maxBytes)
  }

  /** With the failures taken, the 26 bytes of the unchecked list of duplicates, and the duplicates taken. */
  function DuplicatesBytes(base: int, failures: seq<nat>, duplicates: seq<nat>, maxBytes: int): int {
    FillBytes(FillBytes(base, failures, maxBytes) + 26, duplicates, maxBytes)
  }

  /** And with the 16 bytes of the unchecked list of calls, and the calls taken. */
  function CompactedBytes(base: int, failures: seq<nat>, duplicates: seq<nat>, calls: seq<nat>, maxBytes: int): int {
    FillBytes(DuplicatesBytes(base, failures, duplicates, maxBytes) + 16, calls, maxBytes)
  }

  /** The size of a compacted observation follows from those of its counters and entries. */
  lemma CompactedSize(value: Fields, maxBytes: int)
    requires Size(Obj(value)) > maxBytes
    ensures var base := Size(Obj(CompactBase(value)));
            var failures, duplicates, calls := Sizes(Failures(value)), Sizes(Duplicates(value)), Sizes(Calls(value, maxBytes));
            && Size(Obj(AfterDuplicates(value, maxBytes))) == DuplicatesBytes(base, failures, duplicates, maxBytes) + 16
            && Size(Obj(Compacted(value, maxBytes))) == CompactedBytes(base, failures, duplicates, calls, maxBytes)
  {
    KeysArePlain();
    ListKeysAreNew(value, maxBytes);
    hide Size, FillBytes, Greedy, Selections, DictItems, CompactCalls, Sizes, EscapedSize;
    var base, failures, duplicates := CompactBase(value), AfterFailures(value, maxBytes), AfterDuplicates(value, maxBytes);
    FilledBytes(base, FAILED_CALLS, Failures(value), maxBytes);
    assert FAILED_CALLS in base && FAILED_CALLS != DUPLICATE_CALLS;
    assert FAILED_CALLS in FilledWith(base, FAILED_CALLS, Failures(value), maxBytes);
    EmptyListSize(FilledWith(base, FAILED_CALLS, Failures(value), maxBytes), DUPLICATE_CALLS);
    assert DUPLICATE_CALLS in FilledWith(failures, DUPLICATE_CALLS, Duplicates(value), maxBytes);
    FilledBytes(failures, DUPLICATE_CALLS, Duplicates(value), maxBytes);
    EmptyListSize(FilledWith(failures, DUPLICATE_CALLS, Duplicates(value), maxBytes), CALLS);
    FilledBytes(duplicates, CALLS, Calls(value, maxBytes), maxBytes);
  }

  lemma FillStaysWithin(used: int, sizes: seq<nat>, maxBytes: int)
    ensures FillBytes(used, sizes, maxBytes) <= maxBytes <==> used <= maxBytes
    ensures FillBytes(used, sizes, maxBytes) >= used
  {
    var n := Taken(used, sizes, 0, maxBytes);
    if n > 0 {
      TakenIsLargest(used, sizes, 0, maxBytes, n);
    }
    assert sizes[..0] == [];
  }

  /**
   * A compacted observation is within the limit exactly if the observation was, or if the counters, the
   * failures and duplicates taken and the two unchecked lists are. Without failures and duplicates
   * that means that the counters leave 42 bytes.
   */
  lemma CompactedFitsExactly(value: Fields, maxBytes: int)
    ensures var base, failures, duplicates := Size(Obj(CompactBase(value))), Sizes(Failures(value)), Sizes(Duplicates(value));
            && (Size(Obj(Compacted(value, maxBytes))) <= maxBytes <==>
                  Size(Obj(value)) <= maxBytes || DuplicatesBytes(base, failures, duplicates, maxBytes) + 16 <= maxBytes)
            && (failures == [] && duplicates == [] ==>
                  DuplicatesBytes(base, failures, duplicates, maxBytes) + 16 == base + 42)
  {
    hide Size, Sizes, CompactBase, Failures, Duplicates, Calls, Compacted, AfterDuplicates;
    if Size(Obj(value)) > maxBytes {
      CompactedSize(value, maxBytes);
      var base, failures, duplicates := Size(Obj(CompactBase(value))), Sizes(Failures(value)), Sizes(Duplicates(value));
      FillStaysWithin(DuplicatesBytes(base, failures, duplicates, maxBytes) + 16, Sizes(Calls(value, maxBytes)), maxBytes);
    } else {
      CompactedIsTheSame(value, maxBytes);
    }
  }

  lemma CompactedIsTheSame(value: Fields, maxBytes: int)
    requires Size(Obj(value)) <= maxBytes
    ensures Compacted(value, maxBytes) == value
  {
  }
}
