/**
 * Calls alone and calls that race. A call that nothing interleaves with is one step of the trace store.
 * A silent mark that another change overtakes becomes the last event about its row, and an activity that
 * a finish overtakes changes the finished step.
 */
module CallRaces {
  import opened Domain
  import opened EventReads
  import opened TraceStore
  import opened TraceRows
  import opened TraceWrites
  import opened RowsAndEvents
  import EventLog

  // ---- One call at a time ------------------------------------------------------------------

  function Whole(tx: TxId, op: Op): seq<Step> {
    [Read(tx, op), Write(tx), ReadBack(tx), Record(tx), Commit(tx)]
  }

  lemma {:induction false} InterleaveSplit(s: State, first: seq<Step>, second: seq<Step>)
    ensures Interleave(s, first + second) == Interleave(Interleave(s, first), second)
    decreases |first|
  {
    hide Apply;
    if first == [] {
      assert first + second == second;
    } else {
      assert (first + second)[1..] == first[1..] + second;
      InterleaveSplit(Apply(s, first[0]), first[1..], second);
    }
  }

  lemma OneStep(s: State, a: Step)
    ensures Interleave(s, [a]) == Apply(s, a)
  {
    assert Interleave(Apply(s, a), []) == Apply(s, a);
  }

  lemma TwoSteps(s: State, a: Step, b: Step)
    ensures Interleave(s, [a, b]) == Apply(Apply(s, a), b)
  {
    assert [a, b] == [a] + [b];
    InterleaveSplit(s, [a], [b]);
    OneStep(s, a);
    OneStep(Apply(s, a), b);
  }

  /** The transaction is new, and nobody holds the lock of the row or of the cursor. */
  predicate Free(s: State, tx: TxId, key: Key) {
    && tx !in s.log.open && tx !in s.calls && s.log.lock.None?
    && key !in s.locks && forall other :: other in s.locks ==> s.locks[other] != tx
  }

  /** No insertion under way stands against the call. */
  predicate Unhindered(s: State, tx: TxId, op: Op)
    requires Accepts(View(s), op)
  {
    && Free(s, tx, KeyOfCall(op))
    && (IsMark(op) || forall other :: other in s.calls && Inserting(s, other) ==>
                                        !Clash(s.calls[other].wanted.payload, Wanted(View(s), op).payload))
  }

  /** The state in which an unhindered call has read its row back. */
  function Opened(s: State, tx: TxId, op: Op): State
    requires Accepts(View(s), op)
  {
    var key, wanted := KeyOfCall(op), Wanted(View(s), op);
    s.(log := s.log.(open := s.log.open[tx := EventLog.Tx(None, [])]),
       calls := s.calls[tx := Call(key, RowAt(View(s), key), wanted, HasReadBack, wanted.payload)],
       locks := if Silent(View(s), op) then s.locks else s.locks[key := tx])
  }

  /** The call's own step of the trace store, and the other transactions as they were. */
  function Done(s: State, op: Op): State {
    var next := Next(View(s), op);
    s.(runs := next.runs, steps := next.steps, artifacts := next.artifacts,
       log := EventLog.State(next.log, |next.log|, None, s.log.open))
  }

  /** A call that has read its row, whose lock is free, writes and reads back. */
  lemma WritePart(s: State, tx: TxId)
    requires CanWrite(s, tx)
    ensures var c := s.calls[tx];
            Interleave(s, [Write(tx), ReadBack(tx)]) ==
            s.(calls := s.calls[tx := c.(phase := HasReadBack, readBack := Seen(View(s), c))],
               locks := if Writes(c) then s.locks[c.key := tx] else s.locks)
  {
    TwoSteps(s, Write(tx), ReadBack(tx));
    var c, a := s.calls[tx], AfterWrite(s, tx);
    hide Interleave, Writes;
    SeenIsAboutRows(View(s), c, HasWritten);
    assert View(a) == View(s);
    hide Seen;
    assert AfterReadBack(a, tx).calls == s.calls[tx := c.(phase := HasReadBack, readBack := Seen(View(s), c))];
  }

  lemma SeenIsAboutRows(db: Db, c: Call, phase: Phase)
    ensures Seen(db, c.(phase := phase)) == Seen(db, c)
  {
  }

  /** A call that has read its row back appends and commits while the cursor is free. */
  lemma EndPart(s: State, tx: TxId)
    requires tx in s.calls && s.calls[tx].phase == HasReadBack && Scoped(EventOf(s.calls[tx]))
    requires tx in s.log.open && s.log.lock.None? && s.log.open[tx] == EventLog.Tx(None, [])
    ensures var c := s.calls[tx];
            var put := Put(View(s), Seen(View(s), c));
            Interleave(s, [Record(tx), Commit(tx)]) ==
            s.(runs := put.runs, steps := put.steps, artifacts := put.artifacts,
               locks := Released(s.locks, tx), calls := s.calls - {tx},
               log := EventLog.State(s.log.committed + [Stamp(EventOf(c), s.log.lastEventId + 1)],
                                     s.log.lastEventId + 1, None, s.log.open - {tx}))
  {
    TwoSteps(s, Record(tx), Commit(tx));
    var c, a := s.calls[tx], AfterRecord(s, tx);
    assert a.log.open[tx] == EventLog.Tx(Some(s.log.lastEventId + 1), [Stamp(EventOf(c), s.log.lastEventId + 1)]);
    hide Interleave, Put, Released;
    SeenIsAboutRows(View(s), c, HasRecorded);
    assert View(a) == View(s);
    hide Seen;
    assert a.log.open - {tx} == s.log.open - {tx};
    assert a.calls - {tx} == s.calls - {tx};
  }

  lemma ThreeParts(s: State, tx: TxId, op: Op)
    ensures Interleave(s, Whole(tx, op)) ==
            Interleave(Interleave(Apply(s, Read(tx, op)), [Write(tx), ReadBack(tx)]), [Record(tx), Commit(tx)])
  {
    var write, end := [Write(tx), ReadBack(tx)], [Record(tx), Commit(tx)];
    assert Whole(tx, op) == [Read(tx, op)] + (write + end);
    InterleaveSplit(s, [Read(tx, op)], write + end);
    OneStep(s, Read(tx, op));
    InterleaveSplit(Apply(s, Read(tx, op)), write, end);
  }

  /** What a call wants, as its transaction sees it if its row is as it was read. */
  lemma WantedIsSeen(db: Db, op: Op, c: Call)
    requires Keyed(db) && Accepts(db, op) && c.key == KeyOfCall(op)
    requires c.read == RowAt(db, c.key) && c.wanted == Wanted(db, op)
    ensures Seen(db, c) == c.wanted.payload && Scoped(c.wanted)
    ensures Writes(c) <==> !Silent(db, op)
  {
    CallFacts(db, op);
    if c.read.Some? { SameRowIsEquivalence(c.read.value, c.wanted.payload, c.read.value); }
    hide Wanted, Accepts;
  }

  /** A call that has just read. */
  function Reader(s: State, op: Op): Call
    requires Accepts(View(s), op)
  {
    Call(KeyOfCall(op), RowAt(View(s), KeyOfCall(op)), Wanted(View(s), op), HasRead, Wanted(View(s), op).payload)
  }

  lemma ReadOpens(s: State, tx: TxId, op: Op)
    requires Consistent(s) && Accepts(View(s), op) && tx !in s.log.open && tx !in s.calls
    ensures var a, c := Apply(s, Read(tx, op)), Reader(s, op);
            && a == s.(log := s.log.(open := s.log.open[tx := EventLog.Tx(None, [])]), calls := s.calls[tx := c])
            && Seen(View(s), c) == c.wanted.payload && Scoped(c.wanted)
            && (Writes(c) <==> !Silent(View(s), op))
            && (if IsMark(op) then c.read.Some? else c.read.None? && Insertable(View(s), c.wanted.payload))
  {
    KeyedView(s);
    WantedIsSeen(View(s), op, Reader(s, op));
    CallFacts(View(s), op);
    hide Wanted, Consistent, Seen, Placed, ScopeOf, SameRow, Insertable, Silent, Writes;
  }

  lemma ReaderCanWrite(s: State, tx: TxId, op: Op)
    requires Consistent(s) && Accepts(View(s), op) && Unhindered(s, tx, op)
    ensures CanWrite(Apply(s, Read(tx, op)), tx)
  {
    ReadOpens(s, tx, op);
    hide Apply, Wanted, Consistent, Seen, Insertable, Silent, Clash, Accepts, Writes;
    assert View(Apply(s, Read(tx, op))) == View(s);
  }

  lemma OpenPart(s: State, tx: TxId, op: Op)
    requires Consistent(s) && Accepts(View(s), op) && Unhindered(s, tx, op)
    ensures Interleave(Apply(s, Read(tx, op)), [Write(tx), ReadBack(tx)]) == Opened(s, tx, op)
  {
    var a, c := Apply(s, Read(tx, op)), Reader(s, op);
    ReadOpens(s, tx, op);
    ReaderCanWrite(s, tx, op);
    assert View(a) == View(s) && a.calls[tx] == c;
    hide Interleave, Apply, Accepts, Wanted, Consistent, Seen, Silent, CanWrite, Writes, Unhindered;
    WritePart(a, tx);
    OpenedCalls(s, tx, op);
  }

  lemma OpenedCalls(s: State, tx: TxId, op: Op)
    requires Accepts(View(s), op)
    ensures var c := Reader(s, op);
            Opened(s, tx, op).calls == s.calls[tx := c][tx := c.(phase := HasReadBack, readBack := c.wanted.payload)]
  {
    hide Wanted, Accepts;
  }

  /** An unhindered call changes the row and appends the event, and leaves the other calls where they are. */
  lemma WholeCall(s: State, tx: TxId, op: Op)
    requires Consistent(s) && Accepts(View(s), op) && Unhindered(s, tx, op)
    ensures Interleave(s, Whole(tx, op)) == Done(s, op)
  {
    ThreeParts(s, tx, op);
    OpenPart(s, tx, op);
    OpenedEnds(s, tx, op);
  }

  lemma OpenedEnds(s: State, tx: TxId, op: Op)
    requires Consistent(s) && Accepts(View(s), op) && Free(s, tx, KeyOfCall(op))
    ensures Interleave(Opened(s, tx, op), [Record(tx), Commit(tx)]) == Done(s, op)
  {
    var b, w := Opened(s, tx, op), Wanted(View(s), op);
    ReadOpens(s, tx, op);
    SeenIsAboutRows(View(s), Reader(s, op), HasReadBack);
    assert b.calls[tx] == Reader(s, op).(phase := HasReadBack);
    assert EventOf(b.calls[tx]) == w;
    ClosedAgain(s, tx, op);
    DoneIsPut(s, op);
    hide Interleave, Apply, Wanted, Accepts, Consistent, Seen, Silent, Released, Put, Next, Opened, Done;
    EndPart(b, tx);
  }

  lemma DoneIsPut(s: State, op: Op)
    requires Consistent(s) && Accepts(View(s), op)
    ensures var w := Wanted(View(s), op);
            var put := Put(View(s), w.payload);
            Done(s, op) == s.(runs := put.runs, steps := put.steps, artifacts := put.artifacts,
                              log := EventLog.State(s.log.committed + [Stamp(w, s.log.lastEventId + 1)], s.log.lastEventId + 1,
                                                    None, s.log.open))
  {
    KeyedView(s);
    CallFacts(View(s), op);
    PutOnlyRows(View(s), Wanted(View(s), op).payload);
    hide Wanted, Next, Put, TxFits, Keyed;
  }

  lemma PutOnlyRows(db: Db, row: Payload)
    ensures Put(db, row).log == db.log && Put(db, row).packs == db.packs
  {
  }

  lemma ClosedAgain(s: State, tx: TxId, op: Op)
    requires Accepts(View(s), op) && Free(s, tx, KeyOfCall(op))
    ensures var b := Opened(s, tx, op);
            && View(b) == View(s) && b.log.committed == s.log.committed && b.log.lastEventId == s.log.lastEventId
            && b.runs == s.runs && b.steps == s.steps && b.artifacts == s.artifacts && b.packs == s.packs
            && tx in b.calls && tx in b.log.open && b.log.open[tx] == EventLog.Tx(None, []) && b.log.lock.None?
            && b.calls - {tx} == s.calls && b.log.open - {tx} == s.log.open && Released(b.locks, tx) == s.locks
  {
    hide Wanted, Silent, Accepts;
    assert (s.calls[tx := Opened(s, tx, op).calls[tx]]) - {tx} == s.calls;
    assert (s.log.open[tx := EventLog.Tx(None, [])]) - {tx} == s.log.open;
  }

  /** A call that nothing interleaves with, accepted or refused, is one step of the trace store. */
  lemma WholeCallIsOneStep(s: State, tx: TxId, op: Op)
    requires Consistent(s) && IsCall(op) && Free(s, tx, KeyOfCall(op))
    requires Accepts(View(s), op) ==> Unhindered(s, tx, op)
    ensures View(Interleave(s, Whole(tx, op))) == Next(View(s), op)
  {
    if Accepts(View(s), op) {
      WholeCall(s, tx, op);
      CallFacts(View(s), op);
      PutOnlyRows(View(s), Wanted(View(s), op).payload);
      hide Interleave, Wanted;
    } else {
      ThreeParts(s, tx, op);
      TwoSteps(s, Write(tx), ReadBack(tx));
      TwoSteps(s, Record(tx), Commit(tx));
    }
  }

  // ---- Silent marks ------------------------------------------------------------------------

  /**
   * A silent mark that another mark overtakes: the row is as the other mark left it, and the last event
   * about it, which every live page shows, carries what it was before.
   */
  lemma SilentMarkHidesTheOther(s: State, first: TxId, second: TxId, op: Op, other: Op)
    requires Consistent(s) && Silent(View(s), op) && Free(s, first, KeyOfCall(op)) && first != second
    requires Accepts(View(s), other) && IsMark(other) && KeyOfCall(other) == KeyOfCall(op) && !Silent(View(s), other)
    requires Free(s, second, KeyOfCall(op))
    ensures var r := Interleave(Apply(s, Read(first, op)), Overtaken(first, second, other));
            && RowAt(View(r), KeyOfCall(op)) == Some(Wanted(View(s), other).payload)
            && LastPayload(r.log.committed, KeyOfCall(op)) == RowAt(View(s), KeyOfCall(op))
            && !RowsAreLastEvents(r)
  {
    var a, start, end := Apply(s, Read(first, op)), [Write(first), ReadBack(first)], [Record(first), Commit(first)];
    InterleaveSplit(a, start, Whole(second, other));
    InterleaveSplit(a, start + Whole(second, other), end);
    SilentIsUnhindered(s, first, op);
    OpenPart(s, first, op);
    ApplyKeepsConsistent(s, Read(first, op));
    InterleaveKeepsConsistent(a, start);
    hide Interleave, Apply, Consistent, Wanted, Accepts, Silent, Overtaken, Opened;
    OvertakenEnd(s, first, second, op, other);
  }

  lemma SilentIsUnhindered(s: State, tx: TxId, op: Op)
    requires Consistent(s) && Silent(View(s), op) && Free(s, tx, KeyOfCall(op))
    ensures IsMark(op) && Unhindered(s, tx, op)
  {
    KeyedView(s);
    CallFacts(View(s), op);
    hide Wanted;
  }

  /** The silent mark holds no lock, so the other mark goes through. */
  lemma OvertakenEnd(s: State, first: TxId, second: TxId, op: Op, other: Op)
    requires Consistent(s) && Silent(View(s), op) && Consistent(Opened(s, first, op)) && Free(s, first, KeyOfCall(op)) && first != second
    requires Accepts(View(s), other) && IsMark(other) && KeyOfCall(other) == KeyOfCall(op) && !Silent(View(s), other)
    requires Free(s, second, KeyOfCall(op))
    ensures var r := Interleave(Interleave(Opened(s, first, op), Whole(second, other)), [Record(first), Commit(first)]);
            && RowAt(View(r), KeyOfCall(op)) == Some(Wanted(View(s), other).payload)
            && LastPayload(r.log.committed, KeyOfCall(op)) == RowAt(View(s), KeyOfCall(op)) != RowAt(View(r), KeyOfCall(op))
  {
    var a := Opened(s, first, op);
    SilentReader(s, first, op);
    assert Unhindered(a, second, other);
    KeyedView(s);
    hide Interleave, Apply, Consistent, Wanted, Accepts, Seen, Opened, Unhindered, EventOf, Scoped, Writes, Silent, Free;
    WholeCall(a, second, other);
    DoneRows(a, other);
    DoneStaysKeyed(a, other);
    OtherDiffers(s, op, other);
    hide Done, Put, Next, KeyOfCall, RowsAreLastEvents;
    SilentEnd(Done(a, other), first);
  }

  lemma SilentReader(s: State, tx: TxId, op: Op)
    requires Consistent(s) && Silent(View(s), op) && Free(s, tx, KeyOfCall(op))
    ensures var a, key := Opened(s, tx, op), KeyOfCall(op);
            && View(a) == View(s) && a.log.lock.None?
            && tx in a.log.open && a.log.open[tx] == EventLog.Tx(None, [])
            && tx in a.calls && a.calls[tx].key == key && a.calls[tx].phase == HasReadBack && !Writes(a.calls[tx])
            && Scoped(EventOf(a.calls[tx])) && KeyOf(a.calls[tx].readBack) == Some(key)
            && RowAt(View(s), key) == Some(a.calls[tx].readBack)
  {
    KeyedView(s);
    CallFacts(View(s), op);
    hide Wanted, Consistent, Accepts, SameRow, Insertable, Placed;
  }

  lemma OtherDiffers(s: State, op: Op, other: Op)
    requires Silent(View(s), op) && Accepts(View(s), other) && KeyOfCall(other) == KeyOfCall(op) && !Silent(View(s), other)
    ensures RowAt(View(s), KeyOfCall(op)) != Some(Wanted(View(s), other).payload)
  {
  }

  lemma DoneStaysKeyed(s: State, op: Op)
    requires Consistent(s) && Accepts(View(s), op)
    ensures Keyed(View(Done(s, op)))
    ensures Done(s, op).calls == s.calls && Done(s, op).log.lock.None? && Done(s, op).log.open == s.log.open
  {
    KeyedView(s);
    CallFacts(View(s), op);
    DoneRows(s, op);
    PutGrows(View(s), Wanted(View(s), op).payload, Wanted(View(s), op));
    hide Wanted, Keyed;
  }

  function Overtaken(first: TxId, second: TxId, other: Op): seq<Step> {
    [Write(first), ReadBack(first)] + Whole(second, other) + [Record(first), Commit(first)]
  }

  lemma DoneRows(s: State, op: Op)
    requires Keyed(View(s)) && Accepts(View(s), op)
    ensures View(Done(s, op)) == Next(View(s), op)
    ensures RowAt(View(Done(s, op)), KeyOfCall(op)) == Some(Wanted(View(s), op).payload)
  {
    CallFacts(View(s), op);
    PutOnlyRows(View(s), Wanted(View(s), op).payload);
    hide Wanted, Accepts, Updated;
  }

  /** A silent call commits the row it read back as the last event, and leaves the row. */
  lemma SilentEnd(s: State, tx: TxId)
    requires tx in s.calls && s.calls[tx].phase == HasReadBack && Scoped(EventOf(s.calls[tx])) && !Writes(s.calls[tx])
    requires tx in s.log.open && s.log.lock.None? && s.log.open[tx] == EventLog.Tx(None, [])
    requires Keyed(View(s)) && RowAt(View(s), s.calls[tx].key).Some? && KeyOf(s.calls[tx].readBack) == Some(s.calls[tx].key)
    ensures var c, r := s.calls[tx], Interleave(s, [Record(tx), Commit(tx)]);
            && RowAt(View(r), c.key) == RowAt(View(s), c.key)
            && LastPayload(r.log.committed, c.key) == Some(c.readBack)
  {
    var c := s.calls[tx];
    var now := RowAt(View(s), c.key).value;
    UpdatedIsSameRow(now, c.read.value, c.wanted.payload);
    EndPart(s, tx);
    hide Interleave, Updated, Released;
    SnocLast(s.log.committed, Stamp(EventOf(c), s.log.lastEventId + 1), c.key);
    IsSameRow(now);
    RowsAfterPut(View(s), now, c.key);
  }

  /** From here on, no schedule without a further silent mark parts rows and last events. */
  ghost predicate StayTogether(s: State) {
    forall rest :: NoneSilent(s, rest) ==> RowsAreLastEvents(Interleave(s, rest))
  }

  /** A finish that changes the row. */
  function OtherFinish(db: Db, key: Key): Op {
    match key
    case RunKey(id) =>
      MarkRunFinished(id, Failed, if id in db.runs && db.runs[id].finishedAt.Some? then db.runs[id].finishedAt.value + 1 else 0)
    case StepKey(id) =>
      MarkStepFinished(id, Failed, None, None,
                       if id in db.steps && db.steps[id].finishedAt.Some? then db.steps[id].finishedAt.value + 1 else 0)
    case ArtifactKey(_, id) => MarkRunFinished(id, Failed, 0)
  }

  lemma OtherFinishChanges(db: Db, key: Key)
    requires Keyed(db) && RowAt(db, key).Some? && !key.ArtifactKey?
    ensures var other := OtherFinish(db, key);
            Accepts(db, other) && IsMark(other) && KeyOfCall(other) == key && !Silent(db, other)
  {
    SilentExactly(db, OtherFinish(db, key));
  }

  lemma {:induction false} NoReadsNoneSilent(s: State, steps: seq<Step>)
    requires forall i :: 0 <= i < |steps| ==> !steps[i].Read?
    ensures NoneSilent(s, steps)
    decreases |steps|
  {
    if steps != [] {
      NoReadsNoneSilent(Apply(s, steps[0]), steps[1..]);
    }
  }

  lemma OvertakenIsNotSilent(a: State, first: TxId, second: TxId, other: Op)
    requires !Silent(View(Interleave(a, [Write(first), ReadBack(first)])), other)
    ensures NoneSilent(a, Overtaken(first, second, other))
  {
    var start, end := [Write(first), ReadBack(first)], [Record(first), Commit(first)];
    var whole := Whole(second, other);
    NoReadsNoneSilent(a, start);
    var b := Interleave(a, start);
    assert whole[0] == Read(second, other);
    NoReadsNoneSilent(Apply(b, whole[0]), whole[1..]);
    NoReadsNoneSilent(Interleave(b, whole), end);
    NoneSilentSplit(a, start, whole);
    InterleaveSplit(a, start, whole);
    NoneSilentSplit(a, start + whole, end);
  }

  /**
   * When a call has read its row, rows and last events stay together on every schedule without a further
   * silent mark exactly if the call is not silent itself.
   */
  lemma TogetherExactly(s: State, first: TxId, second: TxId, op: Op)
    requires Consistent(s) && Valid(View(s)) && AllWrite(s) && Accepts(View(s), op)
    requires Free(s, first, KeyOfCall(op)) && Free(s, second, KeyOfCall(op)) && first != second
    ensures StayTogether(Apply(s, Read(first, op))) <==> !Silent(View(s), op)
  {
    var a := Apply(s, Read(first, op));
    ApplyKeepsConsistent(s, Read(first, op));
    if Silent(View(s), op) {
      SilentMarkParts(s, first, second, op);
    } else {
      hide Consistent, Valid, Apply, AllWrite, Silent;
      assert NoneSilent(s, [Read(first, op)]) by { NotSilentRead(s, first, op); }
      ApplyKeepsValid(s, Read(first, op));
      WritersStay(s, Read(first, op));
      forall rest | NoneSilent(a, rest) ensures RowsAreLastEvents(Interleave(a, rest)) {
        ScheduleKeepsValid(a, rest);
        ValidIsTogether(Interleave(a, rest));
      }
    }
  }

  lemma NotSilentRead(s: State, tx: TxId, op: Op)
    requires !Silent(View(s), op)
    ensures NoneSilent(s, [Read(tx, op)])
  {
    assert NoneSilent(Apply(s, Read(tx, op)), []);
  }

  lemma ValidIsTogether(s: State)
    requires Valid(View(s))
    ensures RowsAreLastEvents(s)
  {
  }

  lemma SilentMarkParts(s: State, first: TxId, second: TxId, op: Op)
    requires Consistent(s) && Silent(View(s), op)
    requires Free(s, first, KeyOfCall(op)) && Free(s, second, KeyOfCall(op)) && first != second
    ensures !StayTogether(Apply(s, Read(first, op)))
  {
    var a, key := Apply(s, Read(first, op)), KeyOfCall(op);
    KeyedView(s);
    CallFacts(View(s), op);
    assert IsMark(op);
    OtherFinishChanges(View(s), key);
    var other := OtherFinish(View(s), key);
    SilentMarkHidesTheOther(s, first, second, op, other);
    OpenPart(s, first, op);
    assert View(Opened(s, first, op)) == View(s);
    OvertakenIsNotSilent(a, first, second, other);
  }
}
