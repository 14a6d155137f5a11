/**
 * The check of `mark_step_activity` for finished steps. It is made when the row is read, and the row is
 * locked only when it is written: finished steps are safe exactly as far as the check would pass again at
 * the write, or the row already has what the activity writes.
 */
module FinishedSteps {
  import opened Domain
  import opened EventReads
  import opened TraceStore
  import opened TraceRows
  import opened TraceWrites
  import opened RowsAndEvents
  import opened CallRaces
  import EventLog

  /** The committed row under the key is a step that has finished. */
  predicate Finished(db: Db, key: Key) {
    var row := RowAt(db, key);
    row.Some? && row.value.StepPayload? && row.value.step.finishedAt.Some?
  }

  predicate IsActivity(c: Call) {
    c.wanted.kind == StepActivityChanged
  }

  /** The columns that an activity writes, because they differ from what it read, have their values already. */
  predicate AlreadyShows(db: Db, c: Call)
    requires Finished(db, c.key)
  {
    && c.read.Some? && c.read.value.StepPayload? && c.wanted.payload.StepPayload?
    && var row, was, wanted := RowAt(db, c.key).value.step, c.read.value.step, c.wanted.payload.step;
    && (was.status != Running ==> row.status == Running)
    && (was.activity != wanted.activity ==> row.activity == wanted.activity)
    && (was.startedAt.None? ==> row.startedAt == wanted.startedAt)
  }

  /** The check would fail now, and the activity would show. */
  predicate TooLate(db: Db, c: Call) {
    IsActivity(c) && Finished(db, c.key) && !AlreadyShows(db, c)
  }

  /** The step finished between the check of an activity and this write. */
  predicate WritesTooLate(s: State, step: Step) {
    step.Write? && Enabled(s, step) && Writes(s.calls[step.tx]) && TooLate(View(s), s.calls[step.tx])
  }

  predicate NoneTooLate(s: State, steps: seq<Step>)
    decreases |steps|
  {
    steps != [] ==> !WritesTooLate(s, steps[0]) && NoneTooLate(Apply(s, steps[0]), steps[1..])
  }

  /** The step is the commit of an activity, and changes a finished row. */
  ghost predicate ChangesFinished(s: State, step: Step) {
    step.Commit? && Enabled(s, step) && IsActivity(s.calls[step.tx]) &&
    exists key :: Finished(View(s), key) && RowAt(View(Apply(s, step)), key) != RowAt(View(s), key)
  }

  ghost predicate NeverChangesFinished(s: State, steps: seq<Step>)
    decreases |steps|
  {
    steps != [] ==> !ChangesFinished(s, steps[0]) && NeverChangesFinished(Apply(s, steps[0]), steps[1..])
  }

  // ---- What the check gives ----------------------------------------------------------------

  /** An activity read an unfinished step, and wants it started and showing the activity. */
  ghost predicate ActivityFits(c: Call) {
    IsActivity(c) ==>
      && c.read.Some? && c.read.value.StepPayload? && c.wanted.payload.StepPayload?
      && var was, wanted := c.read.value.step, c.wanted.payload.step;
      && was.finishedAt.None? && wanted.activity.Some?
      && wanted.startedAt.Some? && wanted == StartedStep(was, wanted.activity, wanted.startedAt.value)
  }

  /** A written activity has the lock of its row, and was not too late. */
  ghost predicate OnTime(s: State, tx: TxId)
    requires tx in s.calls
  {
    var c := s.calls[tx];
    Writes(c) && c.phase != HasRead ==> !TooLate(View(s), c)
  }

  ghost predicate Guarded(s: State) {
    forall tx :: tx in s.calls ==> OnTime(s, tx)
  }

  ghost predicate AllFit(s: State) {
    forall tx :: tx in s.calls ==> ActivityFits(s.calls[tx])
  }

  lemma ReadFitsActivity(s: State, op: Op)
    requires Keyed(View(s)) && Accepts(View(s), op)
    ensures ActivityFits(Reader(s, op))
    ensures IsActivity(Reader(s, op)) <==> op.MarkStepActivity?
  {
    hide StepObstacle;
  }

  lemma ApplyKeepsFit(s: State, step: Step)
    requires Consistent(s) && AllFit(s)
    ensures AllFit(Apply(s, step))
  {
    KeyedView(s);
    hide Consistent, Keyed, Wanted, EventLog.Apply, Put, Seen, Accepts, ActivityFits, View, Writes;
    if Enabled(s, step) && step.Read? {
      ReadFitsActivity(s, step.op);
      assert AfterRead(s, step.tx, step.op).calls == s.calls[step.tx := Reader(s, step.op)];
    }
    forall tx | tx in Apply(s, step).calls ensures ActivityFits(Apply(s, step).calls[tx]) {
      if tx in s.calls { SameActivity(s.calls[tx], Apply(s, step).calls[tx]); }
    }
  }

  lemma SameActivity(a: Call, b: Call)
    ensures a.read == b.read && a.wanted == b.wanted && ActivityFits(a) ==> ActivityFits(b)
  {
  }

  /** Other transactions cannot finish a step whose row is locked. */
  lemma OthersStayOnTime(s: State, r: State, tx: TxId, other: TxId)
    requires Consistent(s) && OnlyTouches(s, r, tx) && Guarded(s)
    requires other != tx && other in r.calls
    ensures OnTime(r, other)
  {
    OthersAreSame(s.calls, r.calls, tx, other);
    assert OnTime(s, other) && TxFits(s, other);
    var c := s.calls[other];
    assert RowAt(View(r), c.key) != RowAt(View(s), c.key) ==> Holds(s, c.key, tx);
    hide Consistent, SameBut, Grown, KeepsRoom, Writes, RowFits, ReadBackFits, EventFits;
  }

  lemma ApplyKeepsGuarded(s: State, step: Step)
    requires Consistent(s) && Guarded(s) && !WritesTooLate(s, step)
    ensures Guarded(Apply(s, step))
  {
    var r, tx := Apply(s, step), TxOf(step);
    if Enabled(s, step) && !step.AddPack? {
      StepKeeps(s, step);
      assert tx in r.calls ==> OnTime(r, tx) by { OwnStaysOnTime(s, step); }
      hide Consistent, OnlyTouches, TxFits, Apply, Enabled, OnTime, WritesTooLate, Keyed;
      forall other | other in r.calls ensures OnTime(r, other) {
        if other != tx { OthersStayOnTime(s, r, tx, other); }
      }
    } else if Enabled(s, step) {
      hide Consistent;
      forall other | other in r.calls ensures OnTime(r, other) {
        assert OnTime(s, other);
        assert r.calls[other] == s.calls[other];
        assert RowAt(View(r), r.calls[other].key) == RowAt(View(s), r.calls[other].key);
      }
    }
  }

  lemma OwnStaysOnTime(s: State, step: Step)
    requires Consistent(s) && Guarded(s) && Enabled(s, step) && !step.AddPack? && !WritesTooLate(s, step)
    ensures TxOf(step) in Apply(s, step).calls ==> OnTime(Apply(s, step), TxOf(step))
  {
    var tx := TxOf(step);
    assert tx in s.calls ==> OnTime(s, tx);
    hide Consistent, Wanted, Seen, Put, EventLog.Apply, EventLog.CanAppend, Accepts;
  }

  /**
   * On every schedule from a state of the trace store on which no activity is written too late, no activity ever
   * changes a step that has finished. In particular so if the check would pass again at each write.
   */
  lemma {:induction false} FinishedStepsStay(db: Db, steps: seq<Step>)
    requires Valid(db) && NoneTooLate(Quiet(db), steps)
    ensures NeverChangesFinished(Quiet(db), steps)
  {
    StoreIsAStart(db);
    hide Valid, NoneTooLate;
    StayFromHere(Quiet(db), steps);
  }

  lemma {:induction false} StayFromHere(s: State, steps: seq<Step>)
    requires Consistent(s) && AllFit(s) && Guarded(s) && NoneTooLate(s, steps)
    ensures NeverChangesFinished(s, steps)
    decreases |steps|
  {
    hide Consistent, AllFit, Guarded, Apply, WritesTooLate, ChangesFinished;
    if steps != [] {
      ApplyKeepsFit(s, steps[0]);
      OnTimeCommit(s, steps[0]);
      ApplyKeepsGuarded(s, steps[0]);
      ApplyKeepsConsistent(s, steps[0]);
      StayFromHere(Apply(s, steps[0]), steps[1..]);
    }
  }

  /** A written activity changes its finished row exactly if it is too late. */
  lemma LateRowChanges(db: Db, c: Call)
    requires ActivityFits(c) && IsActivity(c) && Finished(db, c.key)
    ensures Some(Seen(db, c)) == RowAt(db, c.key) <==> AlreadyShows(db, c)
  {
  }

  /** The commit of an activity changes a finished row exactly if it is too late. */
  lemma LateCommitExactly(s: State, tx: TxId)
    requires Consistent(s) && AllFit(s) && Enabled(s, Commit(tx))
    ensures ChangesFinished(s, Commit(tx)) <==> TooLate(View(s), s.calls[tx])
  {
    var c, r := s.calls[tx], View(Apply(s, Commit(tx)));
    assert ActivityFits(c);
    forall key ensures RowAt(r, key) == if key == c.key then Some(Seen(View(s), c)) else RowAt(View(s), key) {
      CommitRecords(s, tx, key);
    }
    hide Consistent, Apply, Seen, ActivityFits, AlreadyShows, AllFit;
    if IsActivity(c) && Finished(View(s), c.key) {
      LateRowChanges(View(s), c);
    }
  }

  lemma OnTimeCommit(s: State, step: Step)
    requires Consistent(s) && AllFit(s) && Guarded(s)
    ensures !ChangesFinished(s, step)
  {
    if step.Commit? && Enabled(s, step) {
      assert OnTime(s, step.tx) && ActivityFits(s.calls[step.tx]);
      LateCommitExactly(s, step.tx);
      hide Apply, Consistent, AllFit;
    }
  }

  // ---- Exactly then ------------------------------------------------------------------------

  /** The activity is written now, and nothing that follows is written too late. */
  ghost predicate StayAlone(s: State, tx: TxId) {
    forall rest :: NoneTooLate(Apply(s, Write(tx)), rest) ==> NeverChangesFinished(s, [Write(tx)] + rest)
  }

  /**
   * Where an activity is about to be written, this and whatever follows without a late write leave every
   * finished step alone exactly if the activity is not too late itself.
   */
  lemma GuardExactly(s: State, tx: TxId)
    requires Consistent(s) && AllFit(s) && Guarded(s) && CanWrite(s, tx) && Writes(s.calls[tx]) && s.log.lock.None?
    ensures StayAlone(s, tx) <==> !TooLate(View(s), s.calls[tx])
  {
    if TooLate(View(s), s.calls[tx]) {
      LateWriteChanges(s, tx);
      NoWritesNoneTooLate(Apply(s, Write(tx)), tx);
    } else {
      hide Consistent, AllFit, Guarded, Apply, ChangesFinished, CanWrite, TooLate, Writes;
      forall rest | NoneTooLate(Apply(s, Write(tx)), rest) ensures NeverChangesFinished(s, [Write(tx)] + rest) {
        assert ([Write(tx)] + rest)[1..] == rest;
        StayFromHere(s, [Write(tx)] + rest);
      }
    }
  }

  lemma NoWritesNoneTooLate(s: State, tx: TxId)
    ensures NoneTooLate(s, [ReadBack(tx), Record(tx), Commit(tx)])
  {
    var a := Apply(s, ReadBack(tx));
    var b := Apply(a, Record(tx));
    assert NoneTooLate(Apply(b, Commit(tx)), []);
    assert [Commit(tx)][1..] == [] && [Record(tx), Commit(tx)][1..] == [Commit(tx)];
    assert NoneTooLate(b, [Commit(tx)]);
    assert NoneTooLate(a, [Record(tx), Commit(tx)]);
    assert [ReadBack(tx), Record(tx), Commit(tx)][1..] == [Record(tx), Commit(tx)];
  }

  lemma LateWriteChanges(s: State, tx: TxId)
    requires Consistent(s) && AllFit(s) && CanWrite(s, tx) && s.log.lock.None? && TooLate(View(s), s.calls[tx])
    ensures !NeverChangesFinished(s, [Write(tx)] + [ReadBack(tx), Record(tx), Commit(tx)])
  {
    var first := [Write(tx), ReadBack(tx)] + [Record(tx)];
    ReachesCommit(s, tx);
    CommitIsReady(s, tx);
    UpToRecord(s, tx);
    hide Consistent, Apply, AllFit, Enabled, ChangesFinished, CanWrite, TooLate, NeverChangesFinished, Interleave, View;
    LateCommitExactly(Interleave(s, first), tx);
    assert [Write(tx)] + [ReadBack(tx), Record(tx), Commit(tx)] == first + [Commit(tx)];
    LastStepChanges(s, first, Commit(tx));
  }

  lemma UpToRecord(s: State, tx: TxId)
    ensures Interleave(s, [Write(tx), ReadBack(tx)] + [Record(tx)]) ==
            Apply(Apply(Apply(s, Write(tx)), ReadBack(tx)), Record(tx))
  {
    hide Apply, Interleave;
    InterleaveSplit(s, [Write(tx), ReadBack(tx)], [Record(tx)]);
    TwoSteps(s, Write(tx), ReadBack(tx));
    OneStep(Apply(Apply(s, Write(tx)), ReadBack(tx)), Record(tx));
  }

  lemma {:induction false} LastStepChanges(s: State, first: seq<Step>, last: Step)
    requires ChangesFinished(Interleave(s, first), last)
    ensures !NeverChangesFinished(s, first + [last])
    decreases |first|
  {
    hide ChangesFinished, Apply;
    if first != [] {
      assert (first + [last])[1..] == first[1..] + [last];
      LastStepChanges(Apply(s, first[0]), first[1..], last);
    }
  }

  lemma CommitIsReady(s: State, tx: TxId)
    requires Consistent(s) && AllFit(s)
    ensures var d := Apply(Apply(Apply(s, Write(tx)), ReadBack(tx)), Record(tx)); Consistent(d) && AllFit(d)
  {
    var a := Apply(s, Write(tx));
    var b := Apply(a, ReadBack(tx));
    ApplyKeepsConsistent(s, Write(tx));
    ApplyKeepsConsistent(a, ReadBack(tx));
    ApplyKeepsConsistent(b, Record(tx));
    ApplyKeepsFit(s, Write(tx));
    ApplyKeepsFit(a, ReadBack(tx));
    ApplyKeepsFit(b, Record(tx));
    hide Consistent, AllFit, Apply;
  }

  /** While the cursor is free, the call goes on to its commit. */
  lemma ReachesCommit(s: State, tx: TxId)
    requires Consistent(s) && CanWrite(s, tx) && s.log.lock.None?
    ensures var c, d := s.calls[tx], Apply(Apply(Apply(s, Write(tx)), ReadBack(tx)), Record(tx));
            && Enabled(d, Commit(tx)) && View(d) == View(s)
            && d.calls[tx].key == c.key && d.calls[tx].read == c.read && d.calls[tx].wanted == c.wanted
  {
    assert Scoped(s.calls[tx].wanted) && tx in s.log.open by { assert TxFits(s, tx); }
    hide Consistent, Seen, Wanted, Put;
  }

  // ---- A late activity on its own schedule ---------------------------------------------------

  function Late(first: TxId, second: TxId, op: Op, finish: Op): seq<Step> {
    [Read(first, op)] + Whole(second, finish) + ([Write(first), ReadBack(first)] + [Record(first), Commit(first)])
  }

  /**
   * If the step finishes between the check of an activity and its write, the finished row stays as the finish
   * left it exactly if the activity is silent: if the step ran, had been started and showed that activity.
   */
  lemma StaleCheckReopens(s: State, first: TxId, second: TxId, op: Op, finish: Op)
    requires Consistent(s) && op.MarkStepActivity? && Accepts(View(s), op)
    requires finish.MarkStepFinished? && finish.stepId == op.stepId && finish.status != Running
    requires Free(s, first, StepKey(op.stepId)) && Free(s, second, StepKey(op.stepId)) && first != second
    ensures Accepts(View(s), finish)
    ensures RowAt(View(Interleave(s, Late(first, second, op, finish))), StepKey(op.stepId)) == Some(Wanted(View(s), finish).payload)
            <==> Silent(View(s), op)
  {
    var write, end := [Write(first), ReadBack(first)], [Record(first), Commit(first)];
    var a := Apply(s, Read(first, op));
    OneStep(s, Read(first, op));
    InterleaveSplit(s, [Read(first, op)], Whole(second, finish));
    InterleaveSplit(s, [Read(first, op)] + Whole(second, finish), write + end);
    hide Interleave, Apply, Consistent, Wanted, Seen, Silent, Accepts, Free, Done;
    FinishBetween(s, first, second, op, finish);
    LateEnd(Done(a, finish), first);
    KeyedView(s);
    LateRow(View(s), op, finish, View(Done(a, finish)), Reader(s, op));
  }

  /** The finish goes through, and leaves the activity where it was. */
  lemma FinishBetween(s: State, first: TxId, second: TxId, op: Op, finish: Op)
    requires Consistent(s) && op.MarkStepActivity? && Accepts(View(s), op)
    requires finish.MarkStepFinished? && finish.stepId == op.stepId
    requires Free(s, first, StepKey(op.stepId)) && Free(s, second, StepKey(op.stepId)) && first != second
    ensures Accepts(View(s), finish)
    ensures var a, c, key := Apply(s, Read(first, op)), Reader(s, op), StepKey(op.stepId);
            var b := Done(a, finish);
            && Interleave(a, Whole(second, finish)) == b && Keyed(View(b))
            && RowAt(View(b), key) == Some(Wanted(View(s), finish).payload) && KeyOf(RowAt(View(b), key).value) == Some(key)
            && first in b.calls && b.calls[first] == c && key !in b.locks
            && c.key == key && c.read == RowAt(View(s), key) && c.read.Some? && c.wanted == Wanted(View(s), op) && c.phase == HasRead
            && Scoped(c.wanted)
            && first in b.log.open && b.log.lock.None? && b.log.open[first] == EventLog.Tx(None, [])
  {
    var a := Apply(s, Read(first, op));
    KeyedView(s);
    FinishIsAccepted(View(s), finish);
    ReadOpens(s, first, op);
    ApplyKeepsConsistent(s, Read(first, op));
    ReaderFields(s, op);
    CallFacts(View(s), finish);
    assert View(a) == View(s);
    hide Interleave, Apply, Consistent, Wanted, Seen, Silent, Accepts, Writes, Keyed, Reader;
    WholeCall(a, second, finish);
    DoneStaysKeyed(a, finish);
    DoneRows(a, finish);
  }

  lemma ReaderFields(s: State, op: Op)
    requires Accepts(View(s), op)
    ensures Reader(s, op).read == RowAt(View(s), KeyOfCall(op)) && Reader(s, op).wanted == Wanted(View(s), op)
    ensures Reader(s, op).key == KeyOfCall(op) && Reader(s, op).phase == HasRead
  {
    hide Wanted;
  }

  lemma FinishIsAccepted(db: Db, finish: Op)
    requires Keyed(db) && finish.MarkStepFinished? && finish.stepId in db.steps
    ensures Accepts(db, finish)
  {
  }

  /** A call that has read and meets no lock runs to its end. */
  lemma LateEnd(s: State, tx: TxId)
    requires Keyed(View(s)) && tx in s.calls && s.calls[tx].phase == HasRead && Scoped(s.calls[tx].wanted)
    requires s.calls[tx].key !in s.locks && RowAt(View(s), s.calls[tx].key).Some? && s.calls[tx].read.Some?
    requires KeyOf(RowAt(View(s), s.calls[tx].key).value) == Some(s.calls[tx].key)
    requires tx in s.log.open && s.log.lock.None? && s.log.open[tx] == EventLog.Tx(None, [])
    ensures var c := s.calls[tx];
            RowAt(View(Interleave(s, [Write(tx), ReadBack(tx)] + [Record(tx), Commit(tx)])), c.key) == Some(Seen(View(s), c))
  {
    var c := s.calls[tx];
    InterleaveSplit(s, [Write(tx), ReadBack(tx)], [Record(tx), Commit(tx)]);
    hide Interleave, Updated;
    WritePart(s, tx);
    var b := Interleave(s, [Write(tx), ReadBack(tx)]);
    assert View(b) == View(s);
    EndPart(b, tx);
    var row := Seen(View(s), c);
    UpdatedIsSameRow(RowAt(View(s), c.key).value, c.read.value, c.wanted.payload);
    RowsAfterPut(View(s), row, c.key);
  }

  lemma LateRow(db: Db, op: Op, finish: Op, now: Db, c: Call)
    requires Keyed(db) && op.MarkStepActivity? && Accepts(db, op) && Accepts(db, finish)
    requires finish.MarkStepFinished? && finish.stepId == op.stepId && finish.status != Running
    requires c.key == StepKey(op.stepId) && c.read == RowAt(db, c.key) && c.wanted == Wanted(db, op)
    requires RowAt(now, c.key) == Some(Wanted(db, finish).payload)
    ensures Seen(now, c) == Wanted(db, finish).payload <==> Silent(db, op)
  {
  }
}
