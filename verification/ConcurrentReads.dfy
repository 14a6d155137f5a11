/** Snapshots and live pages beside calls whose statements interleave, rather than beside whole calls. */
module ConcurrentReads {
  import opened Domain
  import opened EventReads
  import TraceStore
  import opened TraceRows
  import opened TraceWrites
  import opened RowsAndEvents
  import opened CallRaces
  import opened TraceClient
  import LiveMerge

  /** The state of the tables after the first `k` statements of a schedule. */
  function After(db: TraceStore.Db, schedule: seq<Step>, k: nat): TraceStore.Db
    requires k <= |schedule|
  {
    View(Interleave(Quiet(db), schedule[..k]))
  }

  /** The transactions of the snapshot read between the statements of the calls, in this order. */
  ghost predicate ReadAmong(r: Reads, db: TraceStore.Db, schedule: seq<Step>, at: seq<nat>) {
    && |at| == 4 && at[0] <= at[1] <= at[2] <= at[3] <= |schedule|
    && r == Reads(After(db, schedule, at[0]), After(db, schedule, at[1]), After(db, schedule, at[2]),
                  After(db, schedule, at[3]), After(db, schedule, |schedule|))
  }

  lemma GrownIsLater(a: TraceStore.Db, b: TraceStore.Db)
    requires Grown(a, b)
    ensures Later(a, b)
  {
    forall key | TraceStore.HomeRun(a, key).Some? ensures TraceStore.HomeRun(b, key) == TraceStore.HomeRun(a, key) {
      HomeStays(a, b, key);
    }
    forall run | run in a.runs ensures run in b.runs {
      RunStays(a, b, run);
    }
  }

  lemma AfterIsValid(db: TraceStore.Db, schedule: seq<Step>, i: nat)
    requires TraceStore.Valid(db) && NoneSilent(Quiet(db), schedule) && i <= |schedule|
    ensures TraceStore.Valid(After(db, schedule, i))
  {
    assert schedule[..i] + schedule[i..] == schedule;
    StoreIsAStart(db);
    NoneSilentSplit(Quiet(db), schedule[..i], schedule[i..]);
    hide TraceStore.Valid, NoneSilent, Interleave, Quiet, Consistent, AllWrite, View;
    ScheduleKeepsValid(Quiet(db), schedule[..i]);
  }

  lemma AfterIsLater(db: TraceStore.Db, schedule: seq<Step>, i: nat, j: nat)
    requires TraceStore.Valid(db) && i <= j <= |schedule|
    ensures Later(After(db, schedule, i), After(db, schedule, j))
  {
    var s, first, second := Quiet(db), schedule[..i], schedule[i..j];
    assert first + second == schedule[..j];
    StoreIsAStart(db);
    hide TraceStore.Valid, Interleave, Quiet, Consistent, AllWrite, Grown, Later, View;
    InterleaveKeepsConsistent(s, first);
    InterleaveSplit(s, first, second);
    InterleaveKeepsConsistent(Interleave(s, first), second);
    GrownIsLater(After(db, schedule, i), After(db, schedule, j));
  }

  lemma ReadsAreInOrder(r: Reads, db: TraceStore.Db, schedule: seq<Step>, at: seq<nat>)
    requires TraceStore.Valid(db) && NoneSilent(Quiet(db), schedule) && ReadAmong(r, db, schedule, at)
    ensures InOrder(r)
  {
    hide TraceStore.Valid, NoneSilent, Later, After, Quiet;
    AfterIsValid(db, schedule, at[0]);
    AfterIsValid(db, schedule, at[1]);
    AfterIsValid(db, schedule, at[2]);
    AfterIsValid(db, schedule, at[3]);
    AfterIsValid(db, schedule, |schedule|);
    AfterIsLater(db, schedule, at[0], at[1]);
    AfterIsLater(db, schedule, at[1], at[2]);
    AfterIsLater(db, schedule, at[2], at[3]);
    AfterIsLater(db, schedule, at[3], |schedule|);
  }

  /**
   * Snapshot and replay converge also if the four reads lie anywhere between the statements of any number of
   * concurrent calls, as long as no mark is silent.
   */
  lemma {:induction false} SnapshotAmongCallsConverges(r: Reads, db: TraceStore.Db, schedule: seq<Step>, at: seq<nat>, s: Snapshot, run: Id)
    requires TraceStore.Valid(db) && NoneSilent(Quiet(db), schedule) && ReadAmong(r, db, schedule, at)
    requires SnapshotOf(s, r, run)
    ensures ShowsRun(ApplyAll(Initialize(s), RunEventsAfter(r.now.log, run, s.lastEventId)), r.now, run)
  {
    ReadsAreInOrder(r, db, schedule, at);
    OrderedReadsConverge(r, s, run);
  }

  /** And a page with nothing left to receive shows the tables, through any deliveries, reconnects and replays. */
  lemma {:induction false} LiveClientAmongCallsConverges(r: Reads, db: TraceStore.Db, schedule: seq<Step>, at: seq<nat>, s: Snapshot, run: Id,
                                                          log: seq<Event>, steps: seq<LiveMerge.Step>)
    requires TraceStore.Valid(db) && NoneSilent(Quiet(db), schedule) && ReadAmong(r, db, schedule, at)
    requires SnapshotOf(s, r, run) && Gapless(log) && s.lastEventId <= |log|
    requires var p := LiveMerge.Run(LiveMerge.Open(log, s), run, steps);
             p.log == r.now.log && RunEventsAfter(p.log, run, p.client.lastEventId) == []
    ensures ShowsRun(LiveMerge.Run(LiveMerge.Open(log, s), run, steps).client, r.now, run)
  {
    ReadsAreInOrder(r, db, schedule, at);
    LiveMerge.OrderedClientConverges(r, s, run, log, steps);
  }

  /** A snapshot that is not followed, because its run row is terminal, is final if no event of the run follows that read. */
  lemma {:induction false} TerminalSnapshotAmongCallsIsFinal(r: Reads, db: TraceStore.Db, schedule: seq<Step>, at: seq<nat>, s: Snapshot, run: Id)
    requires TraceStore.Valid(db) && NoneSilent(Quiet(db), schedule) && ReadAmong(r, db, schedule, at)
    requires SnapshotOf(s, r, run) && Terminal(s.run.status) && RunEventsAfter(r.now.log, run, |r.run.log|) == []
    ensures Initialize(s).connection == Complete && ShowsRun(Initialize(s), r.now, run)
  {
    ReadsAreInOrder(r, db, schedule, at);
    OrderedTerminalIsFinal(r, s, run);
  }
}
