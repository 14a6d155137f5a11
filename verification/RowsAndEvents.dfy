/**
 * What is left of "each row is the payload of its last event" when the statements of the calls interleave:
 * all of it, exactly if no mark is silent, that is, sets every column to the value it has.
 */
module RowsAndEvents {
  import opened Domain
  import opened EventReads
  import opened TraceStore
  import opened TraceRows
  import opened TraceWrites
  import EventLog

  /** Each committed row is what the last committed event about it carries. */
  ghost predicate RowsAreLastEvents(s: State) {
    forall key :: RowAt(View(s), key) == LastPayload(s.log.committed, key)
  }

  /** What a committing call leaves as the row and as the last event of a key. */
  lemma CommitRecords(s: State, tx: TxId, key: Key)
    requires Consistent(s) && Enabled(s, Commit(tx))
    ensures var c, r := s.calls[tx], View(AfterCommit(s, tx));
            && RowAt(r, key) == (if key == c.key then Some(Seen(View(s), c)) else RowAt(View(s), key))
            && LastPayload(r.log, key) == if key == c.key then Some(c.readBack) else LastPayload(s.log.committed, key)
  {
    var c, db := s.calls[tx], View(s);
    CommitView(s, tx);
    KeyedView(s);
    assert KeyOf(c.readBack) == Some(c.key) by { assert TxFits(s, tx); }
    hide Consistent, Seen, Put, MayPut, Keyed, EventLog.Apply, EventLog.Consistent;
    RowsAfterPut(db, Seen(db, c), key);
    PutKeepsKeyed(db, Seen(db, c));
    LoggedRows(Put(db, Seen(db, c)), EventOf(c), key);
    SnocLast(db.log, Stamp(EventOf(c), |db.log| + 1), key);
  }

  /**
   * A commit leaves rows and last events together exactly if the call wrote, or no other transaction has
   * changed the row since it was read back.
   */
  lemma CommitKeepsRowsExactly(s: State, tx: TxId)
    requires Consistent(s) && RowsAreLastEvents(s) && Enabled(s, Commit(tx))
    ensures var c := s.calls[tx];
            RowsAreLastEvents(Apply(s, Commit(tx))) <==> Writes(c) || RowAt(View(s), c.key) == Some(c.readBack)
  {
    var c, r := s.calls[tx], AfterCommit(s, tx);
    CommitView(s, tx);
    CommitRecords(s, tx, c.key);
    hide Consistent, Seen, Put, MayPut, EventLog.Apply, Writes, AfterCommit;
    assert View(r).log == r.log.committed;
    forall key | key != c.key ensures RowAt(View(r), key) == LastPayload(r.log.committed, key) {
      CommitRecords(s, tx, key);
    }
    assert RowsAreLastEvents(r) <==> RowAt(View(r), c.key) == LastPayload(r.log.committed, c.key);
  }

  // ---- Silent marks ------------------------------------------------------------------------

  /** The mark would set every column to the value it has. */
  predicate Silent(db: Db, op: Op) {
    Accepts(db, op) && RowAt(db, KeyOfCall(op)) == Some(Wanted(db, op).payload)
  }

  /**
   * What a caller can check. Creations are never silent; a start or an activity is silent exactly when the
   * run or step runs, has been started and shows that activity; a finish only when it finished at that very
   * time with the same outcome.
   */
  lemma SilentExactly(db: Db, op: Op)
    requires Keyed(db) && Accepts(db, op)
    ensures Silent(db, op) <==>
            match op
            case MarkRunRunning(runId, _) => db.runs[runId].status == Running && db.runs[runId].startedAt.Some?
            case MarkRunFinished(runId, status, now) =>
              db.runs[runId].status == status && db.runs[runId].finishedAt == Some(now)
            case MarkStepRunning(id, activity, _) => ShowsActivity(db.steps[id], activity)
            case MarkStepActivity(id, activity, _) => ShowsActivity(db.steps[id], Some(activity))
            case MarkStepFinished(id, status, output, warning, now) =>
              var step := db.steps[id];
              && step.finishedAt == Some(now) && step.status == status && step.activity == None
              && output in {None, Some(step.outputSummary)} && warning in {None, Some(step.warningSummary)}
            case _ => false
  {
    if !IsMark(op) { CallFacts(db, op); }
  }

  predicate ShowsActivity(step: AgentStep, activity: Option<string>) {
    step.status == Running && step.startedAt.Some? && step.activity == activity
  }

  /** No mark of the schedule is silent when it reads its row. */
  predicate NoneSilent(s: State, steps: seq<Step>)
    decreases |steps|
  {
    steps != [] ==>
      && (steps[0].Read? && Enabled(s, steps[0]) ==> !Silent(View(s), steps[0].op))
      && NoneSilent(Apply(s, steps[0]), steps[1..])
  }

  ghost predicate AllWrite(s: State) {
    forall tx :: tx in s.calls ==> Writes(s.calls[tx])
  }

  lemma {:induction false} NoneSilentSplit(s: State, first: seq<Step>, second: seq<Step>)
    ensures NoneSilent(s, first + second) <==> NoneSilent(s, first) && NoneSilent(Interleave(s, first), second)
    decreases |first|
  {
    hide Apply, Enabled, Silent;
    if first == [] {
      assert first + second == second;
    } else {
      assert (first + second)[1..] == first[1..] + second;
      NoneSilentSplit(Apply(s, first[0]), first[1..], second);
    }
  }

  lemma WritersStay(s: State, step: Step)
    requires AllWrite(s) && NoneSilent(s, [step])
    ensures AllWrite(Apply(s, step))
  {
    hide Wanted, EventLog.Apply, Put, Seen;
  }

  // ---- Every schedule without silent marks -------------------------------------------------

  lemma {:induction false} ForeignKeepsValid(db: Db, events: seq<Event>)
    requires Valid(db) && AllForeign(events)
    requires forall i :: 0 <= i < |events| ==> events[i].id == |db.log| + 1 + i
    ensures Valid(db.(log := db.log + events))
    decreases |events|
  {
    if events == [] {
      assert db.log + events == db.log;
    } else {
      var front, last := events[..|events| - 1], events[|events| - 1];
      assert last in events;
      ForeignKeepsValid(db, front);
      var before := db.(log := db.log + front);
      NextKeepsValid(before, OtherEvent(Unstamp(last)));
      assert db.log + events == before.log + [last];
      assert Next(before, OtherEvent(Unstamp(last))) == db.(log := db.log + events);
    }
  }

  lemma PutKeepsValid(db: Db, row: Payload, input: EventInput)
    requires Valid(db) && MayPut(db, row) && input.payload == row && ScopeOf(db, row) == Some(input.scope)
    requires RowAt(db, KeyOf(row).value).None? ==> input.kind == BirthKind(row)
    ensures Valid(Logged(Put(db, row), input))
  {
    var was := RowAt(db, KeyOf(row).value);
    match row
    case RunPayload(run) =>
      assert input == RunEvent(run, input.kind);
      hide Valid;
      PutRunKeepsValid(db, run, input.kind);
    case StepPayload(step) =>
      assert input == StepEvent(db.runs[step.runId], step, input.kind);
      if was.Some? {
        assert SamePlace(step, db.steps[step.id]);
        hide Valid, Placed, StepObstacle;
        UpdateStepKeepsValid(db, step, input.kind);
      } else {
        hide Valid, Updated;
        CreateStepKeepsValid(db, step.id, InputOf(step), step.createdAt);
      }
    case ArtifactPayload(artifact) =>
      if was.Some? {
        SameArtifactKeepsValid(db, artifact, input);
      } else {
        hide Valid, Updated;
        CreateArtifactKeepsValid(db, artifact);
      }
  }

  /** No call writes an artifact that is there; it would change nothing. */
  lemma SameArtifactKeepsValid(db: Db, artifact: AgentArtifact, input: EventInput)
    requires Valid(db) && artifact.id in db.artifacts && db.artifacts[artifact.id] == artifact
    requires input.payload == ArtifactPayload(artifact) && ScopeOf(db, input.payload) == Some(input.scope)
    ensures Valid(Logged(Put(db, input.payload), input))
  {
    assert db.artifacts[artifact.id := artifact] == db.artifacts;
    assert Put(db, input.payload) == db;
    assert db.steps[artifact.stepId].runId in db.runs by { assert StepFits(db, artifact.stepId); }
    LoggedKeepsFaithful(db, db, input);
    SameStepsStayValid(db, db, input);
  }

  lemma CommitKeepsValid(s: State, tx: TxId)
    requires Consistent(s) && Valid(View(s)) && Enabled(s, Commit(tx)) && Writes(s.calls[tx])
    ensures Valid(View(AfterCommit(s, tx)))
  {
    var c, db := s.calls[tx], View(s);
    CommitView(s, tx);
    assert TxFits(s, tx);
    SeenFits(db, c);
    assert c.read.Some? ==> RowAt(db, c.key).Some?;
    assert c.read.None? ==> Seen(db, c) == c.wanted.payload && c.wanted.kind == BirthKind(c.wanted.payload);
    hide Consistent, Valid, MayPut, Seen, View, AfterCommit, ScopeOf, CallFits;
    PutKeepsValid(db, Seen(db, c), EventOf(c));
  }

  lemma ApplyKeepsValid(s: State, step: Step)
    requires Consistent(s) && Valid(View(s)) && AllWrite(s)
    ensures Valid(View(Apply(s, step)))
  {
    if Enabled(s, step) {
      match step
      case Commit(tx) => CommitKeepsValid(s, tx);
      case AddPack(packId, repositoryId) =>
        hide Valid;
        AddPackKeepsValid(View(s), packId, repositoryId);
      case Elsewhere(other) =>
        if other.Commit? && other.tx in s.log.open {
          assert TxFits(s, other.tx);
          assert EventLog.TxConsistent(s.log, other.tx);
          hide Valid;
          ForeignKeepsValid(View(s), s.log.open[other.tx].pending);
        } else {
          hide Valid;
          assert View(Apply(s, step)) == View(s);
        }
      case _ =>
        hide Valid;
        assert View(Apply(s, step)) == View(s);
    }
  }

  /**
   * However the calls interleave, if no mark is silent then the tables and the log keep everything that they
   * keep when the calls run one at a time: each row is the payload of its last event, and the steps form a
   * forest inside their runs. A row's lock spans its write and its event.
   */
  lemma {:induction false} ScheduleKeepsValid(s: State, steps: seq<Step>)
    requires Consistent(s) && Valid(View(s)) && AllWrite(s) && NoneSilent(s, steps)
    ensures Valid(View(Interleave(s, steps))) && AllWrite(Interleave(s, steps))
    decreases |steps|
  {
    hide Consistent, Valid, AllWrite, Apply, Enabled, Silent;
    if steps != [] {
      assert NoneSilent(s, [steps[0]]);
      ApplyKeepsValid(s, steps[0]);
      WritersStay(s, steps[0]);
      ApplyKeepsConsistent(s, steps[0]);
      ScheduleKeepsValid(Apply(s, steps[0]), steps[1..]);
    }
  }

  /** Every state of the trace store is a start. */
  lemma StoreIsAStart(db: Db)
    requires Valid(db)
    ensures Consistent(Quiet(db)) && AllWrite(Quiet(db)) && View(Quiet(db)) == db
  {
    forall id | id in db.steps ensures db.steps[id].id == id && db.steps[id].runId in db.runs {
      assert StepFits(db, id);
    }
  }

  /** So from a state of the trace store on, every schedule without silent marks leads to such states. */
  lemma {:induction false} RowsStayLastEvents(db: Db, steps: seq<Step>)
    requires Valid(db) && NoneSilent(Quiet(db), steps)
    ensures var r := Interleave(Quiet(db), steps);
            RowsAreLastEvents(r) && Valid(View(r)) && Grown(db, View(r))
  {
    StoreIsAStart(db);
    ScheduleKeepsValid(Quiet(db), steps);
    InterleaveKeepsConsistent(Quiet(db), steps);
    hide Interleave, NoneSilent, Grown, Consistent, Quiet;
  }
}
