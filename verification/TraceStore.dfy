/**
 * Agent runs, steps and artifacts, and the events that record every change to them. Each repository
 * method is one step here: it changes one row and appends one event carrying that row, or it fails and
 * changes nothing. What is left of this when the statements of the methods interleave is in RowsAndEvents.
 */
module TraceStore {
  import opened Domain
  import opened EventReads

  /** `packs` maps a context pack to the repository it belongs to. */
  datatype Db = Db(
    runs: map<Id, AgentRun>,
    steps: map<Id, AgentStep>,
    artifacts: map<Id, AgentArtifact>,
    packs: map<Id, Id>,
    log: seq<Event>)

  const EMPTY := Db(map[], map[], map[], map[], [])

  datatype TraceError =
    | RunNotFound | StepNotFound | ParentNotFound | ParentInOtherRun
    | PackNotFound | PackDiffersFromParent | PackInOtherRepository
    | BadIteration | StepFinished | SequenceTaken | IdTaken

  datatype StepInput = StepInput(
    runId: Id,
    stepType: string,
    sequence: int,
    parentId: Option<Id>,
    contextPackId: Option<Id>,
    iteration: Option<int>,
    status: AgentStatus,
    activity: Option<string>,
    inputSummary: string,
    outputSummary: string,
    warningSummary: string)

  datatype Op =
    | CreateRun(id: Id, jobId: Option<Id>, repositoryId: Option<Id>, runType: string, status: AgentStatus,
                modelProfile: Option<string>, now: Time)
    | MarkRunRunning(runId: Id, now: Time)
    | MarkRunFinished(runId: Id, status: AgentStatus, now: Time)
    | CreateStep(id: Id, input: StepInput, now: Time)
    | MarkStepRunning(stepId: Id, newActivity: Option<string>, now: Time)
    | MarkStepActivity(stepId: Id, activity: string, now: Time)
    | MarkStepFinished(stepId: Id, status: AgentStatus, outputSummary: Option<string>, warningSummary: Option<string>, now: Time)
    | CreateArtifact(id: Id, stepId: Id, artifactType: string, uri: string, contentHash: Option<string>, now: Time)
    /** Another component creates a context pack, or appends an event about something else. */
    | AddContextPack(packId: Id, packRepositoryId: Id)
    | OtherEvent(event: EventInput)

  // ---- One change: a row and its event -------------------------------------------------

  function RunEvent(run: AgentRun, kind: EventKind): EventInput {
    EventInput(kind, Scope(run.repositoryId, run.jobId, Some(run.id), None), RunPayload(run))
  }

  function StepEvent(run: AgentRun, step: AgentStep, kind: EventKind): EventInput {
    EventInput(kind, Scope(run.repositoryId, run.jobId, Some(run.id), Some(step.id)), StepPayload(step))
  }

  function ArtifactEvent(run: AgentRun, step: AgentStep, artifact: AgentArtifact): EventInput {
    EventInput(ArtifactCreated, Scope(run.repositoryId, run.jobId, Some(run.id), Some(step.id)), ArtifactPayload(artifact))
  }

  function Logged(db: Db, input: EventInput): Db {
    db.(log := db.log + [Stamp(input, |db.log| + 1)])
  }

  function PutRun(db: Db, run: AgentRun, kind: EventKind): Db {
    Logged(db.(runs := db.runs[run.id := run]), RunEvent(run, kind))
  }

  function PutStep(db: Db, step: AgentStep, kind: EventKind): Db
    requires step.runId in db.runs
  {
    Logged(db.(steps := db.steps[step.id := step]), StepEvent(db.runs[step.runId], step, kind))
  }

  function OrNow(t: Option<Time>, now: Time): Option<Time> {
    if t.Some? then t else Some(now)
  }

  /** The context pack a new step is bound to: its own, or else its parent's. */
  function EffectivePack(db: Db, input: StepInput): Option<Id> {
    if input.contextPackId.Some? then input.contextPackId
    else if input.parentId.Some? && input.parentId.value in db.steps then db.steps[input.parentId.value].contextPackId
    else None
  }

  /** The checks of create_step, in the order they are made, then the constraints of the table. */
  function StepObstacle(db: Db, id: Id, input: StepInput): Option<TraceError> {
    var pack := EffectivePack(db, input);
    if input.iteration.Some? && input.iteration.value < 1 then Some(BadIteration)
    else if input.runId !in db.runs then Some(RunNotFound)
    else if input.parentId.Some? && input.parentId.value !in db.steps then Some(ParentNotFound)
    else if input.parentId.Some? && db.steps[input.parentId.value].runId != input.runId then Some(ParentInOtherRun)
    else if pack.Some? && pack.value !in db.packs then Some(PackNotFound)
    else if pack.Some? && input.parentId.Some? && db.steps[input.parentId.value].contextPackId.Some?
            && db.steps[input.parentId.value].contextPackId != pack then Some(PackDiffersFromParent)
    else if pack.Some? && db.runs[input.runId].repositoryId.Some?
            && db.runs[input.runId].repositoryId.value != db.packs[pack.value] then Some(PackInOtherRepository)
    else if exists other :: other in db.steps && db.steps[other].runId == input.runId && db.steps[other].sequence == input.sequence
      then Some(SequenceTaken)
    else if id in db.steps then Some(IdTaken)
    else None
  }

  function NewStep(db: Db, id: Id, input: StepInput, now: Time): AgentStep {
    AgentStep(id, input.runId, input.parentId, EffectivePack(db, input), input.stepType, input.status, input.activity,
              input.sequence, input.iteration, input.inputSummary, input.outputSummary, input.warningSummary,
              None, None, now)
  }

  function StartedStep(s: AgentStep, activity: Option<string>, now: Time): AgentStep {
    s.(status := Running, activity := activity, startedAt := OrNow(s.startedAt, now))
  }

  function FinishedStep(s: AgentStep, status: AgentStatus, outputSummary: Option<string>, warningSummary: Option<string>,
                        now: Time): AgentStep {
    s.(status := status, activity := None, finishedAt := Some(now),
       outputSummary := if outputSummary.Some? then outputSummary.value else s.outputSummary,
       warningSummary := if warningSummary.Some? then warningSummary.value else s.warningSummary)
  }

  /** Updates the step `id` with `change`, if its run is there, and records it. */
  function ChangeStep(db: Db, id: Id, change: AgentStep -> AgentStep, kind: EventKind): Result<Db, TraceError> {
    if id !in db.steps then Err(StepNotFound)
    else if db.steps[id].runId !in db.runs then Err(RunNotFound)
    else
      var step := change(db.steps[id]).(id := id, runId := db.steps[id].runId);
      Ok(PutStep(db, step, kind))
  }

  /** The effect of one repository call. */
  function Eval(db: Db, op: Op): Result<Db, TraceError> {
    match op
    case CreateRun(id, jobId, repositoryId, runType, status, modelProfile, now) =>
      if id in db.runs then Err(IdTaken)
      else Ok(PutRun(db, AgentRun(id, jobId, repositoryId, runType, status, modelProfile, None, None, now), RunCreated))
    case MarkRunRunning(runId, now) =>
      if runId !in db.runs then Err(RunNotFound)
      else
        var run := db.runs[runId];
        Ok(PutRun(db, run.(id := runId, status := Running, startedAt := OrNow(run.startedAt, now)), RunStatusChanged))
    case MarkRunFinished(runId, status, now) =>
      if runId !in db.runs then Err(RunNotFound)
      else Ok(PutRun(db, db.runs[runId].(id := runId, status := status, finishedAt := Some(now)), RunStatusChanged))
    case CreateStep(id, input, now) =>
      var obstacle := StepObstacle(db, id, input);
      if obstacle.Some? then Err(obstacle.value)
      else Ok(PutStep(db, NewStep(db, id, input, now), StepCreated))
    case MarkStepRunning(stepId, activity, now) =>
      ChangeStep(db, stepId, (s: AgentStep) => StartedStep(s, activity, now), StepStatusChanged)
    case MarkStepActivity(stepId, activity, now) =>
      if stepId in db.steps && db.steps[stepId].finishedAt.Some? then Err(StepFinished)
      else
        ChangeStep(db, stepId, (s: AgentStep) => StartedStep(s, Some(activity), now), StepActivityChanged)
    case MarkStepFinished(stepId, status, outputSummary, warningSummary, now) =>
      ChangeStep(db, stepId, (s: AgentStep) => FinishedStep(s, status, outputSummary, warningSummary, now), StepStatusChanged)
    case CreateArtifact(id, stepId, artifactType, uri, contentHash, now) =>
      if stepId !in db.steps then Err(StepNotFound)
      else if id in db.artifacts then Err(IdTaken)
      else if db.steps[stepId].runId !in db.runs then Err(RunNotFound)
      else
        var artifact := AgentArtifact(id, stepId, artifactType, uri, contentHash, now);
        Ok(Logged(db.(artifacts := db.artifacts[id := artifact]),
                  ArtifactEvent(db.runs[db.steps[stepId].runId], db.steps[stepId], artifact)))
    case AddContextPack(packId, repositoryId) =>
      if packId in db.packs then Err(IdTaken) else Ok(db.(packs := db.packs[packId := repositoryId]))
    case OtherEvent(event) =>
      if Foreign(event.payload) then Ok(Logged(db, event)) else Ok(db)
  }

  /** An event that is not about a row of the trace tables. */
  predicate Foreign(p: Payload) {
    p.JobPayload? || p.NoPayload?
  }

  function Next(db: Db, op: Op): Db {
    var r := Eval(db, op);
    if r.Ok? then r.value else db
  }

  function Run(db: Db, ops: seq<Op>): Db
    decreases |ops|
  {
    if ops == [] then db else Next(Run(db, ops[..|ops| - 1]), ops[|ops| - 1])
  }

  // ---- Rows and the events about them --------------------------------------------------

  datatype Key = RunKey(id: Id) | StepKey(id: Id) | ArtifactKey(stepId: Id, id: Id)

  function KeyOf(p: Payload): Option<Key> {
    match p
    case RunPayload(run) => Some(RunKey(run.id))
    case StepPayload(step) => Some(StepKey(step.id))
    case ArtifactPayload(artifact) => Some(ArtifactKey(artifact.stepId, artifact.id))
    case JobPayload(_) => None
    case NoPayload => None
  }

  /** What the tables hold for a key. */
  function RowAt(db: Db, key: Key): Option<Payload> {
    match key
    case RunKey(id) => if id in db.runs then Some(RunPayload(db.runs[id])) else None
    case StepKey(id) => if id in db.steps then Some(StepPayload(db.steps[id])) else None
    case ArtifactKey(stepId, id) =>
      if id in db.artifacts && db.artifacts[id].stepId == stepId then Some(ArtifactPayload(db.artifacts[id])) else None
  }

  /** What the last event about a key carries. */
  function LastPayload(events: seq<Event>, key: Key): Option<Payload>
    decreases |events|
  {
    if events == [] then None
    else
      var last := events[|events| - 1];
      if KeyOf(last.payload) == Some(key) then Some(last.payload) else LastPayload(events[..|events| - 1], key)
  }

  lemma {:induction false} LastOfTwo(first: seq<Event>, second: seq<Event>, key: Key)
    ensures LastPayload(first + second, key) ==
            if LastPayload(second, key).Some? then LastPayload(second, key) else LastPayload(first, key)
    decreases |second|
  {
    if second == [] {
      assert first + second == first;
    } else {
      assert (first + second)[..|first + second| - 1] == first + second[..|second| - 1];
      LastOfTwo(first, second[..|second| - 1], key);
    }
  }

  lemma SnocLast(events: seq<Event>, e: Event, key: Key)
    ensures LastPayload(events + [e], key) == if KeyOf(e.payload) == Some(key) then Some(e.payload) else LastPayload(events, key)
  {
    assert (events + [e])[..|events|] == events;
  }

  /** The run whose events tell about a key. */
  function HomeRun(db: Db, key: Key): Option<Id> {
    match key
    case RunKey(id) => Some(id)
    case StepKey(id) => if id in db.steps then Some(db.steps[id].runId) else None
    case ArtifactKey(stepId, _) => if stepId in db.steps then Some(db.steps[stepId].runId) else None
  }

  /** Every row of every table is what the last event about it says, and rows without events are absent. */
  ghost predicate Faithful(db: Db) {
    && Gapless(db.log)
    && (forall key :: RowAt(db, key) == LastPayload(db.log, key))
    && (forall i :: 0 <= i < |db.log| && KeyOf(db.log[i].payload).Some? ==>
          && HomeRun(db, KeyOf(db.log[i].payload).value).Some?
          && db.log[i].scope.runId == HomeRun(db, KeyOf(db.log[i].payload).value))
  }

  /** The identifier of the event that created a step, or 0. */
  function Born(log: seq<Event>, id: Id): nat
    decreases |log|
  {
    if log == [] then 0
    else
      var earlier := Born(log[..|log| - 1], id);
      if earlier > 0 then earlier
      else if KeyOf(log[|log| - 1].payload) == Some(StepKey(id)) then |log|
      else 0
  }

  /** What holds between a step and the step, run and pack it refers to. */
  ghost predicate StepFits(db: Db, id: Id)
    requires id in db.steps
  {
    var step := db.steps[id];
    && step.id == id
    && step.runId in db.runs
    && 0 < Born(db.log, id) <= |db.log|
    && (step.parentId.Some? ==>
          && step.parentId.value in db.steps
          && db.steps[step.parentId.value].runId == step.runId
          && Born(db.log, step.parentId.value) < Born(db.log, id)
          && (db.steps[step.parentId.value].contextPackId.Some? ==>
                db.steps[step.parentId.value].contextPackId == step.contextPackId))
    && (step.contextPackId.Some? ==>
          && step.contextPackId.value in db.packs
          && (db.runs[step.runId].repositoryId.Some? ==>
                db.runs[step.runId].repositoryId.value == db.packs[step.contextPackId.value]))
  }

  ghost predicate SequencesDistinct(db: Db) {
    forall a, b :: a in db.steps && b in db.steps && a != b && db.steps[a].runId == db.steps[b].runId ==>
                     db.steps[a].sequence != db.steps[b].sequence
  }

  ghost predicate Valid(db: Db) {
    && Faithful(db)
    && (forall id :: id in db.runs ==> db.runs[id].id == id)
    && (forall id :: id in db.steps ==> StepFits(db, id))
    && (forall id :: id in db.artifacts ==> db.artifacts[id].id == id && db.artifacts[id].stepId in db.steps)
    && SequencesDistinct(db)
  }

  // ---- Every call keeps the invariant --------------------------------------------------

  /** Writing one row together with its event keeps the log faithful. */
  lemma LoggedKeepsFaithful(db: Db, changed: Db, input: EventInput)
    requires Faithful(db) && changed.log == db.log
    requires forall key :: RowAt(changed, key) == if KeyOf(input.payload) == Some(key) then Some(input.payload) else RowAt(db, key)
    requires forall key :: HomeRun(db, key).Some? ==> HomeRun(changed, key) == HomeRun(db, key)
    requires KeyOf(input.payload).Some? ==>
               input.scope.runId.Some? && input.scope.runId == HomeRun(changed, KeyOf(input.payload).value)
    ensures Faithful(Logged(changed, input))
  {
    var r := Logged(changed, input);
    assert r.log[..|r.log| - 1] == db.log;
    forall key ensures RowAt(r, key) == LastPayload(r.log, key) {
      assert RowAt(r, key) == RowAt(changed, key);
    }
    forall i | 0 <= i < |r.log| && KeyOf(r.log[i].payload).Some?
      ensures HomeRun(r, KeyOf(r.log[i].payload).value).Some?
      ensures r.log[i].scope.runId == HomeRun(r, KeyOf(r.log[i].payload).value)
    {
      var key := KeyOf(r.log[i].payload).value;
      assert HomeRun(r, key) == HomeRun(changed, key);
      if i < |db.log| {
        assert r.log[i] == db.log[i];
      }
    }
  }

  /** Appending an event moves no birth, and gives a step without one the new identifier. */
  lemma BornAfter(db: Db, input: EventInput, id: Id)
    ensures Born(Logged(db, input).log, id) ==
            if Born(db.log, id) > 0 then Born(db.log, id)
            else if KeyOf(input.payload) == Some(StepKey(id)) then |db.log| + 1 else 0
  {
    var r := Logged(db, input);
    assert r.log[..|r.log| - 1] == db.log;
  }

  lemma PutRunKeepsFaithful(db: Db, run: AgentRun, kind: EventKind)
    requires Faithful(db)
    ensures Faithful(PutRun(db, run, kind))
  {
    var changed := db.(runs := db.runs[run.id := run]);
    assert forall key :: RowAt(changed, key) ==
                         if KeyOf(RunPayload(run)) == Some(key) then Some(RunPayload(run)) else RowAt(db, key);
    hide Faithful, RowAt;
    LoggedKeepsFaithful(db, changed, RunEvent(run, kind));
  }

  lemma PutRunKeepsValid(db: Db, run: AgentRun, kind: EventKind)
    requires Valid(db)
    requires run.id in db.runs ==> run.repositoryId == db.runs[run.id].repositoryId
    ensures Valid(PutRun(db, run, kind))
  {
    var changed := db.(runs := db.runs[run.id := run]);
    PutRunKeepsFaithful(db, run, kind);
    hide Faithful, Born;
    var r := PutRun(db, run, kind);
    forall id | id in r.steps ensures StepFits(r, id) {
      assert StepFits(db, id);
      BornAfter(changed, RunEvent(run, kind), id);
      if db.steps[id].parentId.Some? { BornAfter(changed, RunEvent(run, kind), db.steps[id].parentId.value); }
    }
  }

  /** A step written with an unchanged identity, run, place and pack, and every other step, still fit. */
  lemma UpdatedStepsFit(db: Db, step: AgentStep, kind: EventKind, id: Id)
    requires Valid(db) && step.id in db.steps && id in db.steps
    requires SamePlace(step, db.steps[step.id]) && step.runId in db.runs
    ensures StepFits(PutStep(db, step, kind), id)
  {
    var changed := db.(steps := db.steps[step.id := step]);
    var input := StepEvent(db.runs[step.runId], step, kind);
    var r := PutStep(db, step, kind);
    assert r == Logged(changed, input);
    assert StepFits(db, id);
    BornAfter(changed, input, id);
    if db.steps[id].parentId.Some? {
      var parent := db.steps[id].parentId.value;
      BornAfter(changed, input, parent);
      assert SamePlace(r.steps[parent], db.steps[parent]);
    }
    assert SamePlace(r.steps[id], db.steps[id]);
  }

  predicate SamePlace(a: AgentStep, b: AgentStep) {
    && a.id == b.id && a.runId == b.runId && a.parentId == b.parentId
    && a.contextPackId == b.contextPackId && a.sequence == b.sequence
  }

  lemma UpdateStepKeepsFaithful(db: Db, step: AgentStep, kind: EventKind)
    requires Valid(db) && step.id in db.steps && step.runId in db.runs
    requires db.steps[step.id].runId == step.runId
    ensures Faithful(PutStep(db, step, kind))
  {
    RowsAfterStep(db, step, kind);
    hide Faithful, RowAt, HomeRun;
    LoggedKeepsFaithful(db, db.(steps := db.steps[step.id := step]), StepEvent(db.runs[step.runId], step, kind));
  }

  /** Writing a step changes its own row, and no row's run. */
  lemma RowsAfterStep(db: Db, step: AgentStep, kind: EventKind)
    requires step.runId in db.runs && db.runs[step.runId].id == step.runId
    requires step.id in db.steps ==> db.steps[step.id].runId == step.runId
    ensures var changed, input := db.(steps := db.steps[step.id := step]), StepEvent(db.runs[step.runId], step, kind);
            && (forall key :: RowAt(changed, key) == if KeyOf(input.payload) == Some(key) then Some(input.payload) else RowAt(db, key))
            && (forall key :: HomeRun(db, key).Some? ==> HomeRun(changed, key) == HomeRun(db, key))
            && KeyOf(input.payload) == Some(StepKey(step.id)) && input.scope.runId == HomeRun(changed, StepKey(step.id)) == Some(step.runId)
  {
  }

  lemma UpdateStepKeepsValid(db: Db, step: AgentStep, kind: EventKind)
    requires Valid(db) && step.id in db.steps
    requires SamePlace(step, db.steps[step.id])
    ensures step.runId in db.runs
    ensures Valid(PutStep(db, step, kind))
  {
    assert StepFits(db, step.id);
    var r := PutStep(db, step, kind);
    UpdateStepKeepsFaithful(db, step, kind);
    forall id | id in r.steps ensures StepFits(r, id) {
      UpdatedStepsFit(db, step, kind, id);
    }
    assert forall id :: id in r.steps ==> SamePlace(r.steps[id], db.steps[id]);
  }

  lemma UnbornStep(db: Db, id: Id)
    requires Faithful(db) && id !in db.steps
    ensures Born(db.log, id) == 0
  {
    assert RowAt(db, StepKey(id)) == LastPayload(db.log, StepKey(id));
    BornNeedsEvent(db.log, id);
  }

  lemma {:induction false} BornNeedsEvent(log: seq<Event>, id: Id)
    requires LastPayload(log, StepKey(id)).None?
    ensures Born(log, id) == 0
    decreases |log|
  {
    if log != [] {
      BornNeedsEvent(log[..|log| - 1], id);
    }
  }

  lemma StepsFitAfterCreate(db: Db, id: Id, input: StepInput, now: Time, other: Id)
    requires Valid(db) && StepObstacle(db, id, input).None?
    requires other == id || other in db.steps
    ensures StepFits(PutStep(db, NewStep(db, id, input, now), StepCreated), other)
  {
    var step := NewStep(db, id, input, now);
    var changed := db.(steps := db.steps[id := step]);
    var event := StepEvent(db.runs[step.runId], step, StepCreated);
    assert PutStep(db, step, StepCreated) == Logged(changed, event);
    if other != id {
      OtherStepsFit(db, step, other);
    } else {
      UnbornStep(db, id);
      BornAfter(changed, event, id);
      if step.parentId.Some? {
        assert StepFits(db, step.parentId.value);
        BornAfter(changed, event, step.parentId.value);
      }
    }
  }

  lemma OtherStepsFit(db: Db, step: AgentStep, other: Id)
    requires Valid(db) && step.runId in db.runs && step.id !in db.steps && other in db.steps
    ensures StepFits(PutStep(db, step, StepCreated), other)
  {
    var changed := db.(steps := db.steps[step.id := step]);
    var event := StepEvent(db.runs[step.runId], step, StepCreated);
    assert StepFits(db, other);
    BornAfter(changed, event, other);
    if db.steps[other].parentId.Some? { BornAfter(changed, event, db.steps[other].parentId.value); }
  }

  lemma CreateStepKeepsValid(db: Db, id: Id, input: StepInput, now: Time)
    requires Valid(db) && StepObstacle(db, id, input).None?
    ensures Valid(PutStep(db, NewStep(db, id, input, now), StepCreated))
  {
    var step := NewStep(db, id, input, now);
    var r := PutStep(db, step, StepCreated);
    CreateStepKeepsFaithful(db, step);
    forall other | other in r.steps ensures StepFits(r, other) {
      StepsFitAfterCreate(db, id, input, now, other);
    }
  }

  lemma CreateStepKeepsFaithful(db: Db, step: AgentStep)
    requires Valid(db) && step.id !in db.steps && step.runId in db.runs
    ensures Faithful(PutStep(db, step, StepCreated))
  {
    RowsAfterStep(db, step, StepCreated);
    hide Faithful, RowAt, HomeRun;
    LoggedKeepsFaithful(db, db.(steps := db.steps[step.id := step]), StepEvent(db.runs[step.runId], step, StepCreated));
  }

  lemma CreateArtifactKeepsValid(db: Db, artifact: AgentArtifact)
    requires Valid(db) && artifact.id !in db.artifacts
    requires artifact.stepId in db.steps && db.steps[artifact.stepId].runId in db.runs
    ensures Valid(Logged(db.(artifacts := db.artifacts[artifact.id := artifact]),
                         ArtifactEvent(db.runs[db.steps[artifact.stepId].runId], db.steps[artifact.stepId], artifact)))
  {
    var changed := db.(artifacts := db.artifacts[artifact.id := artifact]);
    var input := ArtifactEvent(db.runs[db.steps[artifact.stepId].runId], db.steps[artifact.stepId], artifact);
    CreateArtifactKeepsFaithful(db, artifact);
    SameStepsStayValid(db, changed, input);
    hide Faithful, StepFits;
  }

  lemma CreateArtifactKeepsFaithful(db: Db, artifact: AgentArtifact)
    requires Valid(db) && artifact.id !in db.artifacts
    requires artifact.stepId in db.steps && db.steps[artifact.stepId].runId in db.runs
    ensures Faithful(Logged(db.(artifacts := db.artifacts[artifact.id := artifact]),
                            ArtifactEvent(db.runs[db.steps[artifact.stepId].runId], db.steps[artifact.stepId], artifact)))
  {
    var changed := db.(artifacts := db.artifacts[artifact.id := artifact]);
    var payload := ArtifactPayload(artifact);
    assert forall key :: RowAt(changed, key) == if KeyOf(payload) == Some(key) then Some(payload) else RowAt(db, key);
    assert forall key :: HomeRun(changed, key) == HomeRun(db, key);
    hide Faithful, RowAt, StepFits;
    LoggedKeepsFaithful(db, changed, ArtifactEvent(db.runs[db.steps[artifact.stepId].runId], db.steps[artifact.stepId], artifact));
  }

  /** An event that touches neither runs nor steps leaves what holds between them. */
  lemma SameStepsStayValid(db: Db, changed: Db, input: EventInput)
    requires Valid(db)
    requires changed.steps == db.steps && changed.runs == db.runs && changed.packs == db.packs && changed.log == db.log
    requires !input.payload.StepPayload?
    ensures forall id :: id in changed.steps ==> StepFits(Logged(changed, input), id)
  {
    forall id | id in changed.steps ensures StepFits(Logged(changed, input), id) {
      assert StepFits(db, id);
      BornAfter(changed, input, id);
      if db.steps[id].parentId.Some? { BornAfter(changed, input, db.steps[id].parentId.value); }
    }
  }

  lemma AddPackKeepsValid(db: Db, packId: Id, repositoryId: Id)
    requires Valid(db) && packId !in db.packs
    ensures Valid(db.(packs := db.packs[packId := repositoryId]))
  {
    var r := db.(packs := db.packs[packId := repositoryId]);
    assert Faithful(r) by {
      forall key ensures RowAt(r, key) == LastPayload(r.log, key) {
        assert RowAt(r, key) == RowAt(db, key);
      }
      assert forall key :: HomeRun(r, key) == HomeRun(db, key);
    }
    forall id | id in r.steps ensures StepFits(r, id) {
      assert StepFits(db, id);
    }
  }

  lemma StepChangeKeepsValid(db: Db, op: Op)
    requires Valid(db) && (op.MarkStepRunning? || op.MarkStepActivity? || op.MarkStepFinished?) && Eval(db, op).Ok?
    ensures Valid(Next(db, op))
  {
    var step := Next(db, op).steps[op.stepId];
    assert StepFits(db, op.stepId);
    UpdateStepKeepsValid(db, step, if op.MarkStepActivity? then StepActivityChanged else StepStatusChanged);
  }

  lemma RunChangeKeepsValid(db: Db, op: Op)
    requires Valid(db) && (op.CreateRun? || op.MarkRunRunning? || op.MarkRunFinished?) && Eval(db, op).Ok?
    ensures Valid(Next(db, op))
  {
    var id := if op.CreateRun? then op.id else op.runId;
    PutRunKeepsValid(db, Next(db, op).runs[id], if op.CreateRun? then RunCreated else RunStatusChanged);
  }

  lemma NextKeepsValid(db: Db, op: Op)
    requires Valid(db)
    ensures Valid(Next(db, op))
  {
    if Eval(db, op).Ok? {
      match op
      case CreateRun(_, _, _, _, _, _, _) => RunChangeKeepsValid(db, op);
      case MarkRunRunning(_, _) => RunChangeKeepsValid(db, op);
      case MarkRunFinished(_, _, _) => RunChangeKeepsValid(db, op);
      case CreateStep(id, input, now) => CreateStepKeepsValid(db, id, input, now);
      case MarkStepRunning(_, _, _) => StepChangeKeepsValid(db, op);
      case MarkStepActivity(_, _, _) => StepChangeKeepsValid(db, op);
      case MarkStepFinished(_, _, _, _, _) => StepChangeKeepsValid(db, op);
      case CreateArtifact(id, stepId, artifactType, uri, contentHash, now) =>
        CreateArtifactKeepsValid(db, AgentArtifact(id, stepId, artifactType, uri, contentHash, now));
      case AddContextPack(packId, repositoryId) => AddPackKeepsValid(db, packId, repositoryId);
      case OtherEvent(event) =>
        if Foreign(event.payload) {
          LoggedKeepsFaithful(db, db, event);
          SameStepsStayValid(db, db, event);
        }
    }
  }

  lemma NextOnlyAppends(db: Db, op: Op)
    ensures db.log <= Next(db, op).log
  {
  }

  lemma {:induction false} RunKeepsValid(db: Db, ops: seq<Op>)
    requires Valid(db)
    ensures Valid(Run(db, ops))
    ensures db.log <= Run(db, ops).log
    decreases |ops|
  {
    if ops != [] {
      RunKeepsValid(db, ops[..|ops| - 1]);
      NextKeepsValid(Run(db, ops[..|ops| - 1]), ops[|ops| - 1]);
      NextOnlyAppends(Run(db, ops[..|ops| - 1]), ops[|ops| - 1]);
    }
  }

  lemma EmptyIsValid()
    ensures Valid(EMPTY)
  {
  }

  // ---- What the invariant means --------------------------------------------------------

  /** The event log is a faithful event source: replaying it rebuilds every row of every table. */
  lemma {:induction false} TablesAreTheLastEvents(ops: seq<Op>, key: Key)
    ensures var db := Run(EMPTY, ops);
            RowAt(db, key) == LastPayload(db.log, key)
  {
    EmptyIsValid();
    RunKeepsValid(EMPTY, ops);
  }

  /** Steps from an ancestor down to a descendant, each the parent of the next. */
  ghost predicate Lineage(db: Db, path: seq<Id>) {
    && (forall i :: 0 <= i < |path| ==> path[i] in db.steps)
    && (forall i :: 0 < i < |path| ==> db.steps[path[i]].parentId == Some(path[i - 1]))
  }

  lemma {:induction false} LineageDescends(db: Db, path: seq<Id>, i: nat, j: nat)
    requires Valid(db) && Lineage(db, path) && i < j < |path|
    ensures Born(db.log, path[i]) < Born(db.log, path[j])
    ensures db.steps[path[j]].runId == db.steps[path[i]].runId
    ensures db.steps[path[i]].contextPackId.Some? ==> db.steps[path[j]].contextPackId == db.steps[path[i]].contextPackId
    decreases j
  {
    assert StepFits(db, path[j]);
    assert db.steps[path[j]].parentId == Some(path[j - 1]);
    if i < j - 1 {
      LineageDescends(db, path, i, j - 1);
    }
  }

  /**
   * In every reachable state the steps form a forest inside their runs: no step is its own ancestor,
   * a lineage stays inside one run, everything below a step bound to a context pack is bound to that
   * pack, and that pack is one of the run's repository if the run has one.
   */
  lemma {:induction false} StepsFormAForest(ops: seq<Op>, path: seq<Id>, i: nat, j: nat)
    requires Lineage(Run(EMPTY, ops), path) && i < j < |path|
    ensures var db := Run(EMPTY, ops);
            && path[i] != path[j]
            && db.steps[path[j]].runId == db.steps[path[i]].runId
            && (db.steps[path[i]].contextPackId.Some? ==>
                  && db.steps[path[j]].contextPackId == db.steps[path[i]].contextPackId
                  && db.steps[path[j]].contextPackId.value in db.packs
                  && db.steps[path[j]].runId in db.runs
                  && (db.runs[db.steps[path[j]].runId].repositoryId.Some? ==>
                        db.runs[db.steps[path[j]].runId].repositoryId.value == db.packs[db.steps[path[j]].contextPackId.value]))
  {
    EmptyIsValid();
    RunKeepsValid(EMPTY, ops);
    LineageDescends(Run(EMPTY, ops), path, i, j);
    assert StepFits(Run(EMPTY, ops), path[j]);
  }
}
