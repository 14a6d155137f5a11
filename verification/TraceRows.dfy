/**
 * The rows of the trace tables in one form, with what the database does to them: an update sends the
 * columns whose values changed, and an insertion has to meet the constraints of its table.
 */
module TraceRows {
  import opened Domain
  import opened EventReads
  import opened TraceStore

  // ---- What a call wants -------------------------------------------------------------------

  predicate IsMark(op: Op) {
    op.MarkRunRunning? || op.MarkRunFinished? || op.MarkStepRunning? || op.MarkStepActivity? || op.MarkStepFinished?
  }

  /** The calls that write a row and append the event with it. */
  predicate IsCall(op: Op) {
    IsMark(op) || op.CreateRun? || op.CreateStep? || op.CreateArtifact?
  }

  function KeyOfCall(op: Op): Key
    requires IsCall(op)
  {
    match op
    case CreateRun(id, _, _, _, _, _, _) => RunKey(id)
    case MarkRunRunning(runId, _) => RunKey(runId)
    case MarkRunFinished(runId, _, _) => RunKey(runId)
    case CreateStep(id, _, _) => StepKey(id)
    case CreateArtifact(id, stepId, _, _, _, _) => ArtifactKey(stepId, id)
    case _ => StepKey(op.stepId)
  }

  /** The call passes its checks on what it reads. */
  predicate Accepts(db: Db, op: Op) {
    IsCall(op) && Eval(db, op).Ok?
  }

  /** The event, with the row, that the call appends if nothing interferes. */
  function Wanted(db: Db, op: Op): EventInput
    requires Accepts(db, op)
  {
    WantedGrows(db, op);
    Unstamp(Next(db, op).log[|db.log|])
  }

  lemma WantedGrows(db: Db, op: Op)
    requires Accepts(db, op)
    ensures |Next(db, op).log| == |db.log| + 1
  {
  }

  // ---- Rows --------------------------------------------------------------------------------

  function Put(db: Db, row: Payload): Db {
    match row
    case RunPayload(run) => db.(runs := db.runs[run.id := run])
    case StepPayload(step) => db.(steps := db.steps[step.id := step])
    case ArtifactPayload(artifact) => db.(artifacts := db.artifacts[artifact.id := artifact])
    case _ => db
  }

  function Pick<T(==)>(current: T, read: T, wanted: T): T {
    if wanted != read then wanted else current
  }

  /** The columns that differ from what was read are written over the row as it is now. */
  function Updated(current: Payload, read: Payload, wanted: Payload): Payload {
    match (current, read, wanted)
    case (RunPayload(now), RunPayload(was), RunPayload(new_)) =>
      RunPayload(now.(status := Pick(now.status, was.status, new_.status),
                      startedAt := Pick(now.startedAt, was.startedAt, new_.startedAt),
                      finishedAt := Pick(now.finishedAt, was.finishedAt, new_.finishedAt)))
    case (StepPayload(now), StepPayload(was), StepPayload(new_)) =>
      StepPayload(now.(status := Pick(now.status, was.status, new_.status),
                       activity := Pick(now.activity, was.activity, new_.activity),
                       startedAt := Pick(now.startedAt, was.startedAt, new_.startedAt),
                       finishedAt := Pick(now.finishedAt, was.finishedAt, new_.finishedAt),
                       outputSummary := Pick(now.outputSummary, was.outputSummary, new_.outputSummary),
                       warningSummary := Pick(now.warningSummary, was.warningSummary, new_.warningSummary)))
    case _ => current
  }

  /** Two states of one row: they differ only in columns that marks may write. */
  predicate SameRow(a: Payload, b: Payload) {
    Updated(b, b, a) == a
  }

  lemma UpdatedIsSameRow(current: Payload, read: Payload, wanted: Payload)
    ensures SameRow(current, Updated(current, read, wanted)) && KeyOf(Updated(current, read, wanted)) == KeyOf(current)
    ensures read == wanted ==> Updated(current, read, wanted) == current
  {
  }

  lemma SameRowIsEquivalence(a: Payload, b: Payload, c: Payload)
    requires SameRow(a, b)
    ensures SameRow(a, a) && SameRow(b, a) && KeyOf(a) == KeyOf(b)
    ensures SameRow(b, c) ==> SameRow(a, c)
  {
  }

  /** Two rows that cannot both be inserted. */
  predicate Clash(a: Payload, b: Payload) {
    || (a.RunPayload? && b.RunPayload? && a.run.id == b.run.id)
    || (a.ArtifactPayload? && b.ArtifactPayload? && a.artifact.id == b.artifact.id)
    || (a.StepPayload? && b.StepPayload?
        && (a.step.id == b.step.id || (a.step.runId == b.step.runId && a.step.sequence == b.step.sequence)))
  }

  /** No committed row stands against the insertion. */
  predicate Insertable(db: Db, row: Payload) {
    match row
    case RunPayload(run) => run.id !in db.runs
    case StepPayload(step) =>
      step.id !in db.steps && forall id :: id in db.steps ==> db.steps[id].runId != step.runId || db.steps[id].sequence != step.sequence
    case ArtifactPayload(artifact) => artifact.id !in db.artifacts
    case _ => false
  }

  /** A new step as the input that asks for it. */
  function InputOf(step: AgentStep): StepInput {
    StepInput(step.runId, step.stepType, step.sequence, step.parentId, step.contextPackId, step.iteration, step.status,
              step.activity, step.inputSummary, step.outputSummary, step.warningSummary)
  }

  /** What the row refers to is there, and the rules between them hold. */
  predicate Placed(db: Db, row: Payload) {
    match row
    case RunPayload(run) => true
    case StepPayload(step) =>
      var obstacle := StepObstacle(db, step.id, InputOf(step));
      && (obstacle.None? || obstacle == Some(SequenceTaken) || obstacle == Some(IdTaken))
      && step == NewStep(db, step.id, InputOf(step), step.createdAt)
    case ArtifactPayload(artifact) => artifact.stepId in db.steps && db.steps[artifact.stepId].runId in db.runs
    case _ => false
  }

  function BirthKind(row: Payload): EventKind {
    match row
    case RunPayload(_) => RunCreated
    case StepPayload(_) => StepCreated
    case _ => ArtifactCreated
  }

  /** The run, step and so on that an event about the row is recorded under. */
  function ScopeOf(db: Db, row: Payload): Option<Scope> {
    match row
    case RunPayload(run) => Some(RunEvent(run, RunCreated).scope)
    case StepPayload(step) =>
      if step.runId in db.runs then Some(StepEvent(db.runs[step.runId], step, StepCreated).scope) else None
    case ArtifactPayload(artifact) =>
      if artifact.stepId in db.steps && db.steps[artifact.stepId].runId in db.runs
      then Some(ArtifactEvent(db.runs[db.steps[artifact.stepId].runId], db.steps[artifact.stepId], artifact).scope) else None
    case _ => None
  }

  /** Rows are stored under their own identifiers, and a step's run is there. */
  ghost predicate Keyed(db: Db) {
    && (forall id :: id in db.runs ==> db.runs[id].id == id)
    && (forall id :: id in db.steps ==> db.steps[id].id == id && db.steps[id].runId in db.runs)
    && (forall id :: id in db.artifacts ==> db.artifacts[id].id == id)
  }

  /** A mark changes a row that is there, in columns it may write; a creation inserts one. */
  lemma CallFacts(db: Db, op: Op)
    requires Keyed(db) && Accepts(db, op)
    ensures var w, row := Wanted(db, op), RowAt(db, KeyOfCall(op));
            && KeyOf(w.payload) == Some(KeyOfCall(op)) && ScopeOf(db, w.payload) == Some(w.scope)
            && (if IsMark(op) then row.Some? && SameRow(row.value, w.payload)
                else row.None? && Insertable(db, w.payload) && Placed(db, w.payload) && w.kind == BirthKind(w.payload))
            && Next(db, op) == Logged(Put(db, w.payload), w)
  {
    if IsMark(op) { MarkFacts(db, op); } else { CreationFacts(db, op); }
  }

  lemma MarkFacts(db: Db, op: Op)
    requires Keyed(db) && Accepts(db, op) && IsMark(op)
    ensures var w, row := Wanted(db, op), RowAt(db, KeyOfCall(op));
            && KeyOf(w.payload) == Some(KeyOfCall(op)) && ScopeOf(db, w.payload) == Some(w.scope)
            && row.Some? && SameRow(row.value, w.payload)
            && Next(db, op) == Logged(Put(db, w.payload), w)
  {
    hide StepObstacle, NewStep;
  }

  lemma CreationFacts(db: Db, op: Op)
    requires Keyed(db) && Accepts(db, op) && !IsMark(op)
    ensures var w, row := Wanted(db, op), RowAt(db, KeyOfCall(op));
            && KeyOf(w.payload) == Some(KeyOfCall(op)) && ScopeOf(db, w.payload) == Some(w.scope)
            && row.None? && Insertable(db, w.payload) && Placed(db, w.payload) && w.kind == BirthKind(w.payload)
            && Next(db, op) == Logged(Put(db, w.payload), w)
  {
    hide Updated, StartedStep, FinishedStep;
  }

  // ---- Tables that grow --------------------------------------------------------------------

  /** Rows stay, up to the columns that marks write, and so do the events. */
  ghost predicate Grown(a: Db, b: Db) {
    && a.log <= b.log
    && (forall key :: RowAt(a, key).Some? ==> RowAt(b, key).Some? && SameRow(RowAt(a, key).value, RowAt(b, key).value))
    && (forall p :: p in a.packs ==> p in b.packs && b.packs[p] == a.packs[p])
  }

  lemma GrownIsTransitive(a: Db, b: Db, c: Db)
    requires Grown(a, b) && Grown(b, c)
    ensures Grown(a, c)
  {
    hide Updated;
    forall key | RowAt(a, key).Some?
      ensures RowAt(c, key).Some? && SameRow(RowAt(a, key).value, RowAt(c, key).value)
    {
      SameRowIsEquivalence(RowAt(a, key).value, RowAt(b, key).value, RowAt(c, key).value);
    }
  }

  lemma GrownIsReflexive(a: Db)
    ensures Grown(a, a)
  {
  }

  /** What a step refers to keeps what the rules and the scope are about. */
  lemma StepStays(a: Db, b: Db, id: Id)
    requires Grown(a, b) && id in a.steps
    ensures id in b.steps && b.steps[id].(status := a.steps[id].status, activity := a.steps[id].activity,
                                          startedAt := a.steps[id].startedAt, finishedAt := a.steps[id].finishedAt,
                                          outputSummary := a.steps[id].outputSummary,
                                          warningSummary := a.steps[id].warningSummary) == a.steps[id]
  {
    assert RowAt(a, StepKey(id)).Some?;
  }

  lemma RunStays(a: Db, b: Db, id: Id)
    requires Grown(a, b) && id in a.runs
    ensures id in b.runs && b.runs[id].(status := a.runs[id].status, startedAt := a.runs[id].startedAt,
                                        finishedAt := a.runs[id].finishedAt) == a.runs[id]
  {
    assert RowAt(a, RunKey(id)).Some?;
  }

  lemma HomeStays(a: Db, b: Db, key: Key)
    requires Grown(a, b) && HomeRun(a, key).Some?
    ensures HomeRun(b, key) == HomeRun(a, key)
  {
    match key
    case RunKey(_) =>
    case StepKey(id) => StepStays(a, b, id);
    case ArtifactKey(stepId, _) => StepStays(a, b, stepId);
  }

  /** A row that may be placed now may be placed later, and its event keeps its scope. */
  lemma PlacedStays(a: Db, b: Db, row: Payload)
    requires Grown(a, b)
    ensures ScopeOf(a, row).Some? ==> ScopeOf(b, row) == ScopeOf(a, row)
    ensures Placed(a, row) ==> Placed(b, row)
  {
    match row
    case RunPayload(_) =>
    case StepPayload(step) =>
      if step.runId in a.runs { RunStays(a, b, step.runId); }
      if step.parentId.Some? && step.parentId.value in a.steps { StepStays(a, b, step.parentId.value); }
      hide Grown;
    case ArtifactPayload(artifact) =>
      if artifact.stepId in a.steps {
        StepStays(a, b, artifact.stepId);
        if a.steps[artifact.stepId].runId in a.runs { RunStays(a, b, a.steps[artifact.stepId].runId); }
      }
      hide Grown;
    case _ =>
  }

  /** The write of a mark, or an insertion that nothing stands against. */
  ghost predicate MayPut(db: Db, row: Payload) {
    KeyOf(row).Some? &&
    var was := RowAt(db, KeyOf(row).value);
    if was.Some? then SameRow(was.value, row) else Insertable(db, row) && Placed(db, row)
  }

  lemma RowsAfterPut(db: Db, row: Payload, key: Key)
    requires Keyed(db) && MayPut(db, row)
    ensures RowAt(Put(db, row), key) == if KeyOf(row) == Some(key) then Some(row) else RowAt(db, key)
  {
    hide Updated, Placed;
  }

  lemma PutKeepsKeyed(db: Db, row: Payload)
    requires Keyed(db) && MayPut(db, row)
    ensures Keyed(Put(db, row)) && Put(db, row).packs == db.packs && Put(db, row).log == db.log
  {
  }

  lemma PutGrows(db: Db, row: Payload, input: EventInput)
    requires Keyed(db) && MayPut(db, row)
    ensures Grown(db, Logged(Put(db, row), input)) && Keyed(Logged(Put(db, row), input))
  {
    PutKeepsKeyed(db, row);
    var put := Put(db, row);
    var r := Logged(put, input);
    hide Updated, Placed, Put, Keyed;
    forall key | RowAt(db, key).Some? ensures RowAt(r, key).Some? && SameRow(RowAt(db, key).value, RowAt(r, key).value) {
      RowsAfterPut(db, row, key);
      assert RowAt(r, key) == RowAt(put, key);
      IsSameRow(RowAt(db, key).value);
    }
  }

  lemma IsSameRow(a: Payload)
    ensures SameRow(a, a)
  {
  }

  /** An insertion that does not clash with the row can still follow. */
  lemma InsertableStays(db: Db, row: Payload, other: Payload)
    requires Keyed(db) && MayPut(db, row) && Insertable(db, other)
    requires RowAt(db, KeyOf(row).value).Some? || !Clash(row, other)
    ensures Insertable(Put(db, row), other)
  {
  }
}
