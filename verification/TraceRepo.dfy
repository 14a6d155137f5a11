/** The repository object of agent traces. Every method is one transaction over the tables and the log. */
module TraceRepo {
  import opened Domain
  import opened TraceStore

  /** The steps of a run as `list_steps_for_run` orders them. */
  ghost predicate StepListing(rows: seq<AgentStep>, db: Db, run: Id) {
    && (forall i, j :: 0 <= i < j < |rows| ==> rows[i].id != rows[j].id && rows[i].sequence <= rows[j].sequence)
    && (forall row :: row in rows <==> row.id in db.steps && db.steps[row.id] == row && row.runId == run)
  }

  /** The artifacts of a run, ordered by the sequence of their step and then by creation time. */
  ghost predicate ArtifactListing(rows: seq<AgentArtifact>, db: Db, run: Id) {
    && (forall row :: row in rows <==>
          row.id in db.artifacts && db.artifacts[row.id] == row && row.stepId in db.steps && db.steps[row.stepId].runId == run)
    && (forall i, j :: 0 <= i < j < |rows| ==> rows[i].id != rows[j].id && ArtifactBefore(db.steps, rows[i], rows[j]))
  }

  predicate ArtifactBefore(steps: map<Id, AgentStep>, a: AgentArtifact, b: AgentArtifact) {
    && a.stepId in steps && b.stepId in steps
    && (steps[a.stepId].sequence < steps[b.stepId].sequence
        || (steps[a.stepId].sequence == steps[b.stepId].sequence && a.createdAt <= b.createdAt))
  }

  lemma {:induction false} FirstArtifactExists(todo: set<Id>, artifacts: map<Id, AgentArtifact>, steps: map<Id, AgentStep>)
    requires todo != {} && todo <= artifacts.Keys
    requires forall id :: id in todo ==> artifacts[id].stepId in steps
    ensures exists id :: id in todo && forall other :: other in todo ==> ArtifactBefore(steps, artifacts[id], artifacts[other])
    decreases |todo|
  {
    var id :| id in todo;
    var rest := todo - {id};
    var least := id;
    if rest != {} {
      FirstArtifactExists(rest, artifacts, steps);
      var first :| first in rest && forall other :: other in rest ==> ArtifactBefore(steps, artifacts[first], artifacts[other]);
      if !ArtifactBefore(steps, artifacts[id], artifacts[first]) {
        least := first;
      }
    }
    forall other | other in todo ensures ArtifactBefore(steps, artifacts[least], artifacts[other]) {
      assert other == id || other in rest;
    }
  }

  /** A listing of the run's steps under way: `todo` is still to come, and comes later in the order. */
  ghost predicate StepsListed(rows: seq<AgentStep>, steps: map<Id, AgentStep>, run: Id, todo: set<Id>) {
    && todo <= steps.Keys
    && (forall id :: id in todo ==> steps[id].id == id && steps[id].runId == run)
    && (forall i, j :: 0 <= i < j < |rows| ==> rows[i].id != rows[j].id && rows[i].sequence <= rows[j].sequence)
    && (forall row, id :: row in rows && id in todo ==> row.sequence <= steps[id].sequence)
    && (forall row :: row in rows <==> row.id in steps && steps[row.id] == row && row.runId == run && row.id !in todo)
  }

  predicate ComesFirst(steps: map<Id, AgentStep>, todo: set<Id>, id: Id)
    requires todo <= steps.Keys
  {
    id in todo && forall other :: other in todo ==> steps[id].sequence <= steps[other].sequence
  }

  lemma FirstStepExists(todo: set<Id>, steps: map<Id, AgentStep>)
    requires todo != {} && todo <= steps.Keys
    ensures exists id :: id in todo && ComesFirst(steps, todo, id)
  {
    LeastExists(todo, map id | id in steps :: steps[id].sequence);
    var id :| id in todo && forall other :: other in todo ==> steps[id].sequence <= steps[other].sequence;
    assert ComesFirst(steps, todo, id);
  }

  lemma ListNextStep(rows: seq<AgentStep>, steps: map<Id, AgentStep>, run: Id, todo: set<Id>, id: Id)
    requires StepsListed(rows, steps, run, todo) && ComesFirst(steps, todo, id)
    ensures StepsListed(rows + [steps[id]], steps, run, todo - {id})
  {
    assert forall i :: 0 <= i < |rows| ==> rows[i] in rows;
  }

  lemma ListingStarts(steps: map<Id, AgentStep>, run: Id, todo: set<Id>)
    requires forall id :: id in steps ==> steps[id].id == id
    requires todo == set id | id in steps && steps[id].runId == run
    ensures StepsListed([], steps, run, todo)
  {
  }

  lemma ListingEnds(rows: seq<AgentStep>, db: Db, run: Id)
    requires StepsListed(rows, db.steps, run, {})
    ensures StepListing(rows, db, run)
  {
  }

  ghost predicate ArtifactsListed(rows: seq<AgentArtifact>, artifacts: map<Id, AgentArtifact>, steps: map<Id, AgentStep>, run: Id, todo: set<Id>) {
    && todo <= artifacts.Keys
    && (forall id :: id in todo ==> artifacts[id].id == id && artifacts[id].stepId in steps && steps[artifacts[id].stepId].runId == run)
    && (forall i, j :: 0 <= i < j < |rows| ==> rows[i].id != rows[j].id && ArtifactBefore(steps, rows[i], rows[j]))
    && (forall row, id :: row in rows && id in todo ==> ArtifactBefore(steps, row, artifacts[id]))
    && (forall row :: row in rows <==>
          row.id in artifacts && artifacts[row.id] == row && row.stepId in steps && steps[row.stepId].runId == run && row.id !in todo)
  }

  lemma ListNextArtifact(rows: seq<AgentArtifact>, artifacts: map<Id, AgentArtifact>, steps: map<Id, AgentStep>, run: Id, todo: set<Id>, id: Id)
    requires ArtifactsListed(rows, artifacts, steps, run, todo)
    requires id in todo && forall other :: other in todo ==> ArtifactBefore(steps, artifacts[id], artifacts[other])
    ensures ArtifactsListed(rows + [artifacts[id]], artifacts, steps, run, todo - {id})
  {
    assert forall i :: 0 <= i < |rows| ==> rows[i] in rows;
  }

  lemma CreateStepOutcome(db: Db, id: Id, input: StepInput, now: Time)
    ensures Next(db, Op.CreateStep(id, input, now)) ==
            if StepObstacle(db, id, input).None? then PutStep(db, NewStep(db, id, input, now), StepCreated) else db
  {
    hide StepObstacle, NewStep;
    NewStepRun(db, id, input, now);
  }

  lemma NewStepRun(db: Db, id: Id, input: StepInput, now: Time)
    ensures NewStep(db, id, input, now).runId == input.runId
    ensures StepObstacle(db, id, input).None? ==> input.runId in db.runs
  {
  }

  lemma NewStepFields(db: Db, id: Id, input: StepInput, now: Time)
    ensures NewStep(db, id, input, now) ==
            AgentStep(id, input.runId, input.parentId, EffectivePack(db, input), input.stepType, input.status, input.activity,
                      input.sequence, input.iteration, input.inputSummary, input.outputSummary, input.warningSummary, None, None, now)
  {
  }

  class AgentTraceRepo {
    var runs: map<Id, AgentRun>
    var steps: map<Id, AgentStep>
    var artifacts: map<Id, AgentArtifact>
    var packs: map<Id, Id>
    var log: seq<Event>

    ghost function View(): Db
      reads this
    {
      Db(runs, steps, artifacts, packs, log)
    }

    /** Rows are stored under their own identifiers, and a step's run is there: keys and foreign keys. */
    ghost predicate Keyed()
      reads this
    {
      && (forall id :: id in runs ==> runs[id].id == id)
      && (forall id :: id in steps ==> steps[id].id == id && steps[id].runId in runs)
      && (forall id :: id in artifacts ==> artifacts[id].id == id)
    }

    constructor ()
      ensures View() == EMPTY && Keyed()
    {
      runs, steps, artifacts, packs, log := map[], map[], map[], map[], [];
    }

    method AppendEvent(input: EventInput)
      modifies this`log
      ensures View() == Logged(old(View()), input)
    {
      log := log + [Stamp(input, |log| + 1)];
    }

    method CreateRun(id: Id, jobId: Option<Id>, repositoryId: Option<Id>, runType: string, status: AgentStatus,
                     modelProfile: Option<string>, now: Time) returns (r: Result<AgentRun, TraceError>)
      requires Keyed()
      modifies this
      ensures Keyed()
      ensures View() == Next(old(View()), Op.CreateRun(id, jobId, repositoryId, runType, status, modelProfile, now))
      ensures r == if id in old(runs) then Err(IdTaken)
                   else Ok(AgentRun(id, jobId, repositoryId, runType, status, modelProfile, None, None, now))
    {
      if id in runs {
        return Err(IdTaken);
      }
      var run := AgentRun(id, jobId, repositoryId, runType, status, modelProfile, None, None, now);
      runs := runs[id := run];
      AppendEvent(RunEvent(run, RunCreated));
      return Ok(run);
    }

    method MarkRunRunning(runId: Id, now: Time) returns (r: Result<AgentRun, TraceError>)
      requires Keyed()
      modifies this
      ensures Keyed()
      ensures View() == Next(old(View()), Op.MarkRunRunning(runId, now))
      ensures r == if runId in old(runs) then Ok(runs[runId]) else Err(RunNotFound)
    {
      if runId !in runs {
        return Err(RunNotFound);
      }
      var run := runs[runId].(status := Running);
      run := run.(startedAt := OrNow(run.startedAt, now));
      runs := runs[runId := run];
      AppendEvent(RunEvent(run, RunStatusChanged));
      return Ok(run);
    }

    method MarkRunFinished(runId: Id, status: AgentStatus, now: Time) returns (r: Result<AgentRun, TraceError>)
      requires Keyed()
      modifies this
      ensures Keyed()
      ensures View() == Next(old(View()), Op.MarkRunFinished(runId, status, now))
      ensures r == if runId in old(runs) then Ok(runs[runId]) else Err(RunNotFound)
    {
      if runId !in runs {
        return Err(RunNotFound);
      }
      var run := runs[runId].(status := status);
      run := run.(finishedAt := Some(now));
      runs := runs[runId := run];
      AppendEvent(RunEvent(run, RunStatusChanged));
      return Ok(run);
    }

    /** The checks before a step is inserted; the context pack is the one the step will be bound to. */
    method CheckPack(input: StepInput) returns (pack: Option<Id>, obstacle: Option<TraceError>)
      requires input.runId in runs
      ensures pack == EffectivePack(View(), input)
      ensures obstacle ==
              if input.parentId.Some? && input.parentId.value !in steps then Some(ParentNotFound)
              else if input.parentId.Some? && steps[input.parentId.value].runId != input.runId then Some(ParentInOtherRun)
              else if pack.Some? && pack.value !in packs then Some(PackNotFound)
              else if pack.Some? && input.parentId.Some? && steps[input.parentId.value].contextPackId.Some?
                      && steps[input.parentId.value].contextPackId != pack then Some(PackDiffersFromParent)
              else if pack.Some? && runs[input.runId].repositoryId.Some?
                      && runs[input.runId].repositoryId.value != packs[pack.value] then Some(PackInOtherRepository)
              else None
    {
      pack := input.contextPackId;
      if input.parentId.Some? {
        var parent := input.parentId.value;
        if parent !in steps {
          return pack, Some(ParentNotFound);
        }
        if pack.None? {
          pack := steps[parent].contextPackId;
        }
        if steps[parent].runId != input.runId {
          return pack, Some(ParentInOtherRun);
        }
      }
      obstacle := None;
      if pack.Some? {
        if pack.value !in packs {
          obstacle := Some(PackNotFound);
        } else if input.parentId.Some? && steps[input.parentId.value].contextPackId.Some?
                  && steps[input.parentId.value].contextPackId != pack {
          obstacle := Some(PackDiffersFromParent);
        } else if runs[input.runId].repositoryId.Some? && runs[input.runId].repositoryId.value != packs[pack.value] {
          obstacle := Some(PackInOtherRepository);
        }
      }
    }

    method CreateStep(id: Id, input: StepInput, now: Time) returns (r: Result<AgentStep, TraceError>)
      requires Keyed()
      modifies this
      ensures Keyed()
      ensures View() == Next(old(View()), Op.CreateStep(id, input, now))
      ensures r == var obstacle := StepObstacle(old(View()), id, input);
                   if obstacle.Some? then Err(obstacle.value) else Ok(NewStep(old(View()), id, input, now))
    {
      CreateStepOutcome(View(), id, input, now);
      hide Next, NewStep, EffectivePack, Eval;
      if input.iteration.Some? && input.iteration.value < 1 {
        return Err(BadIteration);
      }
      if input.runId !in runs {
        return Err(RunNotFound);
      }
      var pack, obstacle := CheckPack(input);
      if obstacle.Some? {
        return Err(obstacle.value);
      }
      if exists other :: other in steps && steps[other].runId == input.runId && steps[other].sequence == input.sequence {
        return Err(SequenceTaken);
      }
      if id in steps {
        return Err(IdTaken);
      }
      var step := AgentStep(id, input.runId, input.parentId, pack, input.stepType, input.status, input.activity, input.sequence,
                            input.iteration, input.inputSummary, input.outputSummary, input.warningSummary, None, None, now);
      NewStepFields(View(), id, input, now);
      steps := steps[id := step];
      AppendEvent(StepEvent(runs[input.runId], step, StepCreated));
      return Ok(step);
    }

    method MarkStepRunning(stepId: Id, activity: Option<string>, now: Time) returns (r: Result<AgentStep, TraceError>)
      requires Keyed()
      modifies this
      ensures Keyed()
      ensures View() == Next(old(View()), Op.MarkStepRunning(stepId, activity, now))
      ensures r == if stepId in old(steps) then Ok(steps[stepId]) else Err(StepNotFound)
    {
      if stepId !in steps {
        return Err(StepNotFound);
      }
      var step := steps[stepId].(status := Running, activity := activity);
      step := step.(startedAt := OrNow(step.startedAt, now));
      steps := steps[stepId := step];
      AppendEvent(StepEvent(runs[step.runId], step, StepStatusChanged));
      return Ok(step);
    }

    method MarkStepActivity(stepId: Id, activity: string, now: Time) returns (r: Result<AgentStep, TraceError>)
      requires Keyed()
      modifies this
      ensures Keyed()
      ensures View() == Next(old(View()), Op.MarkStepActivity(stepId, activity, now))
      ensures r == if stepId !in old(steps) then Err(StepNotFound)
                   else if old(steps)[stepId].finishedAt.Some? then Err(StepFinished)
                   else Ok(steps[stepId])
    {
      if stepId !in steps {
        return Err(StepNotFound);
      }
      if steps[stepId].finishedAt.Some? {
        return Err(StepFinished);
      }
      var step := steps[stepId].(status := Running, activity := Some(activity));
      step := step.(startedAt := OrNow(step.startedAt, now));
      steps := steps[stepId := step];
      AppendEvent(StepEvent(runs[step.runId], step, StepActivityChanged));
      return Ok(step);
    }

    method MarkStepFinished(stepId: Id, status: AgentStatus, outputSummary: Option<string>, warningSummary: Option<string>, now: Time)
      returns (r: Result<AgentStep, TraceError>)
      requires Keyed()
      modifies this
      ensures Keyed()
      ensures View() == Next(old(View()), Op.MarkStepFinished(stepId, status, outputSummary, warningSummary, now))
      ensures r == if stepId in old(steps) then Ok(steps[stepId]) else Err(StepNotFound)
    {
      if stepId !in steps {
        return Err(StepNotFound);
      }
      var step := steps[stepId].(status := status, activity := None);
      if outputSummary.Some? {
        step := step.(outputSummary := outputSummary.value);
      }
      if warningSummary.Some? {
        step := step.(warningSummary := warningSummary.value);
      }
      step := step.(finishedAt := Some(now));
      steps := steps[stepId := step];
      AppendEvent(StepEvent(runs[step.runId], step, StepStatusChanged));
      return Ok(step);
    }

    method CreateArtifact(id: Id, stepId: Id, artifactType: string, uri: string, contentHash: Option<string>, now: Time)
      returns (r: Result<AgentArtifact, TraceError>)
      requires Keyed()
      modifies this
      ensures Keyed()
      ensures View() == Next(old(View()), Op.CreateArtifact(id, stepId, artifactType, uri, contentHash, now))
      ensures r == if stepId !in old(steps) then Err(StepNotFound)
                   else if id in old(artifacts) then Err(IdTaken)
                   else Ok(AgentArtifact(id, stepId, artifactType, uri, contentHash, now))
    {
      if stepId !in steps {
        return Err(StepNotFound);
      }
      if id in artifacts {
        return Err(IdTaken);
      }
      var artifact := AgentArtifact(id, stepId, artifactType, uri, contentHash, now);
      artifacts := artifacts[id := artifact];
      AppendEvent(ArtifactEvent(runs[steps[stepId].runId], steps[stepId], artifact));
      return Ok(artifact);
    }

    method ListStepsForRun(run: Id) returns (rows: seq<AgentStep>)
      requires Keyed()
      ensures StepListing(rows, View(), run)
    {
      rows := [];
      var todo := set id | id in steps && steps[id].runId == run;
      ListingStarts(steps, run, todo);
      hide StepsListed, StepListing, Keyed, ComesFirst;
      while todo != {}
        invariant todo <= steps.Keys && StepsListed(rows, steps, run, todo)
        decreases |todo|
      {
        FirstStepExists(todo, steps);
        var id :| id in todo && ComesFirst(steps, todo, id);
        ListNextStep(rows, steps, run, todo, id);
        rows := rows + [steps[id]];
        todo := todo - {id};
      }
      ListingEnds(rows, View(), run);
    }

    method ListArtifactsForRun(run: Id) returns (rows: seq<AgentArtifact>)
      requires Keyed()
      ensures ArtifactListing(rows, View(), run)
    {
      rows := [];
      var todo := set id | id in artifacts && artifacts[id].stepId in steps && steps[artifacts[id].stepId].runId == run;
      while todo != {}
        invariant ArtifactsListed(rows, artifacts, steps, run, todo)
        decreases |todo|
      {
        FirstArtifactExists(todo, artifacts, steps);
        var id :| id in todo && forall other :: other in todo ==> ArtifactBefore(steps, artifacts[id], artifacts[other]);
        ListNextArtifact(rows, artifacts, steps, run, todo, id);
        rows := rows + [artifacts[id]];
        todo := todo - {id};
      }
    }
  }
}
