/** Which drift events trigger a job: those whose score lies within the limits the schedule has when they are evaluated. */
module TriggerScores {
  import opened Domain
  import opened Schedules
  import JobQueue

  /** The score lies at or above the minimum, and at or below the maximum if there is one. */
  predicate WithinLimits(s: State, eventId: Id)
    requires HasSchedule(s, eventId)
  {
    var score, schedule := s.events[eventId].score, s.schedules[s.events[eventId].repositoryId];
    schedule.minimum <= score && (schedule.maximum == None || score <= schedule.maximum.value)
  }

  /** The job that a matching event triggers, as it is queued. */
  function TriggeredJob(s: State, v: Evaluation, id: Id, now: Time): JobQueue.Job
    requires HasSchedule(s, v.eventId)
  {
    JobQueue.Job(id, Some(s.events[v.eventId].repositoryId), "generate_test", JobQueued, 0, 3, v.eventId, "{}", now, None, None, None,
                 Some("drift-trigger:" + v.scheduleId + ":" + v.eventId), None, now, now)
  }

  /** What one evaluation says, and the job it leaves. */
  ghost predicate FollowsTheScore(s: State, v: Evaluation, q: JobQueue.Queue, now: Time) {
    && HasSchedule(s, v.eventId) && v.scheduleId == s.schedules[s.events[v.eventId].repositoryId].id
    && (v.matched <==> WithinLimits(s, v.eventId))
    && (v.matched <==> v.jobId.Some?)
    && (v.matched ==> v.jobId.value in q.jobs && q.jobs[v.jobId.value] == TriggeredJob(s, v, v.jobId.value, now))
  }

  lemma OneFollows(s: State, eventId: Id, jobId: Id, now: Time)
    requires Valid(s) && HasSchedule(s, eventId) && EvaluateOne(s, eventId, jobId, now).Some?
    ensures var r := EvaluateOne(s, eventId, jobId, now).value;
            && |r.evaluations| == |s.evaluations| + 1 && r.evaluations[..|s.evaluations|] == s.evaluations
            && r.evaluations[|s.evaluations|].eventId == eventId
            && FollowsTheScore(s, r.evaluations[|s.evaluations|], r.queue, now)
            && (forall id :: id in s.queue.jobs ==> id in r.queue.jobs && r.queue.jobs[id] == s.queue.jobs[id])
  {
    var schedule := ScheduleOf(s, eventId);
    if ScoreMatches(s.events[eventId].score, schedule.minimum, schedule.maximum) {
      TriggerJobIsNew(s, eventId, jobId, now);
      NewTriggerJob(s, eventId, jobId, now);
    }
    hide Valid, JobQueue.Apply, TriggerKey;
  }

  lemma NewTriggerJob(s: State, eventId: Id, jobId: Id, now: Time)
    requires Valid(s) && HasSchedule(s, eventId) && !Evaluated(s, ScheduleOf(s, eventId).id, eventId)
    requires jobId !in s.queue.jobs
    ensures var q := JobQueue.Apply(s.queue, TriggerJob(s, eventId, jobId, now));
            jobId in q.jobs && q.jobs[jobId] == TriggeredJob(s, Evaluation(ScheduleOf(s, eventId).id, eventId, true, None), jobId, now)
  {
    var schedule := ScheduleOf(s, eventId);
    TriggerKeyIsStripped(schedule.id, eventId);
    forall other ensures !JobQueue.HasKey(s.queue, TriggerKey(schedule.id, eventId), other) {
      assert TriggerJobFits(s, schedule.id, eventId, other);
    }
    JobQueue.EnqueueAddsOne(s.queue, TriggerJob(s, eventId, jobId, now));
    hide JobQueue.Apply, JobQueue.Valid, Strip;
  }

  /** Within one tick the limits stay, and the jobs triggered before stay. */
  lemma {:induction false} AllFollow(s: State, rows: seq<Id>, jobIds: seq<Id>, now: Time, v: Evaluation)
    requires Valid(s) && |jobIds| >= |rows| && forall i :: 0 <= i < |rows| ==> HasSchedule(s, rows[i])
    requires EvaluateAll(s, rows, jobIds, now).Some?
    requires v in EvaluateAll(s, rows, jobIds, now).value.evaluations && v !in s.evaluations
    ensures v.eventId in rows && FollowsTheScore(s, v, EvaluateAll(s, rows, jobIds, now).value.queue, now)
    decreases |rows|
  {
    if rows != [] {
      var n := |rows| - 1;
      var before, r := EvaluateAll(s, rows[..n], jobIds, now).value, EvaluateAll(s, rows, jobIds, now).value;
      EvaluateAllKeepsValid(s, rows[..n], jobIds, now);
      OneFollows(before, rows[n], jobIds[n], now);
      assert r.evaluations == before.evaluations + [r.evaluations[|before.evaluations|]];
      hide Valid, EvaluateOne;
      if v in before.evaluations {
        AllFollow(s, rows[..n], jobIds, now, v);
      }
    }
  }

  /** Every evaluation that an action adds comes from a tick, and follows the limits of that moment. */
  lemma NewEvaluationFollows(s: State, a: Action, v: Evaluation)
    requires Valid(s) && v in Apply(s, a).evaluations && v !in s.evaluations
    ensures a.Tick? && v.eventId in a.rows && FollowsTheScore(s, v, Apply(s, a).queue, a.now)
  {
    assert a.Tick?;
    assert forall i :: 0 <= i < |a.rows| ==> Candidate(s, a.seen, a.done, a.locked, a.rows[i]);
    AllFollow(s, a.rows, a.jobIds, a.now, v);
    hide EvaluateAll, Valid;
  }

  lemma {:induction false} EvaluatedByATick(actions: seq<Action>, v: Evaluation) returns (k: nat)
    requires v in Run(EMPTY, actions).evaluations
    ensures k < |actions| && actions[k].Tick? && FollowsTheScore(Run(EMPTY, actions[..k]), v, Run(EMPTY, actions[..k + 1]).queue, actions[k].now)
    ensures v !in Run(EMPTY, actions[..k]).evaluations && v in Run(EMPTY, actions[..k + 1]).evaluations
    decreases |actions|
  {
    hide Valid, FollowsTheScore;
    var n := |actions| - 1;
    var before := actions[..n];
    if v in Run(EMPTY, before).evaluations {
      k := EvaluatedByATick(before, v);
      assert before[..k] == actions[..k] && before[..k + 1] == actions[..k + 1];
    } else {
      EmptyIsValid();
      RunKeepsValid(EMPTY, before);
      NewEvaluationFollows(Run(EMPTY, before), actions[n], v);
      k := n;
      assert actions[..n + 1] == actions;
    }
  }

  /**
   * In every run: an evaluated event has a trigger job exactly if its score lay within the schedule's limits at the
   * tick that evaluated it, whatever becomes of the limits later.
   */
  lemma {:induction false} TriggersFollowTheScore(actions: seq<Action>, v: Evaluation) returns (k: nat)
    requires v in Run(EMPTY, actions).evaluations
    ensures k < |actions| && actions[k].Tick? && HasSchedule(Run(EMPTY, actions[..k]), v.eventId)
    ensures v !in Run(EMPTY, actions[..k]).evaluations && v in Run(EMPTY, actions[..k + 1]).evaluations
    ensures var at := Run(EMPTY, actions[..k]);
            var score, schedule := at.events[v.eventId].score, at.schedules[at.events[v.eventId].repositoryId];
            && v.scheduleId == schedule.id
            && ((exists job :: IsTriggerJob(Run(EMPTY, actions), job, v.scheduleId, v.eventId))
                <==> schedule.minimum <= score && (schedule.maximum == None || score <= schedule.maximum.value))
  {
    k := EvaluatedByATick(actions, v);
    TriggersAndJobsInBijection(actions);
    var s := Run(EMPTY, actions);
    if job :| IsTriggerJob(s, job, v.scheduleId, v.eventId) {
      OnePairOneEvaluation(actions, v, Evaluation(v.scheduleId, v.eventId, true, Some(job)));
    }
  }

  lemma OnePairOneEvaluation(actions: seq<Action>, v: Evaluation, w: Evaluation)
    requires v in Run(EMPTY, actions).evaluations && w in Run(EMPTY, actions).evaluations
    requires v.scheduleId == w.scheduleId && v.eventId == w.eventId
    ensures v == w
  {
    var all := Run(EMPTY, actions).evaluations;
    var i :| 0 <= i < |all| && all[i] == v;
    var j :| 0 <= j < |all| && all[j] == w;
    EvaluatedAtMostOnce(actions, i, j);
  }

  /** What a tick may evaluate: complete events recorded under an enabled schedule since it was last enabled. */
  lemma EvaluatedEventsWereEligible(s: State, a: Action, v: Evaluation)
    requires Valid(s) && v in Apply(s, a).evaluations && v !in s.evaluations
    ensures HasSchedule(s, v.eventId)
    ensures var event, schedule := s.events[v.eventId], s.schedules[s.events[v.eventId].repositoryId];
            && schedule.enabled && schedule.activeSince <= event.createdAt
            && event.fromCommit != None && event.snapshotId != None
  {
    NewEvaluationFollows(s, a, v);
    var i :| 0 <= i < |a.rows| && a.rows[i] == v.eventId;
    assert Candidate(s, a.seen, a.done, a.locked, a.rows[i]);
  }

  /** And these are evaluated: an undisturbed tick with room for all of them leaves none behind. */
  lemma RoomyTickEvaluatesAll(s: State, a: Action, eventId: Id)
    requires Valid(s) && UndisturbedTick(s, a) && |s.events| <= a.limit
    requires eventId in s.events && s.events[eventId].repositoryId in s.schedules
    requires var event, schedule := s.events[eventId], s.schedules[s.events[eventId].repositoryId];
             && schedule.enabled && schedule.activeSince <= event.createdAt
             && event.fromCommit != None && event.snapshotId != None
    ensures Evaluated(Apply(s, a), s.schedules[s.events[eventId].repositoryId].id, eventId)
  {
    EvaluationsStay(s, a);
    if !Evaluated(s, ScheduleOf(s, eventId).id, eventId) {
      assert Pending(s, eventId);
      TickKeepsSchedules(s, a, eventId);
      StepShrinks(s, a, eventId);
      if !Evaluated(Apply(s, a), ScheduleOf(s, eventId).id, eventId) {
        PendingIsAhead(Apply(s, a), eventId);
        assert Ahead(s, eventId) <= s.events.Keys;
        SubsetCount(Ahead(s, eventId), s.events.Keys);
      }
    }
  }

  lemma TickKeepsSchedules(s: State, a: Action, eventId: Id)
    requires a.Tick? && HasSchedule(s, eventId)
    ensures HasSchedule(Apply(s, a), eventId) && ScheduleOf(Apply(s, a), eventId) == ScheduleOf(s, eventId)
  {
  }

  /** An upsert sets the limits, and a new window begins when it enables the schedule or creates it. */
  lemma UpsertSetsTheLimits(s: State, a: Action)
    requires a.Upsert? && a.now > s.clock && (a.repositoryId in s.schedules || FreshScheduleId(s, a.newId))
    ensures a.repositoryId in Apply(s, a).schedules
    ensures var schedule := Apply(s, a).schedules[a.repositoryId];
            && schedule.enabled == a.enabled && schedule.minimum == a.minimum && schedule.maximum == a.maximum
            && schedule.activeSince == (if a.repositoryId !in s.schedules || (a.enabled && !s.schedules[a.repositoryId].enabled)
                                        then a.now else s.schedules[a.repositoryId].activeSince)
            && (forall other :: other in s.schedules && other != a.repositoryId ==>
                  other in Apply(s, a).schedules && Apply(s, a).schedules[other] == s.schedules[other])
  {
  }

  /** A tick takes the oldest events first, and leaves an eligible one for later only if it has as many as it may take. */
  lemma TickTakesTheOldest(s: State, a: Action, eventId: Id)
    requires a.Tick? && TickRows(s, a.seen, a.done, a.locked, a.limit, a.rows)
    requires eventId in a.seen && eventId !in a.done && eventId !in a.rows
    requires eventId in s.events && s.events[eventId].repositoryId in s.schedules
    requires var event, schedule := s.events[eventId], s.schedules[s.events[eventId].repositoryId];
             && schedule.id !in a.locked && schedule.enabled && schedule.activeSince <= event.createdAt
             && event.fromCommit != None && event.snapshotId != None
    ensures |a.rows| == a.limit
    ensures forall i :: 0 <= i < |a.rows| ==> a.rows[i] in s.events && s.events[a.rows[i]].createdAt <= s.events[eventId].createdAt
    ensures forall i, j :: 0 <= i < j < |a.rows| ==> s.events[a.rows[i]].createdAt <= s.events[a.rows[j]].createdAt
  {
    assert Candidate(s, a.seen, a.done, a.locked, eventId);
    assert forall i :: 0 <= i < |a.rows| ==> Candidate(s, a.seen, a.done, a.locked, a.rows[i]);
    forall i | 0 <= i < |a.rows| ensures s.events[a.rows[i]].createdAt <= s.events[eventId].createdAt {
      assert Precedes(s, a.rows[i], eventId);
    }
    forall i, j | 0 <= i < j < |a.rows| ensures s.events[a.rows[i]].createdAt <= s.events[a.rows[j]].createdAt {
      assert Precedes(s, a.rows[i], a.rows[j]);
    }
  }
}
