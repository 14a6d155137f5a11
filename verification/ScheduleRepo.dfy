/** The repository object of schedules. It enqueues trigger jobs through the repository object of jobs. */
module ScheduleRepo {
  import opened Domain
  import JobQueue
  import opened JobRepo
  import opened Schedules
  import opened TextOrder

  datatype ScheduleError = BadLimit | IdTaken | ConstraintViolated

  /** The query of a tick under way: `todo` are the candidates not yet returned, all behind those that were. */
  ghost predicate RowsSoFar(s: State, seen: set<Id>, done: set<Id>, locked: set<Id>, rows: seq<Id>, todo: set<Id>) {
    && (forall i, j :: 0 <= i < j < |rows| ==> rows[i] != rows[j])
    && (forall id :: id in rows || id in todo <==> Candidate(s, seen, done, locked, id))
    && (forall i :: 0 <= i < |rows| ==> rows[i] in s.events)
    && (forall id :: id in rows ==> id !in todo)
    && (forall i, j :: 0 <= i < j < |rows| ==> Precedes(s, rows[i], rows[j]))
    && todo <= s.events.Keys
    && (forall i, id :: 0 <= i < |rows| && id in todo ==> Precedes(s, rows[i], id))
  }

  predicate IsNext(s: State, todo: set<Id>, id: Id)
    requires todo <= s.events.Keys
  {
    id in todo && forall other :: other in todo && other != id ==> Precedes(s, id, other)
  }

  lemma {:induction false} NextExists(s: State, todo: set<Id>)
    requires todo != {} && todo <= s.events.Keys
    ensures exists id :: id in todo && IsNext(s, todo, id)
    decreases |todo|
  {
    var x :| x in todo;
    if todo == {x} {
      assert IsNext(s, todo, x);
    } else {
      var rest := todo - {x};
      NextExists(s, rest);
      var first :| first in rest && IsNext(s, rest, first);
      BeforeIsTotal(x, first);
      if Precedes(s, first, x) {
        assert IsNext(s, todo, first);
      } else {
        forall other | other in todo && other != x ensures Precedes(s, x, other) {
          assert other in rest;
          if other != first && Before(x, first) && Before(first, other) { BeforeIsTransitive(x, first, other); }
        }
        assert IsNext(s, todo, x);
      }
    }
  }

  lemma RowsOneMore(s: State, seen: set<Id>, done: set<Id>, locked: set<Id>, rows: seq<Id>, todo: set<Id>, id: Id)
    requires RowsSoFar(s, seen, done, locked, rows, todo) && IsNext(s, todo, id)
    ensures RowsSoFar(s, seen, done, locked, rows + [id], todo - {id})
  {
    assert forall i :: 0 <= i < |rows| ==> rows[i] in rows;
  }

  lemma RowsComplete(s: State, seen: set<Id>, done: set<Id>, locked: set<Id>, limit: int, rows: seq<Id>, todo: set<Id>)
    requires RowsSoFar(s, seen, done, locked, rows, todo) && |rows| <= limit
    requires todo == {} || |rows| == limit
    ensures TickRows(s, seen, done, locked, limit, rows)
  {
    assert forall i :: 0 <= i < |rows| ==> rows[i] in rows;
  }

  /** Once an evaluation aborts, no later row can save the transaction. */
  lemma {:induction false} AbortIsFinal(s: State, rows: seq<Id>, jobIds: seq<Id>, now: Time, k: nat)
    requires |jobIds| >= |rows| >= k && forall i :: 0 <= i < |rows| ==> HasSchedule(s, rows[i])
    requires EvaluateAll(s, rows[..k], jobIds, now).None?
    ensures EvaluateAll(s, rows, jobIds, now).None?
    decreases |rows|
  {
    if k < |rows| {
      assert rows[..|rows| - 1][..k] == rows[..k];
      AbortIsFinal(s, rows[..|rows| - 1], jobIds, now, k);
    } else {
      assert rows[..k] == rows;
    }
  }

  /** The evaluations are those of the rows, in order. */
  ghost predicate Evaluates(evaluations: seq<Evaluation>, rows: seq<Id>) {
    |evaluations| == |rows| && forall i :: 0 <= i < |rows| ==> evaluations[i].eventId == rows[i]
  }

  /** An event matches exactly if its score lies within the limits of its schedule. */
  predicate MatchesByScore(events: map<Id, DriftEvent>, schedules: map<Id, Schedule>, v: Evaluation) {
    && v.eventId in events && events[v.eventId].repositoryId in schedules
    && var score, schedule := events[v.eventId].score, schedules[events[v.eventId].repositoryId];
    v.matched <==> schedule.minimum <= score && (schedule.maximum == None || score <= schedule.maximum.value)
  }

  lemma {:induction false} EvaluateAllAppends(s: State, rows: seq<Id>, jobIds: seq<Id>, now: Time)
    requires |jobIds| >= |rows| && forall i :: 0 <= i < |rows| ==> HasSchedule(s, rows[i])
    requires EvaluateAll(s, rows, jobIds, now).Some?
    ensures var after := EvaluateAll(s, rows, jobIds, now).value.evaluations;
            && |after| == |s.evaluations| + |rows|
            && after[..|s.evaluations|] == s.evaluations && Evaluates(after[|s.evaluations|..], rows)
            && forall i :: |s.evaluations| <= i < |after| ==> MatchesByScore(s.events, s.schedules, after[i])
    decreases |rows|
  {
    if rows != [] {
      EvaluateAllAppends(s, rows[..|rows| - 1], jobIds, now);
      hide JobQueue.Apply, Evaluated, KeyHolder, Noted;
    }
  }

  /** What a tick leaves behind, given the rows its query returned. */
  ghost function TickResult(s: State, limit: int, rows: seq<Id>, jobIds: seq<Id>, now: Time): State
    requires limit >= 1 ==> |jobIds| >= |rows| && forall i :: 0 <= i < |rows| ==> HasSchedule(s, rows[i])
  {
    if limit < 1 || EvaluateAll(s, rows, jobIds, now).None? then s else EvaluateAll(s, rows, jobIds, now).value
  }

  lemma TickResultIsEffect(s: State, a: Action)
    requires a.Tick? && PastView(s, a.seen, a.done) && |a.jobIds| >= |a.rows|
    requires a.limit >= 1 ==> TickRows(s, a.seen, a.done, a.locked, a.limit, a.rows)
    ensures forall i :: a.limit >= 1 && 0 <= i < |a.rows| ==> HasSchedule(s, a.rows[i])
    ensures Effect(s, a) == TickResult(s, a.limit, a.rows, a.jobIds, a.now)
  {
    assert forall i :: a.limit >= 1 && 0 <= i < |a.rows| ==> Candidate(s, a.seen, a.done, a.locked, a.rows[i]);
  }

  lemma RowsWithinLimit(s: State, seen: set<Id>, done: set<Id>, locked: set<Id>, limit: int, rows: seq<Id>)
    requires TickRows(s, seen, done, locked, limit, rows)
    ensures |rows| <= limit
  {
  }

  class RepositoryScheduleRepo {
    var schedules: map<Id, Schedule>
    var events: map<Id, DriftEvent>
    var evaluations: seq<Evaluation>
    const queue: JobRepo

    ghost function View(clock: Time): State
      reads this, queue
    {
      State(schedules, events, evaluations, queue.View(), clock)
    }

    constructor (queue: JobRepo)
      ensures this.queue == queue
      ensures schedules == map[] && events == map[] && evaluations == []
    {
      this.queue := queue;
      schedules, events, evaluations := map[], map[], [];
    }

    method AppendEvent(kind: EventKind, repositoryId: Id, jobId: Option<Id>)
      modifies queue`log
      ensures queue.View() == Noted(old(queue.View()), kind, repositoryId, jobId)
    {
      queue.log := queue.log + [Stamp(EventInput(kind, Scope(Some(repositoryId), jobId, None, None), NoPayload), |queue.log| + 1)];
    }

    /** Creates or updates the schedule of a repository. Enabling it starts a new window. */
    method Upsert(repositoryId: Id, newId: Id, enabled: bool, minimum: real, maximum: Option<real>, now: Time)
      returns (r: Result<Schedule, ScheduleError>)
      modifies this, queue`log
      ensures View(now) == Effect(old(View(now)), Action.Upsert(repositoryId, newId, enabled, minimum, maximum, now))
      ensures r.Err? <==> repositoryId !in old(schedules) && !FreshScheduleId(old(View(now)), newId)
      ensures r.Ok? ==> repositoryId in schedules && schedules[repositoryId] == r.value
    {
      var schedule: Schedule;
      if repositoryId in schedules {
        schedule := schedules[repositoryId];
        if enabled && !schedule.enabled {
          schedule := schedule.(activeSince := now);
        }
        schedule := schedule.(enabled := enabled, minimum := minimum, maximum := maximum);
      } else {
        if !Uuid(newId) || exists other :: other in schedules && schedules[other].id == newId {
          return Err(IdTaken);
        }
        schedule := Schedule(newId, repositoryId, enabled, minimum, maximum, now);
      }
      schedules := schedules[repositoryId := schedule];
      AppendEvent(ScheduleUpdated, repositoryId, None);
      return Ok(schedule);
    }

    method QueryPending(seen: set<Id>, done: set<Id>, locked: set<Id>, limit: int, now: Time) returns (rows: seq<Id>)
      requires limit >= 0
      ensures TickRows(View(now), seen, done, locked, limit, rows)
    {
      var s := State(schedules, events, evaluations, JobQueue.Queue(queue.jobs, queue.log), now);
      rows := [];
      var todo := set id | id in events && Candidate(s, seen, done, locked, id);
      while todo != {} && |rows| < limit
        invariant |rows| <= limit && todo <= events.Keys
        invariant RowsSoFar(s, seen, done, locked, rows, todo)
        decreases |todo|
      {
        NextExists(s, todo);
        var id :| id in todo && IsNext(s, todo, id);
        RowsOneMore(s, seen, done, locked, rows, todo, id);
        rows := rows + [id];
        todo := todo - {id};
      }
      RowsComplete(s, seen, done, locked, limit, rows, todo);
    }

    /** Evaluates one event; on a violated constraint the caller rolls back. */
    method Evaluate(eventId: Id, jobId: Id, now: Time) returns (ok: bool)
      requires Valid(View(now)) && queue.Keyed() && HasSchedule(View(now), eventId)
      modifies this, queue
      ensures schedules == old(schedules) && events == old(events)
      ensures ok <==> EvaluateOne(old(View(now)), eventId, jobId, now).Some?
      ensures ok ==> View(now) == EvaluateOne(old(View(now)), eventId, jobId, now).value && queue.Keyed()
      ensures ok ==> |evaluations| == |old(evaluations)| + 1 && evaluations[..|old(evaluations)|] == old(evaluations)
                     && MatchesByScore(events, schedules, evaluations[|old(evaluations)|])
                     && evaluations[|old(evaluations)|].eventId == eventId
    {
      var drift := events[eventId];
      var schedule := schedules[drift.repositoryId];
      ghost var s := View(now);
      var matched := ScoreMatches(drift.score, schedule.minimum, schedule.maximum);
      if exists v :: v in evaluations && v.scheduleId == schedule.id && v.eventId == eventId {
        return false;
      }
      assert !Evaluated(s, schedule.id, eventId);
      var job: Option<Id> := None;
      if matched {
        TriggerKeyIsStripped(schedule.id, eventId);
        if jobId !in queue.jobs {
          TriggerJobIsNew(s, eventId, jobId, now);
        }
        var r := queue.EnqueueJob(jobId, Some(schedule.repositoryId), "generate_test", eventId, 3,
                                  Some(TriggerKey(schedule.id, eventId)), now);
        if r.Err? {
          return false;
        }
        assert JobQueue.HasKey(queue.View(), TriggerKey(schedule.id, eventId), r.value.id);
        job := Some(r.value.id);
      }
      evaluations := evaluations + [Evaluation(schedule.id, eventId, matched, job)];
      AppendEvent(DriftTriggerEvaluated, schedule.repositoryId, job);
      return true;
    }

    method EvaluateRows(rows: seq<Id>, jobIds: seq<Id>, now: Time) returns (ok: bool)
      requires Valid(View(now)) && queue.Keyed() && |jobIds| >= |rows|
      requires forall i :: 0 <= i < |rows| ==> HasSchedule(View(now), rows[i])
      modifies this, queue
      ensures schedules == old(schedules) && events == old(events)
      ensures ok <==> EvaluateAll(old(View(now)), rows, jobIds, now).Some?
      ensures ok ==> View(now) == EvaluateAll(old(View(now)), rows, jobIds, now).value && queue.Keyed()
    {
      ghost var s := View(now);
      for i := 0 to |rows|
        invariant schedules == old(schedules) && events == old(events)
        invariant Valid(View(now)) && queue.Keyed()
        invariant EvaluateAll(s, rows[..i], jobIds, now) == Some(View(now))
      {
        assert rows[..i + 1][..i] == rows[..i];
        assert HasSchedule(s, rows[i]);
        ghost var before := View(now);
        ok := Evaluate(rows[i], jobIds[i], now);
        if !ok {
          AbortIsFinal(s, rows, jobIds, now, i + 1);
          return false;
        }
        EvaluateOneKeepsValid(before, rows[i], jobIds[i], now);
      }
      assert rows[..|rows|] == rows;
      return true;
    }

    /**
     * One tick, in one transaction: all its evaluations are kept, or none. `rows` are the events
     * its query returned.
     */
    method EvaluatePending(limit: int, seen: set<Id>, done: set<Id>, locked: set<Id>, jobIds: seq<Id>, now: Time)
      returns (rows: seq<Id>, r: Result<seq<Evaluation>, ScheduleError>)
      requires Valid(View(now)) && queue.Keyed()
      requires PastView(View(now), seen, done) && |jobIds| >= limit
      modifies this, queue
      ensures queue.Keyed()
      ensures limit >= 1 ==> TickRows(old(View(now)), seen, done, locked, limit, rows)
      ensures limit >= 1 ==> forall i :: 0 <= i < |rows| ==> HasSchedule(old(View(now)), rows[i])
      ensures r == Err(BadLimit) <==> limit < 1
      ensures View(now) == Effect(old(View(now)), Tick(limit, seen, done, locked, rows, jobIds, now))
      ensures r.Err? ==> View(now) == old(View(now))
      ensures schedules == old(schedules) && events == old(events)
      ensures r.Ok? ==> evaluations == old(evaluations) + r.value && Evaluates(r.value, rows)
      ensures r.Ok? ==> forall i :: 0 <= i < |r.value| ==> MatchesByScore(events, schedules, r.value[i])
    {
      rows := [];
      if limit < 1 {
        return rows, Err(BadLimit);
      }
      hide Effect, Valid, TickRows, PastView, Candidate, EvaluateAll, Evaluates, HasSchedule;
      rows := QueryPending(seen, done, locked, limit, now);
      ghost var s := View(now);
      assert |rows| <= limit by { RowsWithinLimit(s, seen, done, locked, limit, rows); }
      TickResultIsEffect(s, Tick(limit, seen, done, locked, rows, jobIds, now));
      var savedEvaluations, savedJobs, savedLog := evaluations, queue.jobs, queue.log;
      var ok := EvaluateRows(rows, jobIds, now);
      if !ok {
        evaluations, queue.jobs, queue.log := savedEvaluations, savedJobs, savedLog;
        return rows, Err(ConstraintViolated);
      }
      EvaluateAllAppends(s, rows, jobIds, now);
      return rows, Ok(evaluations[|savedEvaluations|..]);
    }
  }
}
