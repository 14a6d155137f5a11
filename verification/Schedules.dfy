/**
 * Drift-triggered generation. A schedule of a repository evaluates the drift events recorded since
 * it was last enabled, each once, and enqueues a job for those whose score matches.
 */
module Schedules {
  import opened Domain
  import opened JobQueue
  import opened TextOrder

  datatype Schedule = Schedule(id: Id, repositoryId: Id, enabled: bool, minimum: real, maximum: Option<real>, activeSince: Time)

  datatype DriftEvent = DriftEvent(
    id: Id, repositoryId: Id, snapshotId: Option<Id>, fromCommit: Option<string>, score: real, createdAt: Time)

  datatype Evaluation = Evaluation(scheduleId: Id, eventId: Id, matched: bool, jobId: Option<Id>)

  /** `schedules` is keyed by repository, which has at most one. */
  datatype State = State(
    schedules: map<Id, Schedule>,
    events: map<Id, DriftEvent>,
    evaluations: seq<Evaluation>,
    queue: Queue,
    clock: Time)

  const EMPTY := State(map[], map[], [], JobQueue.EMPTY, 0)

  /**
   * A tick sees the events and evaluations of a snapshot that may be older than the state it works
   * on, and skips schedules whose rows are locked. `rows` are the events its query returns, in
   * order, and `jobIds` the identifiers new jobs would get.
   */
  datatype Action =
    | Upsert(repositoryId: Id, newId: Id, enabled: bool, minimum: real, maximum: Option<real>, now: Time)
    | RecordDrift(event: DriftEvent)
    | Tick(limit: int, seen: set<Id>, done: set<Id>, locked: set<Id>, rows: seq<Id>, jobIds: seq<Id>, now: Time)
    | OtherJob(action: JobQueue.Action, now: Time)

  // ---- Keys ----------------------------------------------------------------------------

  /** The text of a UUID. */
  predicate Uuid(s: string) {
    |s| == 36 && forall c :: c in s ==> c in "0123456789abcdef-"
  }

  const TRIGGER := "drift-trigger:"

  function TriggerKey(scheduleId: Id, eventId: Id): string {
    TRIGGER + scheduleId + ":" + eventId
  }

  lemma TriggerKeyIsInjective(s1: Id, e1: Id, s2: Id, e2: Id)
    requires Uuid(s1) && Uuid(s2) && TriggerKey(s1, e1) == TriggerKey(s2, e2)
    ensures s1 == s2 && e1 == e2
  {
    var a, b := TriggerKey(s1, e1), TriggerKey(s2, e2);
    assert a[14..50] == s1 && b[14..50] == s2;
    assert a[51..] == e1 && b[51..] == e2;
  }

  lemma TriggerKeyIsStripped(s: Id, e: Id)
    requires Uuid(e)
    ensures Strip(TriggerKey(s, e)) == TriggerKey(s, e)
  {
    var key := TriggerKey(s, e);
    assert key[0] == 'd';
    assert key[|key| - 1] == e[35] && e[35] in e;
  }

  // ---- One evaluation ------------------------------------------------------------------

  function ScoreMatches(score: real, minimum: real, maximum: Option<real>): bool {
    score >= minimum && (maximum.None? || score <= maximum.value)
  }

  predicate Evaluated(s: State, scheduleId: Id, eventId: Id) {
    exists v :: v in s.evaluations && v.scheduleId == scheduleId && v.eventId == eventId
  }

  /** The schedule that would evaluate an event, if the repository has one. */
  predicate HasSchedule(s: State, eventId: Id) {
    eventId in s.events && s.events[eventId].repositoryId in s.schedules
  }

  function ScheduleOf(s: State, eventId: Id): Schedule
    requires HasSchedule(s, eventId)
  {
    s.schedules[s.events[eventId].repositoryId]
  }

  /** An enabled schedule considers the complete events created since it became active. */
  predicate Eligible(s: State, eventId: Id) {
    && HasSchedule(s, eventId)
    && ScheduleOf(s, eventId).enabled
    && s.events[eventId].createdAt >= ScheduleOf(s, eventId).activeSince
    && s.events[eventId].fromCommit.Some?
    && s.events[eventId].snapshotId.Some?
  }

  predicate Candidate(s: State, seen: set<Id>, done: set<Id>, locked: set<Id>, eventId: Id) {
    eventId in seen && eventId !in done && Eligible(s, eventId) && ScheduleOf(s, eventId).id !in locked
  }

  /** The order of the tick's query: by time of creation, then by identifier. */
  predicate Precedes(s: State, a: Id, b: Id)
    requires a in s.events && b in s.events
  {
    s.events[a].createdAt < s.events[b].createdAt || (s.events[a].createdAt == s.events[b].createdAt && Before(a, b))
  }

  /** What the query of a tick returns: the first candidates in its order, at most `limit`. */
  ghost predicate TickRows(s: State, seen: set<Id>, done: set<Id>, locked: set<Id>, limit: int, rows: seq<Id>) {
    && |rows| <= limit
    && (forall i, j :: 0 <= i < j < |rows| ==> rows[i] != rows[j])
    && (forall i :: 0 <= i < |rows| ==> Candidate(s, seen, done, locked, rows[i]))
    && (forall i, j :: 0 <= i < j < |rows| ==> Precedes(s, rows[i], rows[j]))
    && (forall id :: Candidate(s, seen, done, locked, id) && id !in rows ==>
          |rows| == limit && forall i :: 0 <= i < |rows| ==> Precedes(s, rows[i], id))
  }

  /** A snapshot is a part of the past: it shows nothing that is not in the state. */
  ghost predicate PastView(s: State, seen: set<Id>, done: set<Id>) {
    && seen <= s.events.Keys
    && forall id :: id in done ==> HasSchedule(s, id) && Evaluated(s, ScheduleOf(s, id).id, id)
  }

  function Noted(q: Queue, kind: EventKind, repositoryId: Id, jobId: Option<Id>): Queue {
    q.(log := q.log + [Stamp(EventInput(kind, Scope(Some(repositoryId), jobId, None, None), NoPayload), |q.log| + 1)])
  }

  function TriggerJob(s: State, eventId: Id, jobId: Id, now: Time): JobQueue.Action
    requires HasSchedule(s, eventId)
  {
    Enqueue(jobId, Some(s.events[eventId].repositoryId), "generate_test", eventId, 3,
            Some(TriggerKey(ScheduleOf(s, eventId).id, eventId)), now)
  }

  /** The job that holds a key. */
  ghost function KeyHolder(q: Queue, key: string): Option<Id> {
    if exists id :: HasKey(q, key, id) then
      var id :| HasKey(q, key, id);
      Some(id)
    else None
  }

  /** Evaluates one event; a violated constraint aborts. */
  ghost function EvaluateOne(s: State, eventId: Id, jobId: Id, now: Time): Option<State>
    requires HasSchedule(s, eventId)
  {
    var schedule := ScheduleOf(s, eventId);
    var matched := ScoreMatches(s.events[eventId].score, schedule.minimum, schedule.maximum);
    if Evaluated(s, schedule.id, eventId) then None
    else if matched && jobId in s.queue.jobs then None
    else
      var queue := if matched then JobQueue.Apply(s.queue, TriggerJob(s, eventId, jobId, now)) else s.queue;
      var job := if matched then KeyHolder(queue, TriggerKey(schedule.id, eventId)) else None;
      Some(s.(evaluations := s.evaluations + [Evaluation(schedule.id, eventId, matched, job)],
              queue := Noted(queue, DriftTriggerEvaluated, schedule.repositoryId, job)))
  }

  /** Evaluates the rows in order, all in one transaction. */
  ghost function EvaluateAll(s: State, rows: seq<Id>, jobIds: seq<Id>, now: Time): (r: Option<State>)
    requires |jobIds| >= |rows| && forall i :: 0 <= i < |rows| ==> HasSchedule(s, rows[i])
    ensures r.Some? ==> r.value.schedules == s.schedules && r.value.events == s.events && r.value.clock == s.clock
    decreases |rows|
  {
    if rows == [] then Some(s)
    else
      assert HasSchedule(s, rows[|rows| - 1]);
      var before := EvaluateAll(s, rows[..|rows| - 1], jobIds, now);
      if before.None? then None else EvaluateOne(before.value, rows[|rows| - 1], jobIds[|rows| - 1], now)
  }

  // ---- Runs ----------------------------------------------------------------------------

  function NowOf(a: Action): Time {
    match a
    case Upsert(_, _, _, _, _, now) => now
    case RecordDrift(event) => event.createdAt
    case Tick(_, _, _, _, _, _, now) => now
    case OtherJob(_, now) => now
  }

  function UpsertedSchedule(s: State, a: Action): Schedule
    requires a.Upsert?
  {
    if a.repositoryId in s.schedules then
      var was := s.schedules[a.repositoryId];
      was.(activeSince := if a.enabled && !was.enabled then a.now else was.activeSince,
           enabled := a.enabled, minimum := a.minimum, maximum := a.maximum)
    else Schedule(a.newId, a.repositoryId, a.enabled, a.minimum, a.maximum, a.now)
  }

  predicate FreshScheduleId(s: State, id: Id) {
    Uuid(id) && forall repository :: repository in s.schedules ==> s.schedules[repository].id != id
  }

  /** Other components enqueue jobs too, but not under trigger keys. */
  predicate NotATrigger(a: JobQueue.Action) {
    a.Enqueue? && a.key.Some? ==> !(TRIGGER <= Strip(a.key.value))
  }

  ghost function Effect(s: State, a: Action): State {
    match a
    case Upsert(repositoryId, newId, enabled, minimum, maximum, now) =>
      if repositoryId !in s.schedules && !FreshScheduleId(s, newId) then s
      else
        s.(schedules := s.schedules[repositoryId := UpsertedSchedule(s, a)],
           queue := Noted(s.queue, ScheduleUpdated, repositoryId, None))
    case RecordDrift(event) =>
      if event.id in s.events || !Uuid(event.id) then s else s.(events := s.events[event.id := event])
    case Tick(limit, seen, done, locked, rows, jobIds, now) =>
      if limit < 1 || !PastView(s, seen, done) || !TickRows(s, seen, done, locked, limit, rows) || |jobIds| < |rows| then s
      else
        var r := EvaluateAll(s, rows, jobIds, now);
        if r.Some? then r.value else s
    case OtherJob(action, now) =>
      if NotATrigger(action) then s.(queue := JobQueue.Apply(s.queue, action)) else s
  }

  /** An action at a later time than every one before it. */
  ghost function Apply(s: State, a: Action): State {
    if NowOf(a) > s.clock then Effect(s, a).(clock := NowOf(a)) else s
  }

  ghost function Run(s: State, actions: seq<Action>): State
    decreases |actions|
  {
    if actions == [] then s else Apply(Run(s, actions[..|actions| - 1]), actions[|actions| - 1])
  }

  // ---- Invariant -----------------------------------------------------------------------

  ghost predicate DistinctPairs(evaluations: seq<Evaluation>) {
    forall i, j :: 0 <= i < j < |evaluations| ==>
                     evaluations[i].scheduleId != evaluations[j].scheduleId || evaluations[i].eventId != evaluations[j].eventId
  }

  /** An evaluation belongs to a schedule and an event of one repository, and holds its job if it matched. */
  ghost predicate EvaluationFits(s: State, v: Evaluation) {
    && HasSchedule(s, v.eventId) && ScheduleOf(s, v.eventId).id == v.scheduleId
    && (v.matched <==> v.jobId.Some?)
    && (v.matched ==> HasKey(s.queue, TriggerKey(v.scheduleId, v.eventId), v.jobId.value))
  }

  /** A job under a trigger key is the job of a matched evaluation. */
  ghost predicate TriggerJobFits(s: State, scheduleId: Id, eventId: Id, job: Id) {
    Uuid(scheduleId) && Uuid(eventId) && HasKey(s.queue, TriggerKey(scheduleId, eventId), job) ==>
      Evaluation(scheduleId, eventId, true, Some(job)) in s.evaluations
  }

  ghost predicate SchedulesFit(s: State) {
    && (forall r :: r in s.schedules ==>
          s.schedules[r].repositoryId == r && Uuid(s.schedules[r].id) && s.schedules[r].activeSince <= s.clock)
    && (forall a, b :: a in s.schedules && b in s.schedules && a != b ==> s.schedules[a].id != s.schedules[b].id)
    && (forall e :: e in s.events ==> s.events[e].id == e && Uuid(e) && s.events[e].createdAt <= s.clock)
  }

  ghost predicate Valid(s: State) {
    && JobQueue.Valid(s.queue)
    && SchedulesFit(s)
    && DistinctPairs(s.evaluations)
    && (forall v :: v in s.evaluations ==> EvaluationFits(s, v))
    && (forall scheduleId, eventId, job :: TriggerJobFits(s, scheduleId, eventId, job))
  }

  /** The queue changes, but the holders of trigger keys stay. */
  ghost predicate SameTriggers(q: Queue, r: Queue) {
    forall scheduleId, eventId, job ::
      HasKey(q, TriggerKey(scheduleId, eventId), job) <==> HasKey(r, TriggerKey(scheduleId, eventId), job)
  }

  lemma SameTriggersKeepValid(s: State, r: State)
    requires Valid(s) && JobQueue.Valid(r.queue) && SameTriggers(s.queue, r.queue)
    requires r.evaluations == s.evaluations && SchedulesFit(r)
    requires forall e :: HasSchedule(s, e) ==> HasSchedule(r, e) && ScheduleOf(r, e).id == ScheduleOf(s, e).id
    ensures Valid(r)
  {
    forall v | v in r.evaluations ensures EvaluationFits(r, v) {
      assert EvaluationFits(s, v);
    }
    forall scheduleId, eventId, job ensures TriggerJobFits(r, scheduleId, eventId, job) {
      assert TriggerJobFits(s, scheduleId, eventId, job);
    }
  }

  /** A queue action under no trigger key, or that is not an enqueue, moves no trigger key. */
  lemma OtherActionsKeepTriggers(q: Queue, a: JobQueue.Action)
    requires JobQueue.Valid(q) && NotATrigger(a)
    ensures JobQueue.Valid(JobQueue.Apply(q, a))
    ensures SameTriggers(q, JobQueue.Apply(q, a))
  {
    ApplyMoves(q, a, "");
    var r := JobQueue.Apply(q, a);
    forall scheduleId, eventId, job
      ensures HasKey(q, TriggerKey(scheduleId, eventId), job) <==> HasKey(r, TriggerKey(scheduleId, eventId), job)
    {
      assert TRIGGER <= TriggerKey(scheduleId, eventId);
      ApplyMoves(q, a, job);
      if !a.Enqueue? { OnlyEnqueueAdds(q, a); } else { EnqueueMoves(q, a); }
    }
  }

  // ---- Every action keeps the invariant --------------------------------------------------

  lemma NotedKeepsTriggers(q: Queue, kind: EventKind, repositoryId: Id, jobId: Option<Id>)
    requires JobQueue.Valid(q)
    ensures JobQueue.Valid(Noted(q, kind, repositoryId, jobId))
    ensures SameTriggers(q, Noted(q, kind, repositoryId, jobId))
  {
    OtherEventKeepsValid(q, EventInput(kind, Scope(Some(repositoryId), jobId, None, None), NoPayload));
    var r := Noted(q, kind, repositoryId, jobId);
    assert r.jobs == q.jobs;
  }

  /** For an event that was not evaluated, the trigger key is free and the new job takes it. */
  lemma TriggerJobIsNew(s: State, eventId: Id, jobId: Id, now: Time)
    requires Valid(s) && HasSchedule(s, eventId) && !Evaluated(s, ScheduleOf(s, eventId).id, eventId)
    requires jobId !in s.queue.jobs
    ensures var key := TriggerKey(ScheduleOf(s, eventId).id, eventId);
            var q := JobQueue.Apply(s.queue, TriggerJob(s, eventId, jobId, now));
            && JobQueue.Valid(q) && KeyHolder(q, key) == Some(jobId)
            && (forall id :: HasKey(q, key, id) ==> id == jobId)
            && q.jobs.Keys == s.queue.jobs.Keys + {jobId}
            && (forall id :: id in s.queue.jobs ==> q.jobs[id] == s.queue.jobs[id])
            && q.jobs[jobId].idempotencyKey == Some(key)
  {
    var schedule := ScheduleOf(s, eventId);
    var key := TriggerKey(schedule.id, eventId);
    var a := TriggerJob(s, eventId, jobId, now);
    TriggerKeyIsStripped(schedule.id, eventId);
    forall other ensures !HasKey(s.queue, key, other) {
      assert TriggerJobFits(s, schedule.id, eventId, other);
    }
    EnqueueAddsOne(s.queue, a);
    hide JobQueue.Apply, JobQueue.Valid, TriggerKey, Strip;
    var q := JobQueue.Apply(s.queue, a);
    assert HasKey(q, key, jobId);
    forall id | HasKey(q, key, id) ensures id == jobId {
      assert id != jobId ==> HasKey(s.queue, key, id);
    }
  }

  lemma EvaluateOneKeepsValid(s: State, eventId: Id, jobId: Id, now: Time)
    requires Valid(s) && HasSchedule(s, eventId) && EvaluateOne(s, eventId, jobId, now).Some?
    ensures Valid(EvaluateOne(s, eventId, jobId, now).value)
  {
    var schedule := ScheduleOf(s, eventId);
    var r := EvaluateOne(s, eventId, jobId, now).value;
    var v := r.evaluations[|s.evaluations|];
    var q := s.queue;
    if ScoreMatches(s.events[eventId].score, schedule.minimum, schedule.maximum) {
      TriggerJobIsNew(s, eventId, jobId, now);
      q := JobQueue.Apply(s.queue, TriggerJob(s, eventId, jobId, now));
    }
    NotedKeepsTriggers(q, DriftTriggerEvaluated, schedule.repositoryId, v.jobId);
    assert r.queue.jobs == q.jobs;
    assert forall w :: w in r.evaluations <==> w in s.evaluations || w == v;
    assert forall i :: 0 <= i < |s.evaluations| ==> s.evaluations[i] in s.evaluations;
    forall w | w in r.evaluations ensures EvaluationFits(r, w) {
      if w != v { assert EvaluationFits(s, w); }
    }
    forall scheduleId, event, job ensures TriggerJobFits(r, scheduleId, event, job) {
      assert TriggerJobFits(s, scheduleId, event, job);
      if Uuid(scheduleId) && HasKey(r.queue, TriggerKey(scheduleId, event), job) && job !in s.queue.jobs {
        TriggerKeyIsInjective(scheduleId, event, schedule.id, eventId);
      }
    }
  }

  lemma {:induction false} EvaluateAllKeepsValid(s: State, rows: seq<Id>, jobIds: seq<Id>, now: Time)
    requires Valid(s) && |jobIds| >= |rows| && forall i :: 0 <= i < |rows| ==> HasSchedule(s, rows[i])
    requires EvaluateAll(s, rows, jobIds, now).Some?
    ensures Valid(EvaluateAll(s, rows, jobIds, now).value)
    ensures forall v :: v in EvaluateAll(s, rows, jobIds, now).value.evaluations ==> v in s.evaluations || v.eventId in rows
    decreases |rows|
  {
    if rows != [] {
      EvaluateAllKeepsValid(s, rows[..|rows| - 1], jobIds, now);
      var before := EvaluateAll(s, rows[..|rows| - 1], jobIds, now).value;
      EvaluateOneKeepsValid(before, rows[|rows| - 1], jobIds[|rows| - 1], now);
    }
  }

  lemma UpsertKeepsValid(s: State, a: Action)
    requires Valid(s) && a.Upsert? && a.now > s.clock
    ensures Valid(Apply(s, a))
  {
    var r := Apply(s, a);
    hide JobQueue.Valid, EvaluationFits, TriggerJobFits, SameTriggers, Noted;
    NotedKeepsTriggers(s.queue, ScheduleUpdated, a.repositoryId, None);
    SameTriggersKeepValid(s, r);
  }

  lemma LaterClockKeepsValid(s: State, now: Time)
    requires Valid(s) && now >= s.clock
    ensures Valid(s.(clock := now))
  {
    SameTriggersKeepValid(s, s.(clock := now));
  }

  lemma TickKeepsValid(s: State, a: Action)
    requires Valid(s) && a.Tick? && a.now > s.clock
    ensures Valid(Apply(s, a))
  {
    var t := Effect(s, a);
    if t != s {
      EvaluateAllKeepsValid(s, a.rows, a.jobIds, a.now);
    }
    LaterClockKeepsValid(t, a.now);
  }

  lemma OtherJobKeepsValid(s: State, a: Action)
    requires Valid(s) && a.OtherJob? && a.now > s.clock
    ensures Valid(Apply(s, a))
  {
    if NotATrigger(a.action) {
      OtherActionsKeepTriggers(s.queue, a.action);
    }
    SameTriggersKeepValid(s, Apply(s, a));
  }

  lemma ApplyKeepsValid(s: State, a: Action)
    requires Valid(s)
    ensures Valid(Apply(s, a))
  {
    if NowOf(a) > s.clock {
      match a
      case Upsert(_, _, _, _, _, _) => UpsertKeepsValid(s, a);
      case RecordDrift(_) => SameTriggersKeepValid(s, Apply(s, a));
      case Tick(_, _, _, _, _, _, _) => TickKeepsValid(s, a);
      case OtherJob(_, _) => OtherJobKeepsValid(s, a);
    }
  }

  lemma {:induction false} RunKeepsValid(s: State, actions: seq<Action>)
    requires Valid(s)
    ensures Valid(Run(s, actions))
    decreases |actions|
  {
    if actions != [] {
      RunKeepsValid(s, actions[..|actions| - 1]);
      ApplyKeepsValid(Run(s, actions[..|actions| - 1]), actions[|actions| - 1]);
    }
  }

  lemma EmptyIsValid()
    ensures Valid(EMPTY)
  {
    assert JobQueue.Valid(JobQueue.EMPTY);
  }

  // ---- Exactly-once triggering -----------------------------------------------------------

  /**
   * However ticks, upserts, drift recording and other job traffic interleave, with stale snapshots
   * and aborts: each schedule evaluates an event at most once.
   */
  lemma {:induction false} EvaluatedAtMostOnce(actions: seq<Action>, i: nat, j: nat)
    requires var s := Run(EMPTY, actions);
             && i < |s.evaluations| && j < |s.evaluations|
             && s.evaluations[i].scheduleId == s.evaluations[j].scheduleId && s.evaluations[i].eventId == s.evaluations[j].eventId
    ensures i == j
  {
    EmptyIsValid();
    RunKeepsValid(EMPTY, actions);
  }

  /** A job that was enqueued by a tick: its key is the trigger key of a schedule and an event. */
  ghost predicate IsTriggerJob(s: State, job: Id, scheduleId: Id, eventId: Id) {
    Uuid(scheduleId) && Uuid(eventId) && HasKey(s.queue, TriggerKey(scheduleId, eventId), job)
  }

  /**
   * Matched evaluations and trigger jobs are in bijection: an evaluation matched exactly if it has a
   * job, that job is the only one under its trigger key, and every trigger job has its evaluation.
   */
  lemma {:induction false} TriggersAndJobsInBijection(actions: seq<Action>)
    ensures var s := Run(EMPTY, actions);
            && (forall v :: v in s.evaluations ==> (v.matched <==> v.jobId.Some?))
            && (forall v :: v in s.evaluations && v.matched ==> IsTriggerJob(s, v.jobId.value, v.scheduleId, v.eventId))
            && (forall scheduleId, eventId, job :: IsTriggerJob(s, job, scheduleId, eventId) ==>
                  Evaluation(scheduleId, eventId, true, Some(job)) in s.evaluations)
            && (forall v, w :: v in s.evaluations && w in s.evaluations && v.matched && w.matched && v.jobId == w.jobId ==> v == w)
  {
    EmptyIsValid();
    RunKeepsValid(EMPTY, actions);
    var s := Run(EMPTY, actions);
    forall v | v in s.evaluations ensures v.matched <==> v.jobId.Some? {
      assert EvaluationFits(s, v);
    }
    forall v | v in s.evaluations && v.matched ensures IsTriggerJob(s, v.jobId.value, v.scheduleId, v.eventId) {
      assert EvaluationFits(s, v);
    }
    forall scheduleId, eventId, job | IsTriggerJob(s, job, scheduleId, eventId)
      ensures Evaluation(scheduleId, eventId, true, Some(job)) in s.evaluations
    {
      assert TriggerJobFits(s, scheduleId, eventId, job);
    }
    forall v, w | v in s.evaluations && w in s.evaluations && v.matched && w.matched && v.jobId == w.jobId ensures v == w {
      assert EvaluationFits(s, v) && EvaluationFits(s, w);
      TriggerKeyIsInjective(v.scheduleId, v.eventId, w.scheduleId, w.eventId);
    }
  }

  // ---- No replay across disabled windows ---------------------------------------------------

  /** An event that its schedule will never look at: it is older than the schedule's activation, or there is none. */
  ghost predicate Frozen(s: State, eventId: Id) {
    && eventId in s.events
    && (HasSchedule(s, eventId) && ScheduleOf(s, eventId).enabled ==> s.events[eventId].createdAt < ScheduleOf(s, eventId).activeSince)
    && (forall v :: v in s.evaluations ==> v.eventId != eventId)
  }

  lemma ApplyKeepsFrozen(s: State, a: Action, eventId: Id)
    requires Valid(s) && Frozen(s, eventId)
    ensures Frozen(Apply(s, a), eventId)
  {
    if NowOf(a) > s.clock && a.Tick? && Effect(s, a) != s {
      EvaluateAllKeepsValid(s, a.rows, a.jobIds, a.now);
      assert forall i :: 0 <= i < |a.rows| ==> Eligible(s, a.rows[i]);
      assert eventId !in a.rows;
    }
  }

  lemma {:induction false} RunKeepsFrozen(s: State, actions: seq<Action>, eventId: Id)
    requires Valid(s) && Frozen(s, eventId)
    ensures Frozen(Run(s, actions), eventId)
    decreases |actions|
  {
    if actions != [] {
      RunKeepsFrozen(s, actions[..|actions| - 1], eventId);
      RunKeepsValid(s, actions[..|actions| - 1]);
      ApplyKeepsFrozen(Run(s, actions[..|actions| - 1]), actions[|actions| - 1], eventId);
    }
  }

  /**
   * Time spent disabled does not replay: an event recorded while its repository had no enabled
   * schedule is never evaluated, whatever happens to the schedule afterwards.
   */
  lemma {:induction false} DisabledWindowsAreNotReplayed(before: seq<Action>, event: DriftEvent, after: seq<Action>)
    requires var s := Run(EMPTY, before);
             && event.createdAt > s.clock && event.id !in s.events && Uuid(event.id)
             && (event.repositoryId in s.schedules ==> !s.schedules[event.repositoryId].enabled)
    ensures var r := Run(Apply(Run(EMPTY, before), RecordDrift(event)), after);
            forall v :: v in r.evaluations ==> v.eventId != event.id
  {
    var s := Run(EMPTY, before);
    EmptyIsValid();
    RunKeepsValid(EMPTY, before);
    ApplyKeepsValid(s, RecordDrift(event));
    forall v | v in s.evaluations ensures v.eventId != event.id {
      assert EvaluationFits(s, v);
    }
    RunKeepsFrozen(Apply(s, RecordDrift(event)), after, event.id);
  }

  // ---- Every eligible event is evaluated in the end ------------------------------------------

  ghost predicate Pending(s: State, eventId: Id) {
    Eligible(s, eventId) && !Evaluated(s, ScheduleOf(s, eventId).id, eventId)
  }

  /** The pending events a tick takes no later than this one, itself among them. */
  ghost function Ahead(s: State, eventId: Id): set<Id>
    requires eventId in s.events
  {
    set other | other in s.events && Pending(s, other) && s.events[other].createdAt <= s.events[eventId].createdAt
  }

  lemma PendingIsAhead(s: State, eventId: Id)
    requires Pending(s, eventId)
    ensures eventId in Ahead(s, eventId) && |Ahead(s, eventId)| >= 1
  {
    assert eventId in Ahead(s, eventId);
    assert |Ahead(s, eventId)| != 0;
  }

  /** A tick on the current state, with no schedule locked and fresh identifiers for new jobs. */
  ghost predicate UndisturbedTick(s: State, a: Action) {
    && a.Tick? && NowOf(a) > s.clock && a.limit >= 1
    && a.seen == s.events.Keys && a.locked == {}
    && PastView(s, a.seen, a.done)
    && (forall id :: HasSchedule(s, id) && Evaluated(s, ScheduleOf(s, id).id, id) ==> id in a.done)
    && TickRows(s, a.seen, a.done, a.locked, a.limit, a.rows)
    && |a.jobIds| >= |a.rows|
    && (forall i, j :: 0 <= i < j < |a.rows| ==> a.jobIds[i] != a.jobIds[j])
    && (forall i :: 0 <= i < |a.rows| ==> a.jobIds[i] !in s.queue.jobs)
  }

  /** How many evaluations the undisturbed ticks of a run had room for. */
  ghost function Capacity(s: State, actions: seq<Action>): int
    decreases |actions|
  {
    if actions == [] then 0
    else
      var before := actions[..|actions| - 1];
      var last := actions[|actions| - 1];
      Capacity(s, before) + if UndisturbedTick(Run(s, before), last) then last.limit else 0
  }

  lemma StaysUnevaluated(s: State, r: State, rows: seq<Id>, scheduleId: Id, eventId: Id)
    requires forall v :: v in r.evaluations ==> v in s.evaluations || v.eventId in rows
    requires eventId !in rows && !Evaluated(s, scheduleId, eventId)
    ensures !Evaluated(r, scheduleId, eventId)
  {
  }

  /** Distinct, unevaluated rows and fresh identifiers: no constraint is violated. */
  lemma {:induction false} EvaluateAllSucceeds(s: State, rows: seq<Id>, jobIds: seq<Id>, now: Time)
    requires Valid(s) && |jobIds| >= |rows|
    requires forall i :: 0 <= i < |rows| ==> HasSchedule(s, rows[i]) && !Evaluated(s, ScheduleOf(s, rows[i]).id, rows[i])
    requires forall i, j :: 0 <= i < j < |rows| ==> rows[i] != rows[j] && jobIds[i] != jobIds[j]
    requires forall i :: 0 <= i < |rows| ==> jobIds[i] !in s.queue.jobs
    ensures EvaluateAll(s, rows, jobIds, now).Some?
    ensures forall id :: id in EvaluateAll(s, rows, jobIds, now).value.queue.jobs ==> id in s.queue.jobs || id in jobIds[..|rows|]
    decreases |rows|
  {
    hide Valid, Evaluated, EvaluateOne;
    if rows != [] {
      var n := |rows| - 1;
      var front := rows[..n];
      EvaluateAllSucceeds(s, front, jobIds, now);
      EvaluateAllKeepsValid(s, front, jobIds, now);
      var before := EvaluateAll(s, front, jobIds, now).value;
      assert rows[n] !in front && jobIds[n] !in jobIds[..n];
      StaysUnevaluated(s, before, front, ScheduleOf(s, rows[n]).id, rows[n]);
      assert jobIds[..|rows|] == jobIds[..n] + [jobIds[n]];
      EvaluateOneAdds(before, rows[n], jobIds[n], now);
    }
  }

  lemma {:induction false} EvaluateAllCovers(s: State, rows: seq<Id>, jobIds: seq<Id>, now: Time)
    requires |jobIds| >= |rows| && forall i :: 0 <= i < |rows| ==> HasSchedule(s, rows[i])
    requires EvaluateAll(s, rows, jobIds, now).Some?
    ensures forall i :: 0 <= i < |rows| ==> Evaluated(EvaluateAll(s, rows, jobIds, now).value, ScheduleOf(s, rows[i]).id, rows[i])
    decreases |rows|
  {
    if rows != [] {
      var n := |rows| - 1;
      EvaluateAllCovers(s, rows[..n], jobIds, now);
      var before := EvaluateAll(s, rows[..n], jobIds, now).value;
      var r := EvaluateAll(s, rows, jobIds, now).value;
      assert HasSchedule(s, rows[n]);
      assert r.evaluations[|before.evaluations|] in r.evaluations;
      forall i | 0 <= i < n ensures Evaluated(r, ScheduleOf(s, rows[i]).id, rows[i]) {
        assert Evaluated(before, ScheduleOf(s, rows[..n][i]).id, rows[..n][i]);
      }
    }
  }

  lemma EvaluateOneAdds(s: State, eventId: Id, jobId: Id, now: Time)
    requires Valid(s) && HasSchedule(s, eventId) && !Evaluated(s, ScheduleOf(s, eventId).id, eventId) && jobId !in s.queue.jobs
    ensures EvaluateOne(s, eventId, jobId, now).Some?
    ensures var r := EvaluateOne(s, eventId, jobId, now).value;
            r.queue.jobs.Keys <= s.queue.jobs.Keys + {jobId}
  {
    var r := EvaluateOne(s, eventId, jobId, now).value;
    if ScoreMatches(s.events[eventId].score, ScheduleOf(s, eventId).minimum, ScheduleOf(s, eventId).maximum) {
      TriggerJobIsNew(s, eventId, jobId, now);
    }
  }

  lemma {:induction false} EvaluateAllOnlyAdds(s: State, rows: seq<Id>, jobIds: seq<Id>, now: Time)
    requires |jobIds| >= |rows| && forall i :: 0 <= i < |rows| ==> HasSchedule(s, rows[i])
    requires EvaluateAll(s, rows, jobIds, now).Some?
    ensures forall v :: v in s.evaluations ==> v in EvaluateAll(s, rows, jobIds, now).value.evaluations
    decreases |rows|
  {
    if rows != [] {
      assert HasSchedule(s, rows[|rows| - 1]);
      EvaluateAllOnlyAdds(s, rows[..|rows| - 1], jobIds, now);
    }
  }

  /** Evaluations are never taken back. */
  lemma EvaluationsStay(s: State, a: Action)
    ensures forall v :: v in s.evaluations ==> v in Apply(s, a).evaluations
    ensures forall e :: e in s.events ==> e in Apply(s, a).events && Apply(s, a).events[e] == s.events[e]
  {
    if NowOf(a) > s.clock && a.Tick? && Effect(s, a) != s {
      EvaluateAllOnlyAdds(s, a.rows, a.jobIds, a.now);
    }
  }

  /** No action puts another event before a pending one. */
  lemma NothingOvertakes(s: State, a: Action, eventId: Id)
    requires Valid(s) && eventId in s.events
    ensures eventId in Apply(s, a).events
    ensures Ahead(Apply(s, a), eventId) <= Ahead(s, eventId)
  {
    var r := Apply(s, a);
    EvaluationsStay(s, a);
    forall other | other in Ahead(r, eventId) ensures other in Ahead(s, eventId) {
      assert Eligible(r, other);
      if NowOf(a) > s.clock {
        assert other in s.events;
        assert HasSchedule(s, other) && ScheduleOf(s, other).id == ScheduleOf(r, other).id;
      }
    }
  }

  /** A pending event whose schedule stays enabled stays pending until it is evaluated. */
  lemma StaysPending(s: State, a: Action, eventId: Id)
    requires Valid(s) && Pending(s, eventId)
    requires HasSchedule(Apply(s, a), eventId) && ScheduleOf(Apply(s, a), eventId).enabled
    ensures ScheduleOf(Apply(s, a), eventId).id == ScheduleOf(s, eventId).id
    ensures Pending(Apply(s, a), eventId) || Evaluated(Apply(s, a), ScheduleOf(s, eventId).id, eventId)
  {
    EvaluationsStay(s, a);
  }

  /** An undisturbed tick evaluates a pending event, or `limit` of those ahead of it. */
  lemma UndisturbedTickProgresses(s: State, a: Action, eventId: Id)
    requires Valid(s) && Pending(s, eventId) && UndisturbedTick(s, a)
    ensures eventId in Apply(s, a).events
    ensures || Evaluated(Apply(s, a), ScheduleOf(s, eventId).id, eventId)
            || |Ahead(Apply(s, a), eventId)| + a.limit <= |Ahead(s, eventId)|
  {
    var r := Apply(s, a);
    forall i | 0 <= i < |a.rows| ensures Pending(s, a.rows[i]) {
      assert Candidate(s, a.seen, a.done, a.locked, a.rows[i]);
    }
    EvaluateAllSucceeds(s, a.rows, a.jobIds, a.now);
    EvaluateAllCovers(s, a.rows, a.jobIds, a.now);
    assert r.evaluations == EvaluateAll(s, a.rows, a.jobIds, a.now).value.evaluations;
    assert forall i :: 0 <= i < |a.rows| ==> Evaluated(r, ScheduleOf(s, a.rows[i]).id, a.rows[i]);
    NothingOvertakes(s, a, eventId);
    if eventId !in a.rows {
      FullTickIsAhead(s, a, eventId);
      TakenLeave(s, r, a.rows, eventId);
    }
  }

  /** If the event was not returned, the tick was full, and with events ahead of it. */
  lemma FullTickIsAhead(s: State, a: Action, eventId: Id)
    requires Pending(s, eventId) && UndisturbedTick(s, a) && eventId !in a.rows
    ensures |a.rows| == a.limit
    ensures forall id :: id in a.rows ==> id in Ahead(s, eventId)
  {
    assert Candidate(s, a.seen, a.done, a.locked, eventId);
    hide Before, PastView;
    forall id | id in a.rows ensures id in Ahead(s, eventId) {
      var i :| 0 <= i < |a.rows| && a.rows[i] == id;
      assert Candidate(s, a.seen, a.done, a.locked, id) && Precedes(s, id, eventId);
    }
  }

  /** Rows that were ahead of the event and have been evaluated no longer are. */
  lemma TakenLeave(s: State, r: State, rows: seq<Id>, eventId: Id)
    requires eventId in s.events && eventId in r.events && Ahead(r, eventId) <= Ahead(s, eventId)
    requires forall i, j :: 0 <= i < j < |rows| ==> rows[i] != rows[j]
    requires forall id :: id in rows ==> id in Ahead(s, eventId)
    requires forall i :: 0 <= i < |rows| ==> HasSchedule(r, rows[i]) && Evaluated(r, ScheduleOf(r, rows[i]).id, rows[i])
    ensures |Ahead(r, eventId)| + |rows| <= |Ahead(s, eventId)|
  {
    var taken := set id | id in rows;
    DistinctCount(rows);
    forall id | id in taken ensures id !in Ahead(r, eventId) {
      var i :| 0 <= i < |rows| && rows[i] == id;
    }
    DisjointParts(Ahead(r, eventId), taken, Ahead(s, eventId));
  }

  lemma {:induction false} DistinctCount(rows: seq<Id>)
    requires forall i, j :: 0 <= i < j < |rows| ==> rows[i] != rows[j]
    ensures |set id | id in rows| == |rows|
    decreases |rows|
  {
    if rows != [] {
      var front := rows[..|rows| - 1];
      DistinctCount(front);
      assert (set id | id in rows) == (set id | id in front) + {rows[|rows| - 1]};
      assert rows[|rows| - 1] !in front;
    }
  }

  lemma DisjointParts(a: set<Id>, b: set<Id>, whole: set<Id>)
    requires a <= whole && b <= whole && a !! b
    ensures |a| + |b| <= |whole|
  {
    assert a + b <= whole;
    SubsetCount(a + b, whole);
  }

  lemma {:induction false} SubsetCount(a: set<Id>, b: set<Id>)
    requires a <= b
    ensures |a| <= |b|
    decreases |a|
  {
    if a != {} {
      var x :| x in a;
      SubsetCount(a - {x}, b - {x});
    }
  }

  /** The event's schedule is enabled after every action of the run. */
  ghost predicate AlwaysEnabled(s: State, actions: seq<Action>, eventId: Id) {
    forall k :: 0 <= k <= |actions| ==>
                  HasSchedule(Run(s, actions[..k]), eventId) && ScheduleOf(Run(s, actions[..k]), eventId).enabled
  }

  /** No action delays a pending event, and an undisturbed tick brings it nearer. */
  lemma StepShrinks(s: State, a: Action, eventId: Id)
    requires Valid(s) && Pending(s, eventId)
    requires HasSchedule(Apply(s, a), eventId) && ScheduleOf(Apply(s, a), eventId).enabled
    ensures var r := Apply(s, a);
            && ScheduleOf(r, eventId).id == ScheduleOf(s, eventId).id
            && (|| Evaluated(r, ScheduleOf(s, eventId).id, eventId)
                || (&& Pending(r, eventId)
                    && |Ahead(r, eventId)| + (if UndisturbedTick(s, a) then a.limit else 0) <= |Ahead(s, eventId)|))
  {
    StaysPending(s, a, eventId);
    if UndisturbedTick(s, a) {
      UndisturbedTickProgresses(s, a, eventId);
    } else {
      NothingOvertakes(s, a, eventId);
      SubsetCount(Ahead(Apply(s, a), eventId), Ahead(s, eventId));
    }
  }

  lemma EvaluatedStays(s: State, a: Action, eventId: Id)
    requires HasSchedule(s, eventId) && Evaluated(s, ScheduleOf(s, eventId).id, eventId)
    requires HasSchedule(Apply(s, a), eventId)
    ensures ScheduleOf(Apply(s, a), eventId).id == ScheduleOf(s, eventId).id
    ensures Evaluated(Apply(s, a), ScheduleOf(s, eventId).id, eventId)
  {
    EvaluationsStay(s, a);
  }

  lemma {:induction false} WaitingShrinks(s: State, actions: seq<Action>, eventId: Id)
    requires Valid(s) && Pending(s, eventId) && AlwaysEnabled(s, actions, eventId)
    ensures var r := Run(s, actions);
            && eventId in r.events && HasSchedule(r, eventId)
            && ScheduleOf(r, eventId).id == ScheduleOf(s, eventId).id
            && (|| Evaluated(r, ScheduleOf(s, eventId).id, eventId)
                || (Pending(r, eventId) && 1 <= |Ahead(r, eventId)| && |Ahead(r, eventId)| + Capacity(s, actions) <= |Ahead(s, eventId)|))
    decreases |actions|
  {
    assert HasSchedule(s, eventId);
    hide Apply, Evaluated, Pending, Ahead, Valid, UndisturbedTick, ScheduleOf;
    if Pending(Run(s, actions), eventId) { PendingIsAhead(Run(s, actions), eventId); }
    if actions != [] {
      var before := actions[..|actions| - 1];
      var last := actions[|actions| - 1];
      assert actions[..|actions|] == actions;
      assert forall k :: 0 <= k <= |before| ==> before[..k] == actions[..k];
      WaitingShrinks(s, before, eventId);
      RunKeepsValid(s, before);
      var at := Run(s, before);
      assert Apply(at, last) == Run(s, actions);
      assert HasSchedule(Run(s, actions), eventId);
      if Evaluated(at, ScheduleOf(s, eventId).id, eventId) {
        EvaluatedStays(at, last, eventId);
      } else {
        StepShrinks(at, last, eventId);
      }
    }
  }

  /**
   * Repeated ticks of any positive batch size evaluate every eligible event of a schedule that stays
   * enabled: at the latest when the undisturbed ticks had room for the events ahead of it, whatever
   * disturbed ticks, new events and changes of other schedules come in between.
   */
  lemma {:induction false} EligibleEventsAreEvaluated(s: State, actions: seq<Action>, eventId: Id)
    requires Valid(s) && Pending(s, eventId) && AlwaysEnabled(s, actions, eventId)
    requires Capacity(s, actions) >= |Ahead(s, eventId)|
    ensures Evaluated(Run(s, actions), ScheduleOf(s, eventId).id, eventId)
  {
    WaitingShrinks(s, actions, eventId);
  }
}
