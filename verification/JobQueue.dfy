/**
 * The leased job queue. Each repository method is one atomic step on the table of jobs and the log.
 * A claim first recovers expired leases, then takes the oldest job that may run; a finalisation is
 * fenced by the worker and the attempt it was claimed with.
 */
module JobQueue {
  import opened Domain
  import opened EventReads

  datatype Job = Job(
    id: Id,
    repositoryId: Option<Id>,
    jobType: string,
    status: JobStatus,
    attemptCount: int,
    maxAttempts: int,
    payload: string,
    resultMetadata: string,
    runAfter: Time,
    lockedBy: Option<string>,
    lockedAt: Option<Time>,
    leaseExpiresAt: Option<Time>,
    idempotencyKey: Option<string>,
    errorSummary: Option<string>,
    createdAt: Time,
    updatedAt: Time)

  datatype Queue = Queue(jobs: map<Id, Job>, log: seq<Event>)

  const EMPTY := Queue(map[], [])

  const NO_METADATA := "{}"

  const RECOVERY_LIMIT := 100

  datatype JobError = JobNotFound | NotRunning | OwnerChanged | AttemptChanged | BadMaxAttempts | BlankKey | IdTaken

  /**
   * `locked` are the rows that other transactions hold, which a claim skips; `expired` and `picked`
   * are the rows its two queries return.
   */
  datatype Action =
    | Enqueue(id: Id, repositoryId: Option<Id>, jobType: string, payload: string, maxAttempts: int, key: Option<string>, now: Time)
    | Claim(worker: string, leaseDuration: Time, jobTypes: Option<set<string>>, now: Time, locked: set<Id>,
            expired: seq<Id>, picked: Option<Id>)
    | Succeed(id: Id, metadata: Option<string>, expectedWorker: Option<string>, expectedAttempt: Option<int>, now: Time)
    | Fail(id: Id, error: string, retry: bool, metadata: Option<string>, expectedWorker: Option<string>,
           expectedAttempt: Option<int>, now: Time)

  // ---- One job -------------------------------------------------------------------------

  predicate Over(status: JobStatus) {
    status in {JobSucceeded, JobFailed, JobCancelled}
  }

  predicate Waiting(status: JobStatus) {
    status == JobQueued || status == JobRetryWait
  }

  function Claimed(job: Job, worker: string, leaseDuration: Time, now: Time): Job {
    job.(status := JobRunning, lockedBy := Some(worker), lockedAt := Some(now), leaseExpiresAt := Some(now + leaseDuration),
         attemptCount := job.attemptCount + 1, errorSummary := None, resultMetadata := NO_METADATA, updatedAt := now)
  }

  function Unlocked(job: Job, now: Time): Job {
    job.(lockedBy := None, lockedAt := None, leaseExpiresAt := None, updatedAt := now)
  }

  function Recovered(job: Job, now: Time): Job {
    var exhausted := job.attemptCount >= job.maxAttempts;
    Unlocked(job, now).(
      status := if exhausted then JobFailed else JobQueued,
      runAfter := now,
      errorSummary := Some(if exhausted then "Job stopped after its worker lease expired."
                           else "Previous worker lease expired; job queued for recovery."))
  }

  function OrNone(metadata: Option<string>): string {
    if metadata.Some? then metadata.value else NO_METADATA
  }

  function SucceededJob(job: Job, metadata: Option<string>, now: Time): Job {
    Unlocked(job, now).(status := JobSucceeded, errorSummary := None, resultMetadata := OrNone(metadata))
  }

  function Pow2(n: nat): nat {
    if n == 0 then 1 else 2 * Pow2(n - 1)
  }

  /** Seconds before a failed attempt may run again. No job has a negative number of attempts. */
  function RetryDelay(attemptCount: int): int {
    if attemptCount < 0 || Pow2(attemptCount) > 300 then 300 else Pow2(attemptCount)
  }

  function FailedJob(job: Job, error: string, retry: bool, metadata: Option<string>, now: Time): Job {
    var again := retry && job.attemptCount < job.maxAttempts;
    Unlocked(job, now).(
      status := if again then JobRetryWait else JobFailed,
      runAfter := if again then now + RetryDelay(job.attemptCount) else job.runAfter,
      errorSummary := Some(if |error| > 1000 then error[..1000] else error),
      resultMetadata := OrNone(metadata))
  }

  // ---- Effects on the table ------------------------------------------------------------

  function JobEvent(job: Job): EventInput {
    EventInput(JobStatusChanged, Scope(job.repositoryId, Some(job.id), None, None), JobPayload(job.status))
  }

  /** Writes a job row and appends its event. */
  function Put(q: Queue, job: Job): Queue {
    Queue(q.jobs[job.id := job], q.log + [Stamp(JobEvent(job), |q.log| + 1)])
  }

  predicate Expired(job: Job, now: Time) {
    job.status == JobRunning && job.leaseExpiresAt.Some? && job.leaseExpiresAt.value <= now
  }

  predicate Claimable(job: Job, jobTypes: Option<set<string>>, now: Time) {
    && Waiting(job.status)
    && job.runAfter <= now
    && job.attemptCount < job.maxAttempts
    && (jobTypes.Some? ==> job.jobType in jobTypes.value)
  }

  /** What the recovery query returns: at most `limit` expired rows, the earliest leases first. */
  ghost predicate ExpiredRows(q: Queue, now: Time, locked: set<Id>, limit: nat, rows: seq<Id>) {
    && |rows| <= limit
    && (forall i, j :: 0 <= i < j < |rows| ==> rows[i] != rows[j])
    && (forall id :: id in rows ==> id in q.jobs && id !in locked && Expired(q.jobs[id], now))
    && (forall i, j :: 0 <= i < j < |rows| ==> q.jobs[rows[i]].leaseExpiresAt.value <= q.jobs[rows[j]].leaseExpiresAt.value)
    && (forall id :: id in q.jobs && id !in locked && Expired(q.jobs[id], now) && id !in rows ==>
          && |rows| == limit
          && forall i :: 0 <= i < |rows| ==> q.jobs[rows[i]].leaseExpiresAt.value <= q.jobs[id].leaseExpiresAt.value)
  }

  /** What the claim query returns: an oldest claimable row, if there is one. */
  ghost predicate OldestClaimable(q: Queue, jobTypes: Option<set<string>>, now: Time, locked: set<Id>, picked: Option<Id>) {
    if jobTypes == Some({}) then picked.None?
    else match picked
      case None => forall id :: id in q.jobs && id !in locked ==> !Claimable(q.jobs[id], jobTypes, now)
      case Some(id) =>
        && id in q.jobs && id !in locked && Claimable(q.jobs[id], jobTypes, now)
        && forall other :: other in q.jobs && other !in locked && Claimable(q.jobs[other], jobTypes, now) ==>
                             q.jobs[id].createdAt <= q.jobs[other].createdAt
  }

  /** Recovers the rows one after the other. */
  function RecoverAll(q: Queue, rows: seq<Id>, now: Time): Queue
    requires forall id :: id in rows ==> id in q.jobs
    ensures RecoverAll(q, rows, now).jobs.Keys == q.jobs.Keys
    decreases |rows|
  {
    if rows == [] then q
    else
      var before := RecoverAll(q, rows[..|rows| - 1], now);
      var id := rows[|rows| - 1];
      Put(before, Recovered(before.jobs[id], now).(id := id))
  }

  /** The fence: the checks a finalisation makes on the row. */
  function LeaseObstacle(q: Queue, id: Id, expectedWorker: Option<string>, expectedAttempt: Option<int>): Option<JobError> {
    if id !in q.jobs then Some(JobNotFound)
    else if q.jobs[id].status != JobRunning then Some(NotRunning)
    else if expectedWorker.Some? && q.jobs[id].lockedBy != expectedWorker then Some(OwnerChanged)
    else if expectedAttempt.Some? && q.jobs[id].attemptCount != expectedAttempt.value then Some(AttemptChanged)
    else None
  }

  ghost predicate HasKey(q: Queue, key: string, id: Id) {
    id in q.jobs && q.jobs[id].idempotencyKey == Some(key)
  }

  function NewJob(id: Id, repositoryId: Option<Id>, jobType: string, payload: string, maxAttempts: int, key: Option<string>, now: Time): Job {
    Job(id, repositoryId, jobType, JobQueued, 0, maxAttempts, payload, NO_METADATA, now, None, None, None, key, None, now, now)
  }

  function EnqueueObstacle(q: Queue, id: Id, maxAttempts: int, key: Option<string>): Option<JobError> {
    if maxAttempts < 1 then Some(BadMaxAttempts)
    else if key.Some? && Strip(key.value) == "" then Some(BlankKey)
    else if id in q.jobs then Some(IdTaken)
    else None
  }

  /** The effect of one call. A claim with rows its queries could not have returned does nothing. */
  ghost function Apply(q: Queue, a: Action): Queue {
    match a
    case Enqueue(id, repositoryId, jobType, payload, maxAttempts, key, now) =>
      if EnqueueObstacle(q, id, maxAttempts, key).Some? then q
      else if key.Some? && exists other :: HasKey(q, Strip(key.value), other) then q
      else Put(q, NewJob(id, repositoryId, jobType, payload, maxAttempts, if key.Some? then Some(Strip(key.value)) else None, now))
    case Claim(worker, leaseDuration, jobTypes, now, locked, expired, picked) =>
      if !ExpiredRows(q, now, locked, RECOVERY_LIMIT, expired) then q
      else
        var r := RecoverAll(q, expired, now);
        if !OldestClaimable(r, jobTypes, now, locked, picked) then q
        else if picked.None? then r
        else Put(r, Claimed(r.jobs[picked.value], worker, leaseDuration, now))
    case Succeed(id, metadata, expectedWorker, expectedAttempt, now) =>
      if LeaseObstacle(q, id, expectedWorker, expectedAttempt).Some? then q
      else Put(q, SucceededJob(q.jobs[id], metadata, now))
    case Fail(id, error, retry, metadata, expectedWorker, expectedAttempt, now) =>
      if LeaseObstacle(q, id, expectedWorker, expectedAttempt).Some? then q
      else Put(q, FailedJob(q.jobs[id], error, retry, metadata, now))
  }

  ghost function Run(q: Queue, actions: seq<Action>): Queue
    decreases |actions|
  {
    if actions == [] then q else Apply(Run(q, actions[..|actions| - 1]), actions[|actions| - 1])
  }

  // ---- Invariants ----------------------------------------------------------------------

  /** The lock fields are set exactly while the job runs, and a waiting job has attempts left. */
  predicate JobValid(job: Job) {
    && 0 <= job.attemptCount <= job.maxAttempts && 1 <= job.maxAttempts
    && (job.status == JobRunning <==> job.lockedBy.Some?)
    && (job.status == JobRunning <==> job.lockedAt.Some?)
    && (job.status == JobRunning <==> job.leaseExpiresAt.Some?)
    && (job.status == JobRunning ==> 1 <= job.attemptCount)
    && (Waiting(job.status) ==> job.attemptCount < job.maxAttempts)
  }

  function LastStatus(log: seq<Event>, id: Id): Option<JobStatus>
    decreases |log|
  {
    if log == [] then None
    else
      var last := log[|log| - 1];
      if last.scope.jobId == Some(id) && last.payload.JobPayload? then Some(last.payload.status) else LastStatus(log[..|log| - 1], id)
  }

  function JobEvents(log: seq<Event>, id: Id): nat
    decreases |log|
  {
    if log == [] then 0
    else
      JobEvents(log[..|log| - 1], id) +
      if log[|log| - 1].scope.jobId == Some(id) && log[|log| - 1].payload.JobPayload? then 1 else 0
  }

  /** What is left of a job's life: every change of its row uses some of it up. */
  function Fuel(job: Job): int {
    if Over(job.status) then 0
    else 2 * (job.maxAttempts - job.attemptCount) + if job.status == JobRunning then 1 else 0
  }

  /** A job's row, its last event and the number of its events agree. */
  ghost predicate RowValid(q: Queue, id: Id)
    requires id in q.jobs
  {
    var job := q.jobs[id];
    && job.id == id && JobValid(job)
    && LastStatus(q.log, id) == Some(job.status)
    && JobEvents(q.log, id) + Fuel(job) <= 2 * job.maxAttempts + 1
  }

  ghost predicate KeysUnique(q: Queue) {
    forall a, b, key :: HasKey(q, key, a) && HasKey(q, key, b) ==> a == b
  }

  ghost predicate Valid(q: Queue) {
    && Gapless(q.log)
    && KeysUnique(q)
    && (forall id :: id in q.jobs ==> RowValid(q, id))
    && (forall id :: id !in q.jobs ==> JobEvents(q.log, id) == 0)
  }

  /** The changes a row can make: each keeps its identity and uses fuel. */
  predicate Moves(was: Job, job: Job) {
    && job.id == was.id && job.maxAttempts == was.maxAttempts && job.idempotencyKey == was.idempotencyKey
    && job.createdAt == was.createdAt && job.jobType == was.jobType && job.payload == was.payload
    && !Over(was.status)
    && Fuel(job) < Fuel(was)
    && was.attemptCount <= job.attemptCount
    && (job.status == JobRunning ==> was.attemptCount < job.attemptCount)
  }

  lemma LogSnoc(log: seq<Event>, e: Event, id: Id)
    ensures LastStatus(log + [e], id) ==
            if e.scope.jobId == Some(id) && e.payload.JobPayload? then Some(e.payload.status) else LastStatus(log, id)
    ensures JobEvents(log + [e], id) ==
            JobEvents(log, id) + if e.scope.jobId == Some(id) && e.payload.JobPayload? then 1 else 0
  {
    assert (log + [e])[..|log|] == log;
  }

  lemma MoveKeepsValid(q: Queue, job: Job)
    requires Valid(q) && job.id in q.jobs && Moves(q.jobs[job.id], job) && JobValid(job)
    ensures Valid(Put(q, job))
  {
    var r := Put(q, job);
    var e := Stamp(JobEvent(job), |q.log| + 1);
    forall id | id in r.jobs ensures RowValid(r, id) {
      assert RowValid(q, id);
      LogSnoc(q.log, e, id);
    }
    forall id | id !in r.jobs ensures JobEvents(r.log, id) == 0 {
      LogSnoc(q.log, e, id);
    }
    assert forall id, key :: HasKey(r, key, id) <==> HasKey(q, key, id);
  }

  /** An event about something else, even in the scope of a job, says nothing about its status. */
  lemma OtherEventKeepsValid(q: Queue, input: EventInput)
    requires Valid(q) && !input.payload.JobPayload?
    ensures Valid(q.(log := q.log + [Stamp(input, |q.log| + 1)]))
  {
    var r := q.(log := q.log + [Stamp(input, |q.log| + 1)]);
    forall id | id in r.jobs ensures RowValid(r, id) {
      assert RowValid(q, id);
      LogSnoc(q.log, Stamp(input, |q.log| + 1), id);
    }
    forall id | id !in r.jobs ensures JobEvents(r.log, id) == 0 {
      LogSnoc(q.log, Stamp(input, |q.log| + 1), id);
    }
    assert forall id, key :: HasKey(r, key, id) <==> HasKey(q, key, id);
  }

  lemma EnqueueKeepsValid(q: Queue, job: Job)
    requires Valid(q) && job.id !in q.jobs && JobValid(job) && job.status == JobQueued && job.attemptCount == 0
    requires job.idempotencyKey.Some? ==> forall id :: !HasKey(q, job.idempotencyKey.value, id)
    ensures Valid(Put(q, job))
  {
    var r := Put(q, job);
    var e := Stamp(JobEvent(job), |q.log| + 1);
    forall id | id in r.jobs ensures RowValid(r, id) {
      assert id in q.jobs ==> RowValid(q, id);
      LogSnoc(q.log, e, id);
    }
    forall id | id !in r.jobs ensures JobEvents(r.log, id) == 0 {
      LogSnoc(q.log, e, id);
    }
    assert forall id, key :: HasKey(r, key, id) ==> HasKey(q, key, id) || (id == job.id && job.idempotencyKey == Some(key));
  }

  ghost predicate Distinct(rows: seq<Id>) {
    forall i, j :: 0 <= i < j < |rows| ==> rows[i] != rows[j]
  }

  lemma RecoverMoves(q: Queue, id: Id, now: Time)
    requires Valid(q) && id in q.jobs && q.jobs[id].status == JobRunning
    ensures Recovered(q.jobs[id], now).id == id && Moves(q.jobs[id], Recovered(q.jobs[id], now))
    ensures Valid(Put(q, Recovered(q.jobs[id], now)))
  {
    assert RowValid(q, id);
    MoveKeepsValid(q, Recovered(q.jobs[id], now));
  }

  lemma {:induction false} RecoverAllMoves(q: Queue, rows: seq<Id>, now: Time)
    requires Valid(q) && Distinct(rows)
    requires forall id :: id in rows ==> id in q.jobs && q.jobs[id].status == JobRunning
    ensures Valid(RecoverAll(q, rows, now))
    ensures forall id :: id in q.jobs ==>
                           RecoverAll(q, rows, now).jobs[id] == if id in rows then Recovered(q.jobs[id], now) else q.jobs[id]
    decreases |rows|
  {
    hide Valid, Recovered;
    if rows != [] {
      var front := rows[..|rows| - 1];
      var last := rows[|rows| - 1];
      assert rows == front + [last];
      RecoverAllMoves(q, front, now);
      assert last !in front;
      RecoverMoves(RecoverAll(q, front, now), last, now);
      assert RecoverAll(q, rows, now) == Put(RecoverAll(q, front, now), Recovered(q.jobs[last], now));
    }
  }

  lemma RecoverAllMovesOne(q: Queue, rows: seq<Id>, now: Time, locked: set<Id>, id: Id)
    requires Valid(q) && id in q.jobs && ExpiredRows(q, now, locked, RECOVERY_LIMIT, rows)
    ensures var r := RecoverAll(q, rows, now);
            && Valid(r) && id in r.jobs
            && (r.jobs[id] == q.jobs[id] || (Moves(q.jobs[id], r.jobs[id]) && r.jobs[id].status != JobRunning))
  {
    RecoverAllMoves(q, rows, now);
    assert RowValid(q, id);
    hide RowValid, RecoverAll;
  }

  lemma TakeMoves(q: Queue, id: Id, jobTypes: Option<set<string>>, worker: string, leaseDuration: Time, now: Time)
    requires Valid(q) && id in q.jobs && Claimable(q.jobs[id], jobTypes, now)
    ensures var job := Claimed(q.jobs[id], worker, leaseDuration, now);
            Valid(Put(q, job)) && Moves(q.jobs[id], job) && job.id == id
  {
    assert RowValid(q, id);
    MoveKeepsValid(q, Claimed(q.jobs[id], worker, leaseDuration, now));
  }

  lemma MovesCompose(a: Job, b: Job, c: Job)
    requires Moves(a, b) && Moves(b, c)
    ensures Moves(a, c)
  {
  }

  /** The claim, as the recovery followed by the one row it takes. */
  lemma ClaimMoves(q: Queue, a: Action, id: Id)
    requires Valid(q) && a.Claim? && id in q.jobs
    ensures id in Apply(q, a).jobs
    ensures Apply(q, a).jobs[id] == q.jobs[id] || Moves(q.jobs[id], Apply(q, a).jobs[id])
  {
    if ExpiredRows(q, a.now, a.locked, RECOVERY_LIMIT, a.expired) {
      RecoverAllMovesOne(q, a.expired, a.now, a.locked, id);
      var r := RecoverAll(q, a.expired, a.now);
      if OldestClaimable(r, a.jobTypes, a.now, a.locked, a.picked) && a.picked.Some? {
        TakeMoves(r, a.picked.value, a.jobTypes, a.worker, a.leaseDuration, a.now);
        var job := Claimed(r.jobs[a.picked.value], a.worker, a.leaseDuration, a.now);
        assert Apply(q, a) == Put(r, job);
        if a.picked.value == id && r.jobs[id] != q.jobs[id] {
          MovesCompose(q.jobs[id], r.jobs[id], job);
        }
      }
    }
  }

  lemma FinaliseMoves(q: Queue, a: Action, id: Id)
    requires Valid(q) && (a.Succeed? || a.Fail?) && id in q.jobs
    ensures Valid(Apply(q, a)) && id in Apply(q, a).jobs
    ensures Apply(q, a).jobs[id] == q.jobs[id] || Moves(q.jobs[id], Apply(q, a).jobs[id])
  {
    if LeaseObstacle(q, a.id, a.expectedWorker, a.expectedAttempt).None? {
      assert RowValid(q, a.id);
      MoveKeepsValid(q, Apply(q, a).jobs[a.id]);
    }
  }

  lemma EnqueueMoves(q: Queue, a: Action)
    requires Valid(q) && a.Enqueue?
    ensures Valid(Apply(q, a))
    ensures forall id :: id in q.jobs ==> id in Apply(q, a).jobs && Apply(q, a).jobs[id] == q.jobs[id]
  {
    if EnqueueObstacle(q, a.id, a.maxAttempts, a.key).None? && !(a.key.Some? && exists other :: HasKey(q, Strip(a.key.value), other)) {
      EnqueueKeepsValid(q, NewJob(a.id, a.repositoryId, a.jobType, a.payload, a.maxAttempts,
                                  if a.key.Some? then Some(Strip(a.key.value)) else None, a.now));
    }
  }

  /** An enqueue under a key that nobody holds adds exactly the new job. */
  lemma EnqueueAddsOne(q: Queue, a: Action)
    requires Valid(q) && a.Enqueue? && a.key.Some?
    requires EnqueueObstacle(q, a.id, a.maxAttempts, a.key).None?
    requires forall other :: !HasKey(q, Strip(a.key.value), other)
    ensures Valid(Apply(q, a))
    ensures Apply(q, a).jobs ==
            q.jobs[a.id := NewJob(a.id, a.repositoryId, a.jobType, a.payload, a.maxAttempts, Some(Strip(a.key.value)), a.now)]
  {
    EnqueueMoves(q, a);
  }

  /** Every action keeps the invariant, and leaves a job's row alone or moves it forward. */
  lemma ApplyMoves(q: Queue, a: Action, id: Id)
    requires Valid(q)
    ensures Valid(Apply(q, a))
    ensures id in q.jobs ==>
              && id in Apply(q, a).jobs
              && (Apply(q, a).jobs[id] == q.jobs[id] || Moves(q.jobs[id], Apply(q, a).jobs[id]))
  {
    match a
    case Enqueue(_, _, _, _, _, _, _) => EnqueueMoves(q, a);
    case Claim(_, _, _, _, _, _, _) =>
      ClaimKeepsValid(q, a);
      if id in q.jobs { ClaimMoves(q, a, id); }
    case Succeed(_, _, _, _, _) =>
      if id in q.jobs { FinaliseMoves(q, a, id); } else if a.id in q.jobs { FinaliseMoves(q, a, a.id); }
    case Fail(_, _, _, _, _, _, _) =>
      if id in q.jobs { FinaliseMoves(q, a, id); } else if a.id in q.jobs { FinaliseMoves(q, a, a.id); }
  }

  lemma ClaimKeepsValid(q: Queue, a: Action)
    requires Valid(q) && a.Claim?
    ensures Valid(Apply(q, a))
  {
    if ExpiredRows(q, a.now, a.locked, RECOVERY_LIMIT, a.expired) {
      RecoverAllMoves(q, a.expired, a.now);
      var r := RecoverAll(q, a.expired, a.now);
      if OldestClaimable(r, a.jobTypes, a.now, a.locked, a.picked) && a.picked.Some? {
        TakeMoves(r, a.picked.value, a.jobTypes, a.worker, a.leaseDuration, a.now);
      }
    }
  }

  /** Only an enqueue adds a job. */
  lemma OnlyEnqueueAdds(q: Queue, a: Action)
    requires Valid(q) && !a.Enqueue?
    ensures Apply(q, a).jobs.Keys == q.jobs.Keys
  {
    match a
    case Claim(worker, leaseDuration, jobTypes, now, locked, expired, picked) =>
      if ExpiredRows(q, now, locked, RECOVERY_LIMIT, expired) {
        RecoverAllMoves(q, expired, now);
        var r := RecoverAll(q, expired, now);
        if OldestClaimable(r, jobTypes, now, locked, picked) && picked.Some? {
          TakeMoves(r, picked.value, jobTypes, worker, leaseDuration, now);
        }
      }
    case Succeed(id, _, _, _, _) => if id in q.jobs { assert RowValid(q, id); }
    case Fail(id, _, _, _, _, _, _) => if id in q.jobs { assert RowValid(q, id); }
  }

  lemma {:induction false} RunMoves(q: Queue, actions: seq<Action>, id: Id)
    requires Valid(q)
    ensures Valid(Run(q, actions))
    ensures id in q.jobs ==>
              && id in Run(q, actions).jobs
              && (Run(q, actions).jobs[id] == q.jobs[id] || Moves(q.jobs[id], Run(q, actions).jobs[id]))
    decreases |actions|
  {
    if actions != [] {
      RunMoves(q, actions[..|actions| - 1], id);
      ApplyMoves(Run(q, actions[..|actions| - 1]), actions[|actions| - 1], id);
    }
  }

  lemma {:induction false} RunSplit(q: Queue, first: seq<Action>, second: seq<Action>)
    ensures Run(q, first + second) == Run(Run(q, first), second)
    decreases |second|
  {
    if second == [] {
      assert first + second == first;
    } else {
      assert (first + second)[..|first + second| - 1] == first + second[..|second| - 1];
      RunSplit(q, first, second[..|second| - 1]);
    }
  }

  // ---- Runs of many workers ------------------------------------------------------------

  /** The queue after the first `k` actions of a run from the empty queue. */
  ghost function At(actions: seq<Action>, k: nat): Queue
    requires k <= |actions|
  {
    Run(EMPTY, actions[..k])
  }

  lemma AtIsValid(actions: seq<Action>, k: nat)
    requires k <= |actions|
    ensures Valid(At(actions, k))
  {
    RunMoves(EMPTY, actions[..k], "");
  }

  lemma AtNext(actions: seq<Action>, k: nat)
    requires k < |actions|
    ensures At(actions, k + 1) == Apply(At(actions, k), actions[k])
  {
    assert actions[..k + 1][..k] == actions[..k];
  }

  /** Between two points of a run a job's row stays the same or has moved forward. */
  lemma BetweenPoints(actions: seq<Action>, i: nat, k: nat, id: Id)
    requires i <= k <= |actions| && id in At(actions, i).jobs
    ensures id in At(actions, k).jobs
    ensures At(actions, k).jobs[id] == At(actions, i).jobs[id] || Moves(At(actions, i).jobs[id], At(actions, k).jobs[id])
  {
    AtIsValid(actions, i);
    assert actions[..k] == actions[..i] + actions[i..k];
    RunSplit(EMPTY, actions[..i], actions[i..k]);
    RunMoves(At(actions, i), actions[i..k], id);
  }

  /** Action `i` is a claim that handed job `id` to `worker` as its attempt number `attempt`. */
  ghost predicate Issued(actions: seq<Action>, i: nat, id: Id, worker: string, attempt: int) {
    && i < |actions|
    && actions[i].Claim? && actions[i].picked == Some(id) && actions[i].worker == worker
    && id in At(actions, i).jobs && id in At(actions, i + 1).jobs
    && At(actions, i + 1).jobs[id] != At(actions, i).jobs[id]
    && At(actions, i + 1).jobs[id].status == JobRunning
    && At(actions, i + 1).jobs[id].lockedBy == Some(worker)
    && At(actions, i + 1).jobs[id].attemptCount == attempt
  }

  /** The row of the job is the one the claim left: nobody recovered, finalised or reclaimed it since. */
  ghost predicate UntouchedSince(actions: seq<Action>, i: nat, k: nat, id: Id)
    requires i < k <= |actions| && id in At(actions, i + 1).jobs
  {
    forall m :: i < m <= k ==> id in At(actions, m).jobs && At(actions, m).jobs[id] == At(actions, i + 1).jobs[id]
  }

  /**
   * Lease fencing: a finalisation carrying the worker and the attempt of a claim is accepted exactly
   * while the job's row is the one that claim left, however often the same worker claims it again.
   */
  lemma {:induction false} FencedFinaliseIsExact(actions: seq<Action>, i: nat, k: nat, id: Id, worker: string, attempt: int)
    requires i < k <= |actions| && Issued(actions, i, id, worker, attempt)
    ensures LeaseObstacle(At(actions, k), id, Some(worker), Some(attempt)).None? <==> UntouchedSince(actions, i, k, id)
  {
    var row := At(actions, i + 1).jobs[id];
    BetweenPoints(actions, i + 1, k, id);
    if LeaseObstacle(At(actions, k), id, Some(worker), Some(attempt)).None? {
      forall m | i < m <= k ensures id in At(actions, m).jobs && At(actions, m).jobs[id] == row {
        BetweenPoints(actions, i + 1, m, id);
        BetweenPoints(actions, m, k, id);
      }
    }
  }

  lemma FreshlyIssued(actions: seq<Action>, i: nat, id: Id, worker: string, attempt: int)
    requires i < |actions| && LeaseObstacle(At(actions, i + 1), id, Some(worker), Some(attempt)).None?
    requires id in At(actions, i).jobs ==> At(actions, i).jobs[id] != At(actions, i + 1).jobs[id]
    ensures Issued(actions, i, id, worker, attempt) && UntouchedSince(actions, i, i + 1, id)
  {
    AtNext(actions, i);
    AtIsValid(actions, i);
    OnlyClaimsStart(At(actions, i), actions[i], id);
  }

  /** A running row was issued by a claim, and not touched since. */
  lemma {:induction false} RunningRowWasIssued(actions: seq<Action>, k: nat, id: Id, worker: string, attempt: int) returns (i: nat)
    requires k <= |actions| && LeaseObstacle(At(actions, k), id, Some(worker), Some(attempt)).None?
    ensures i < k && Issued(actions, i, id, worker, attempt) && UntouchedSince(actions, i, k, id)
    decreases k
  {
    NothingAtStart(actions, k, id);
    if id in At(actions, k - 1).jobs && At(actions, k - 1).jobs[id] == At(actions, k).jobs[id] {
      i := RunningRowWasIssued(actions, k - 1, id, worker, attempt);
      StillUntouched(actions, i, k, id);
    } else {
      i := k - 1;
      FreshlyIssued(actions, i, id, worker, attempt);
    }
  }

  lemma StillUntouched(actions: seq<Action>, i: nat, k: nat, id: Id)
    requires i + 1 < k <= |actions| && id in At(actions, i + 1).jobs
    requires UntouchedSince(actions, i, k - 1, id)
    requires id in At(actions, k).jobs && At(actions, k).jobs[id] == At(actions, k - 1).jobs[id]
    ensures UntouchedSince(actions, i, k, id)
  {
    assert At(actions, k - 1).jobs[id] == At(actions, i + 1).jobs[id];
  }

  lemma NothingAtStart(actions: seq<Action>, k: nat, id: Id)
    requires k <= |actions| && id in At(actions, k).jobs
    ensures k > 0
  {
    assert actions[..0] == [];
  }

  /** A row that an action turns into a running one was taken by a claim. */
  lemma OnlyClaimsStart(q: Queue, a: Action, id: Id)
    requires Valid(q) && id in Apply(q, a).jobs && Apply(q, a).jobs[id].status == JobRunning
    requires id in q.jobs ==> q.jobs[id] != Apply(q, a).jobs[id]
    ensures id in q.jobs && a.Claim? && a.picked == Some(id)
    ensures Apply(q, a).jobs[id].lockedBy == Some(a.worker)
  {
    if a.Enqueue? {
      EnqueueMoves(q, a);
    } else if a.Claim? {
      if ExpiredRows(q, a.now, a.locked, RECOVERY_LIMIT, a.expired) {
        assert RecoverAll(q, a.expired, a.now).jobs.Keys == q.jobs.Keys;
        if id in q.jobs {
          RecoverAllMovesOne(q, a.expired, a.now, a.locked, id);
        }
        if a.picked.Some? && OldestClaimable(RecoverAll(q, a.expired, a.now), a.jobTypes, a.now, a.locked, a.picked) {
          RecoverAllMovesOne(q, a.expired, a.now, a.locked, a.picked.value);
          TakeMoves(RecoverAll(q, a.expired, a.now), a.picked.value, a.jobTypes, a.worker, a.leaseDuration, a.now);
        }
      }
    } else {
      FinalisedRowsRest(q, a, id);
    }
  }

  lemma FinalisedRowsRest(q: Queue, a: Action, id: Id)
    requires Valid(q) && (a.Succeed? || a.Fail?) && id in Apply(q, a).jobs
    ensures id in q.jobs
    ensures Apply(q, a).jobs[id] == q.jobs[id] || Apply(q, a).jobs[id].status != JobRunning
  {
    if a.id in q.jobs {
      assert RowValid(q, a.id);
    }
  }

  /** Each attempt is issued by one claim only. */
  lemma {:induction false} AttemptIsIssuedOnce(actions: seq<Action>, i: nat, j: nat, id: Id, w1: string, w2: string, attempt: int)
    requires Issued(actions, i, id, w1, attempt) && Issued(actions, j, id, w2, attempt)
    ensures i == j
  {
    if i < j {
      AttemptIsIssuedOnceOrdered(actions, i, j, id, w1, w2, attempt);
    } else if j < i {
      AttemptIsIssuedOnceOrdered(actions, j, i, id, w2, w1, attempt);
    }
  }

  lemma AttemptIsIssuedOnceOrdered(actions: seq<Action>, i: nat, j: nat, id: Id, w1: string, w2: string, attempt: int)
    requires Issued(actions, i, id, w1, attempt) && Issued(actions, j, id, w2, attempt)
    ensures i >= j
  {
    hide Apply, Valid;
    if i < j {
      BetweenPoints(actions, i + 1, j, id);
      BetweenPoints(actions, j, j + 1, id);
    }
  }

  /** An accepted, fenced finalisation belongs to exactly one claim, and to the job's latest. */
  lemma {:induction false} AcceptedFinaliseHasItsClaim(actions: seq<Action>, k: nat, id: Id, worker: string, attempt: int) returns (i: nat)
    requires k <= |actions| && LeaseObstacle(At(actions, k), id, Some(worker), Some(attempt)).None?
    ensures i < k && Issued(actions, i, id, worker, attempt) && UntouchedSince(actions, i, k, id)
    ensures forall j :: Issued(actions, j, id, worker, attempt) ==> j == i
    ensures forall j, w, n :: i < j < k ==> !Issued(actions, j, id, w, n)
  {
    i := RunningRowWasIssued(actions, k, id, worker, attempt);
    forall j | Issued(actions, j, id, worker, attempt) ensures j == i {
      AttemptIsIssuedOnce(actions, i, j, id, worker, worker, attempt);
    }
    forall j, w, n | i < j < k ensures !Issued(actions, j, id, w, n) {
    }
  }

  /** A finalisation went through as action `k`. */
  ghost predicate Finalised(actions: seq<Action>, k: nat, id: Id) {
    && k < |actions|
    && (actions[k].Succeed? || actions[k].Fail?) && actions[k].id == id
    && LeaseObstacle(At(actions, k), id, actions[k].expectedWorker, actions[k].expectedAttempt).None?
  }

  /** Each attempt is finalised at most once, fenced or not. */
  lemma {:induction false} AttemptIsFinalisedOnce(actions: seq<Action>, i: nat, k: nat, id: Id)
    requires Finalised(actions, i, id) && Finalised(actions, k, id)
    requires At(actions, i).jobs[id].attemptCount == At(actions, k).jobs[id].attemptCount
    ensures i == k
  {
    var a, b := if i < k then i else k, if i < k then k else i;
    if a < b {
      AtNext(actions, a);
      AtIsValid(actions, a);
      assert RowValid(At(actions, a), id);
      BetweenPoints(actions, a, a + 1, id);
      BetweenPoints(actions, a + 1, b, id);
    }
  }

  /** A job that is over stays exactly as it is. */
  lemma {:induction false} OverIsForever(actions: seq<Action>, i: nat, k: nat, id: Id)
    requires i <= k <= |actions| && id in At(actions, i).jobs && Over(At(actions, i).jobs[id].status)
    ensures id in At(actions, k).jobs && At(actions, k).jobs[id] == At(actions, i).jobs[id]
  {
    BetweenPoints(actions, i, k, id);
  }

  /** A job succeeds at most once. */
  lemma {:induction false} SucceedsAtMostOnce(actions: seq<Action>, i: nat, k: nat, id: Id)
    requires Finalised(actions, i, id) && actions[i].Succeed?
    requires Finalised(actions, k, id) && actions[k].Succeed?
    ensures i == k
  {
    var a, b := if i < k then i else k, if i < k then k else i;
    if a < b {
      AtNext(actions, a);
      AtIsValid(actions, a);
      assert RowValid(At(actions, a), id);
      OverIsForever(actions, a + 1, b, id);
    }
  }

  /**
   * No job is stranded and every job ends: in each reachable state attempts are within bounds, the
   * lock fields are set exactly while the job runs, a waiting job has attempts left, the last event
   * tells the status, and the job has had at most 2 * max_attempts changes after its creation.
   */
  lemma {:induction false} ReachableJobs(actions: seq<Action>, k: nat, id: Id)
    requires k <= |actions| && id in At(actions, k).jobs
    ensures var q := At(actions, k);
            && JobValid(q.jobs[id])
            && LastStatus(q.log, id) == Some(q.jobs[id].status)
            && JobEvents(q.log, id) <= 2 * q.jobs[id].maxAttempts + 1
  {
    AtIsValid(actions, k);
    assert RowValid(At(actions, k), id);
  }

  /** Every change of a row uses up fuel, so claims, recoveries and finalisations of a job come to an end. */
  lemma {:induction false} EveryChangeUsesFuel(actions: seq<Action>, k: nat, id: Id)
    requires k < |actions| && id in At(actions, k).jobs
    ensures id in At(actions, k + 1).jobs
    ensures At(actions, k + 1).jobs[id] != At(actions, k).jobs[id] ==>
              0 <= Fuel(At(actions, k + 1).jobs[id]) < Fuel(At(actions, k).jobs[id]) <= 2 * At(actions, k).jobs[id].maxAttempts
  {
    BetweenPoints(actions, k, k + 1, id);
    AtIsValid(actions, k);
    AtIsValid(actions, k + 1);
    assert RowValid(At(actions, k), id) && RowValid(At(actions, k + 1), id);
  }

  /** Enqueueing a key again returns the job that has it, unchanged, and records nothing. */
  lemma {:induction false} EnqueueIsIdempotent(actions: seq<Action>, i: nat, k: nat, id: Id, key: string)
    requires i < k < |actions|
    requires HasKey(At(actions, i), key, id)
    requires actions[k].Enqueue? && actions[k].key.Some? && Strip(actions[k].key.value) == key
    ensures At(actions, k + 1) == At(actions, k)
    ensures HasKey(At(actions, k), key, id)
    ensures forall other :: HasKey(At(actions, k), key, other) ==> other == id
  {
    BetweenPoints(actions, i, k, id);
    AtNext(actions, k);
    AtIsValid(actions, k);
    assert HasKey(At(actions, k), key, id);
  }
}
