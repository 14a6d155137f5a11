/** The repository object of jobs, and the worker loop that uses it. */
module JobRepo {
  import opened Domain
  import opened JobQueue

  /** The recovery query under way: `todo` are the expired rows not yet returned, none earlier than those that were. */
  ghost predicate ExpiredSoFar(q: Queue, now: Time, locked: set<Id>, rows: seq<Id>, todo: set<Id>) {
    && (forall i, j :: 0 <= i < j < |rows| ==> rows[i] != rows[j])
    && (forall id :: id in rows || id in todo <==> id in q.jobs && id !in locked && Expired(q.jobs[id], now))
    && (forall id :: id in rows ==> id !in todo)
    && (forall i, j :: 0 <= i < j < |rows| ==> q.jobs[rows[i]].leaseExpiresAt.value <= q.jobs[rows[j]].leaseExpiresAt.value)
    && (forall i, id :: 0 <= i < |rows| && id in todo ==> q.jobs[rows[i]].leaseExpiresAt.value <= q.jobs[id].leaseExpiresAt.value)
  }

  lemma ExpiredOneMore(q: Queue, now: Time, locked: set<Id>, rows: seq<Id>, todo: set<Id>, id: Id)
    requires ExpiredSoFar(q, now, locked, rows, todo) && id in todo
    requires forall other :: other in todo ==> q.jobs[id].leaseExpiresAt.value <= q.jobs[other].leaseExpiresAt.value
    ensures ExpiredSoFar(q, now, locked, rows + [id], todo - {id})
  {
    assert forall i :: 0 <= i < |rows| ==> rows[i] in rows;
  }

  class JobRepo {
    var jobs: map<Id, Job>
    var log: seq<Event>

    ghost function View(): Queue
      reads this
    {
      Queue(jobs, log)
    }

    ghost predicate Keyed()
      reads this
    {
      forall id :: id in jobs ==> jobs[id].id == id
    }

    constructor ()
      ensures View() == EMPTY && Keyed()
    {
      jobs, log := map[], [];
    }

    /** Writes the row and appends its event in the same transaction. */
    method Save(job: Job)
      requires Keyed()
      modifies this
      ensures View() == Put(old(View()), job) && Keyed()
    {
      jobs := jobs[job.id := job];
      log := log + [Stamp(JobEvent(job), |log| + 1)];
    }

    method EnqueueJob(id: Id, repositoryId: Option<Id>, jobType: string, payload: string, maxAttempts: int, key: Option<string>, now: Time)
      returns (r: Result<Job, JobError>)
      requires Keyed()
      modifies this
      ensures Keyed()
      ensures View() == Apply(old(View()), Enqueue(id, repositoryId, jobType, payload, maxAttempts, key, now))
      ensures var obstacle := EnqueueObstacle(old(View()), id, maxAttempts, key);
              if obstacle.Some? then r == Err(obstacle.value)
              else r.Ok? && r.value.id in jobs && jobs[r.value.id] == r.value
      ensures r.Ok? && key.Some? ==> r.value.idempotencyKey == Some(Strip(key.value))
      ensures r.Ok? && r.value.id !in old(jobs) ==> r.value.id == id
    {
      if maxAttempts < 1 {
        return Err(BadMaxAttempts);
      }
      var stripped: Option<string> := None;
      if key.Some? {
        stripped := Some(Strip(key.value));
        if stripped.value == "" {
          return Err(BlankKey);
        }
      }
      if id in jobs {
        return Err(IdTaken);
      }
      if stripped.Some? && exists other :: other in jobs && jobs[other].idempotencyKey == stripped {
        var existing :| existing in jobs && jobs[existing].idempotencyKey == stripped;
        assert HasKey(View(), stripped.value, existing);
        return Ok(jobs[existing]);
      }
      var job := NewJob(id, repositoryId, jobType, payload, maxAttempts, stripped, now);
      Save(job);
      return Ok(job);
    }

    method QueryExpired(now: Time, locked: set<Id>, limit: nat) returns (rows: seq<Id>)
      ensures ExpiredRows(View(), now, locked, limit, rows)
    {
      rows := [];
      var todo := set id | id in jobs && id !in locked && Expired(jobs[id], now);
      while todo != {} && |rows| < limit
        invariant |rows| <= limit
        invariant ExpiredSoFar(View(), now, locked, rows, todo)
        decreases |todo|
      {
        LeastExists(todo, map id | id in jobs && jobs[id].leaseExpiresAt.Some? :: jobs[id].leaseExpiresAt.value);
        var id :| id in todo && forall other :: other in todo ==> jobs[id].leaseExpiresAt.value <= jobs[other].leaseExpiresAt.value;
        ExpiredOneMore(View(), now, locked, rows, todo, id);
        rows := rows + [id];
        todo := todo - {id};
      }
    }

    /** Puts jobs with an expired lease back in the queue, or fails them when their attempts are used up. */
    method RecoverExpiredLeases(now: Time, locked: set<Id>, limit: nat) returns (expired: seq<Id>)
      requires Keyed()
      modifies this
      ensures Keyed()
      ensures ExpiredRows(old(View()), now, locked, limit, expired)
      ensures View() == RecoverAll(old(View()), expired, now)
    {
      expired := QueryExpired(now, locked, limit);
      for i := 0 to |expired|
        invariant Keyed() && jobs.Keys == old(jobs).Keys
        invariant View() == RecoverAll(old(View()), expired[..i], now)
      {
        assert expired[..i + 1][..i] == expired[..i];
        Save(Recovered(jobs[expired[i]], now));
      }
      assert expired[..|expired|] == expired;
    }

    method QueryOldest(jobTypes: Option<set<string>>, now: Time, locked: set<Id>) returns (picked: Option<Id>)
      requires jobTypes != Some({})
      ensures OldestClaimable(View(), jobTypes, now, locked, picked)
    {
      var todo := set id | id in jobs && id !in locked && Claimable(jobs[id], jobTypes, now);
      if todo == {} {
        assert forall id :: id in jobs && id !in locked && Claimable(jobs[id], jobTypes, now) ==> id in todo;
        return None;
      }
      LeastExists(todo, map id | id in jobs :: jobs[id].createdAt);
      var id :| id in todo && forall other :: other in todo ==> jobs[id].createdAt <= jobs[other].createdAt;
      return Some(id);
    }

    /** Claims the oldest job that may run; `locked` are rows held by other transactions, which are skipped. */
    method ClaimNext(worker: string, leaseDuration: Time, jobTypes: Option<set<string>>, now: Time, locked: set<Id>)
      returns (job: Option<Job>, expired: seq<Id>)
      requires Keyed()
      modifies this
      ensures Keyed()
      ensures ExpiredRows(old(View()), now, locked, RECOVERY_LIMIT, expired)
      ensures var picked := if job.Some? then Some(job.value.id) else None;
              && OldestClaimable(RecoverAll(old(View()), expired, now), jobTypes, now, locked, picked)
              && View() == Apply(old(View()), Claim(worker, leaseDuration, jobTypes, now, locked, expired, picked))
      ensures job.Some? ==> job.value.id in jobs && jobs[job.value.id] == job.value
    {
      expired := RecoverExpiredLeases(now, locked, RECOVERY_LIMIT);
      if jobTypes == Some({}) {
        return None, expired;
      }
      var picked := QueryOldest(jobTypes, now, locked);
      if picked.None? {
        return None, expired;
      }
      var claimed := Claimed(jobs[picked.value], worker, leaseDuration, now);
      Save(claimed);
      job := Some(claimed);
    }

    method ValidateLeaseOwner(id: Id, expectedWorker: Option<string>, expectedAttempt: Option<int>) returns (obstacle: Option<JobError>)
      requires id in jobs
      ensures obstacle == LeaseObstacle(View(), id, expectedWorker, expectedAttempt)
    {
      var job := jobs[id];
      if job.status != JobRunning {
        return Some(NotRunning);
      }
      if expectedWorker.Some? && job.lockedBy != expectedWorker {
        return Some(OwnerChanged);
      }
      if expectedAttempt.Some? && job.attemptCount != expectedAttempt.value {
        return Some(AttemptChanged);
      }
      return None;
    }

    method MarkSucceeded(id: Id, metadata: Option<string>, expectedWorker: Option<string>, expectedAttempt: Option<int>, now: Time)
      returns (r: Result<Job, JobError>)
      requires Keyed()
      modifies this
      ensures Keyed()
      ensures View() == Apply(old(View()), Succeed(id, metadata, expectedWorker, expectedAttempt, now))
      ensures var obstacle := LeaseObstacle(old(View()), id, expectedWorker, expectedAttempt);
              if obstacle.Some? then r == Err(obstacle.value) else id in jobs && r == Ok(jobs[id])
      ensures r.Ok? ==>
                id in old(jobs) && r.value == old(jobs[id]).(
                  status := JobSucceeded, errorSummary := None, resultMetadata := if metadata.Some? then metadata.value else "{}",
                  lockedBy := None, lockedAt := None, leaseExpiresAt := None, updatedAt := now)
    {
      if id !in jobs {
        return Err(JobNotFound);
      }
      var obstacle := ValidateLeaseOwner(id, expectedWorker, expectedAttempt);
      if obstacle.Some? {
        return Err(obstacle.value);
      }
      var job := SucceededJob(jobs[id], metadata, now);
      Save(job);
      return Ok(job);
    }

    method MarkFailed(id: Id, error: string, retry: bool, metadata: Option<string>, expectedWorker: Option<string>,
                      expectedAttempt: Option<int>, now: Time) returns (r: Result<Job, JobError>)
      requires Keyed()
      modifies this
      ensures Keyed()
      ensures View() == Apply(old(View()), Fail(id, error, retry, metadata, expectedWorker, expectedAttempt, now))
      ensures var obstacle := LeaseObstacle(old(View()), id, expectedWorker, expectedAttempt);
              if obstacle.Some? then r == Err(obstacle.value) else id in jobs && r == Ok(jobs[id])
    {
      if id !in jobs {
        return Err(JobNotFound);
      }
      var obstacle := ValidateLeaseOwner(id, expectedWorker, expectedAttempt);
      if obstacle.Some? {
        return Err(obstacle.value);
      }
      var job := FailedJob(jobs[id], error, retry, metadata, now);
      Save(job);
      return Ok(job);
    }
  }

  // ---- The worker ----------------------------------------------------------------------

  datatype Outcome = Done(metadata: string) | Raised(error: string, metadata: string)

  /** How `process_once` finalises the job it claimed: with its own name and the attempt it was given. */
  function Finalisation(claimed: Job, worker: string, outcome: Outcome, now: Time): Action {
    match outcome
    case Done(metadata) => Succeed(claimed.id, Some(metadata), Some(worker), Some(claimed.attemptCount), now)
    case Raised(error, metadata) => Fail(claimed.id, error, true, Some(metadata), Some(worker), Some(claimed.attemptCount), now)
  }

  /**
   * A worker's finalisation takes effect exactly while its claim stands. If the lease was recovered
   * in between, it changes nothing, even if the same worker has claimed the job again meanwhile.
   */
  lemma {:induction false} WorkerFinalisesItsOwnClaim(actions: seq<Action>, i: nat, k: nat, claimed: Job, worker: string, outcome: Outcome, now: Time)
    requires i < k < |actions| && Issued(actions, i, claimed.id, worker, claimed.attemptCount)
    requires actions[k] == Finalisation(claimed, worker, outcome, now)
    ensures Finalised(actions, k, claimed.id) <==> UntouchedSince(actions, i, k, claimed.id)
    ensures !Finalised(actions, k, claimed.id) ==> At(actions, k + 1) == At(actions, k)
  {
    FencedFinaliseIsExact(actions, i, k, claimed.id, worker, claimed.attemptCount);
    AtNext(actions, k);
  }
}
