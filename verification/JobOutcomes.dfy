/**
 * What claims, finalisations and recoveries leave in a job's row, over runs of the queue, and which of
 * them a row's status tells about.
 */
module JobOutcomes {
  import opened Domain
  import opened EventReads
  import opened JobQueue

  /** The row and the event that one change of a job leaves. */
  ghost predicate Leaves(actions: seq<Action>, k: nat, row: Job) {
    && k < |actions|
    && At(actions, k + 1).jobs == At(actions, k).jobs[row.id := row]
    && At(actions, k + 1).log == At(actions, k).log
       + [Event(|At(actions, k).log| + 1, JobStatusChanged, Scope(row.repositoryId, Some(row.id), None, None), JobPayload(row.status))]
  }

  // ---- Success -----------------------------------------------------------------------------

  /** An accepted success leaves the job SUCCEEDED and unlocked, with its metadata and without an error. */
  lemma SuccessLeaves(actions: seq<Action>, k: nat, id: Id)
    requires Finalised(actions, k, id) && actions[k].Succeed?
    ensures var a := actions[k];
            Leaves(actions, k, At(actions, k).jobs[id].(
              status := JobSucceeded, errorSummary := None,
              resultMetadata := if a.metadata.Some? then a.metadata.value else "{}",
              lockedBy := None, lockedAt := None, leaseExpiresAt := None, updatedAt := a.now))
  {
    AtNext(actions, k);
    AtIsValid(actions, k);
    assert RowValid(At(actions, k), id);
  }

  /** Only an accepted success turns a job into one that succeeded. */
  lemma OnlySuccessSucceeds(q: Queue, a: Action, id: Id)
    requires Valid(q) && id in Apply(q, a).jobs && Apply(q, a).jobs[id].status == JobSucceeded
    requires id in q.jobs ==> q.jobs[id].status != JobSucceeded
    ensures a.Succeed? && a.id == id && LeaseObstacle(q, id, a.expectedWorker, a.expectedAttempt).None?
  {
    if a.Enqueue? {
      EnqueueMoves(q, a);
    } else if a.Claim? {
      ClaimNeverSucceeds(q, a, id);
    } else if a.id in q.jobs {
      assert RowValid(q, a.id);
    }
  }

  lemma ClaimNeverSucceeds(q: Queue, a: Action, id: Id)
    requires Valid(q) && a.Claim? && id in Apply(q, a).jobs && Apply(q, a).jobs[id].status == JobSucceeded
    ensures id in q.jobs && q.jobs[id].status == JobSucceeded
  {
    OnlyEnqueueAdds(q, a);
    if ExpiredRows(q, a.now, a.locked, RECOVERY_LIMIT, a.expired) {
      RecoverAllMoves(q, a.expired, a.now);
      var r := RecoverAll(q, a.expired, a.now);
      if OldestClaimable(r, a.jobTypes, a.now, a.locked, a.picked) && a.picked.Some? {
        assert RowValid(r, a.picked.value);
      }
    }
  }

  /** In every run: a job has succeeded exactly if an accepted success of it lies in the past. */
  lemma {:induction false} SucceededExactly(actions: seq<Action>, k: nat, id: Id)
    requires k <= |actions|
    ensures id in At(actions, k).jobs && At(actions, k).jobs[id].status == JobSucceeded
            <==> exists j :: 0 <= j < k && Finalised(actions, j, id) && actions[j].Succeed?
    decreases k
  {
    hide Apply, Valid, LeaseObstacle;
    if k == 0 {
      assert actions[..0] == [];
    } else {
      SucceededExactly(actions, k - 1, id);
      AtNext(actions, k - 1);
      AtIsValid(actions, k - 1);
      if id in At(actions, k - 1).jobs && At(actions, k - 1).jobs[id].status == JobSucceeded {
        OverIsForever(actions, k - 1, k, id);
      } else if id in At(actions, k).jobs && At(actions, k).jobs[id].status == JobSucceeded {
        OnlySuccessSucceeds(At(actions, k - 1), actions[k - 1], id);
        assert Finalised(actions, k - 1, id);
      }
      if Finalised(actions, k - 1, id) && actions[k - 1].Succeed? {
        SuccessLeaves(actions, k - 1, id);
        FinalisedIsThere(actions, k - 1, id);
      }
    }
  }

  lemma FinalisedIsThere(actions: seq<Action>, k: nat, id: Id)
    requires Finalised(actions, k, id)
    ensures id in At(actions, k).jobs && At(actions, k).jobs[id].id == id
  {
    AtIsValid(actions, k);
    assert RowValid(At(actions, k), id);
  }

  /** From then on the row stays as the success left it. */
  lemma {:induction false} SuccessStays(actions: seq<Action>, j: nat, k: nat, id: Id)
    requires Finalised(actions, j, id) && actions[j].Succeed? && j < k <= |actions|
    ensures id in At(actions, k).jobs
    ensures var row := At(actions, k).jobs[id];
            && row.status == JobSucceeded && row.errorSummary == None && row.lockedBy == None
            && row.resultMetadata == (if actions[j].metadata.Some? then actions[j].metadata.value else "{}")
  {
    FinalisedIsThere(actions, j, id);
    SuccessLeaves(actions, j, id);
    OverIsForever(actions, j + 1, k, id);
  }

  // ---- Failure -----------------------------------------------------------------------------

  /** Seconds before the attempt after this one: 1, 2, 4, ... and never more than 300. */
  predicate Backoff(attempt: int, delay: int) {
    delay == if 0 <= attempt <= 8 then [1, 2, 4, 8, 16, 32, 64, 128, 256][attempt] else 300
  }

  lemma RetryDelayIsBackoff(attempt: int)
    ensures Backoff(attempt, RetryDelay(attempt))
  {
    if attempt > 8 {
      PowerAbove(attempt);
    } else if attempt >= 0 {
      PowersTo8();
    }
  }

  lemma PowersTo8()
    ensures Pow2(0) == 1 && Pow2(1) == 2 && Pow2(2) == 4 && Pow2(3) == 8 && Pow2(4) == 16
    ensures Pow2(5) == 32 && Pow2(6) == 64 && Pow2(7) == 128 && Pow2(8) == 256
  {
    assert Pow2(2) == 4;
    assert Pow2(4) == 16;
    assert Pow2(6) == 64;
  }

  lemma {:induction false} PowerAbove(n: nat)
    requires n > 8
    ensures Pow2(n) > 300
  {
    if n == 9 { PowersTo8(); } else { PowerAbove(n - 1); }
  }

  /**
   * An accepted failure leaves the job waiting exactly if a retry was asked for and attempts are left, and FAILED
   * otherwise: unlocked, with the first 1000 characters of the error and with its metadata.
   */
  lemma FailureLeaves(actions: seq<Action>, k: nat, id: Id) returns (delay: int)
    requires Finalised(actions, k, id) && actions[k].Fail?
    ensures id in At(actions, k).jobs && Backoff(At(actions, k).jobs[id].attemptCount, delay)
    ensures var a, was := actions[k], At(actions, k).jobs[id];
            var again := a.retry && was.attemptCount < was.maxAttempts;
            Leaves(actions, k, was.(
              status := if again then JobRetryWait else JobFailed,
              runAfter := if again then a.now + delay else was.runAfter,
              errorSummary := Some(if |a.error| <= 1000 then a.error else a.error[..1000]),
              resultMetadata := if a.metadata.Some? then a.metadata.value else "{}",
              lockedBy := None, lockedAt := None, leaseExpiresAt := None, updatedAt := a.now))
  {
    hide At, Run, Backoff, RetryDelay, Pow2, Claimed, RecoverAll, ExpiredRows, OldestClaimable, HasKey, NewJob;
    FinalisedIsThere(actions, k, id);
    AtNext(actions, k);
    delay := RetryDelay(At(actions, k).jobs[id].attemptCount);
    RetryDelayIsBackoff(At(actions, k).jobs[id].attemptCount);
  }

  // ---- Claims and recoveries ---------------------------------------------------------------

  /** The job as a claim at this time finds it, should its lease have expired. */
  predicate MayBeTaken(was: Job, row: Job, jobTypes: Option<set<string>>, now: Time) {
    && was.attemptCount < was.maxAttempts && (jobTypes.Some? ==> was.jobType in jobTypes.value)
    && (if was.status == JobRunning then was.leaseExpiresAt.Some? && was.leaseExpiresAt.value <= now && row.runAfter == now
        else (was.status == JobQueued || was.status == JobRetryWait) && was.runAfter <= now && row.runAfter == was.runAfter)
  }

  /** A claim takes a job that may run, or whose lease has expired, and leases it to its worker for the duration. */
  lemma ClaimLeaves(actions: seq<Action>, i: nat, id: Id, worker: string, attempt: int)
    requires Issued(actions, i, id, worker, attempt)
    ensures var a, was, row := actions[i], At(actions, i).jobs[id], At(actions, i + 1).jobs[id];
            && MayBeTaken(was, row, a.jobTypes, a.now)
            && row == was.(
                 status := JobRunning, lockedBy := Some(worker), lockedAt := Some(a.now),
                 leaseExpiresAt := Some(a.now + a.leaseDuration), attemptCount := was.attemptCount + 1,
                 errorSummary := None, resultMetadata := "{}", updatedAt := a.now, runAfter := row.runAfter)
            && attempt == was.attemptCount + 1
  {
    AtNext(actions, i);
    AtIsValid(actions, i);
    ClaimTakes(At(actions, i), actions[i], id);
  }

  lemma ClaimTakes(q: Queue, a: Action, id: Id)
    requires Valid(q) && a.Claim? && a.picked == Some(id) && id in q.jobs && id in Apply(q, a).jobs
    requires Apply(q, a).jobs[id].status == JobRunning && Apply(q, a).jobs[id] != q.jobs[id]
    ensures MayBeTaken(q.jobs[id], Apply(q, a).jobs[id], a.jobTypes, a.now)
    ensures var was, row := q.jobs[id], Apply(q, a).jobs[id];
            row == was.(
              status := JobRunning, lockedBy := Some(a.worker), lockedAt := Some(a.now),
              leaseExpiresAt := Some(a.now + a.leaseDuration), attemptCount := was.attemptCount + 1,
              errorSummary := None, resultMetadata := "{}", updatedAt := a.now, runAfter := row.runAfter)
  {
    TakenRow(q, a, id);
    hide Valid, Apply;
  }

  /** A waiting job that may run now. */
  predicate Due(job: Job, jobTypes: Option<set<string>>, now: Time) {
    && (job.status == JobQueued || job.status == JobRetryWait) && job.runAfter <= now
    && job.attemptCount < job.maxAttempts && (jobTypes.Some? ==> job.jobType in jobTypes.value)
  }

  /** While an unlocked job is due, a claim takes a job, and none that was created later. */
  lemma ClaimTakesAnOldest(q: Queue, jobTypes: Option<set<string>>, now: Time, locked: set<Id>, expired: seq<Id>, picked: Option<Id>, id: Id)
    requires Valid(q) && ExpiredRows(q, now, locked, RECOVERY_LIMIT, expired)
    requires OldestClaimable(RecoverAll(q, expired, now), jobTypes, now, locked, picked)
    requires id in q.jobs && id !in locked && Due(q.jobs[id], jobTypes, now)
    ensures jobTypes != Some({}) && picked.Some? && picked.value in q.jobs && picked.value !in locked
    ensures q.jobs[picked.value].createdAt <= q.jobs[id].createdAt
  {
    RecoverAllMoves(q, expired, now);
    var r := RecoverAll(q, expired, now);
    hide RecoverAll, Valid;
    assert id !in expired;
    assert r.jobs[id] == q.jobs[id] && Claimable(r.jobs[id], jobTypes, now);
    assert r.jobs[picked.value].createdAt == q.jobs[picked.value].createdAt;
  }

  /** The row as the recovery leaves it, and then the claim. */
  lemma TakenRow(q: Queue, a: Action, id: Id)
    requires Valid(q) && a.Claim? && a.picked == Some(id) && id in q.jobs && id in Apply(q, a).jobs
    requires Apply(q, a).jobs[id].status == JobRunning && Apply(q, a).jobs[id] != q.jobs[id]
    ensures id in a.expired ==> Expired(q.jobs[id], a.now)
    ensures var found := if id in a.expired then Recovered(q.jobs[id], a.now) else q.jobs[id];
            Claimable(found, a.jobTypes, a.now) && Apply(q, a).jobs[id] == Claimed(found, a.worker, a.leaseDuration, a.now)
  {
    assert ExpiredRows(q, a.now, a.locked, RECOVERY_LIMIT, a.expired);
    RecoverAllMoves(q, a.expired, a.now);
    var r := RecoverAll(q, a.expired, a.now);
    RowHasItsId(r, id);
    RecoveredRests(q.jobs[id], a.now);
    hide Valid, RecoverAll, ExpiredRows, Recovered, Claimed;
    assert OldestClaimable(r, a.jobTypes, a.now, a.locked, a.picked);
    ClaimedKeepsId(r.jobs[id], a.worker, a.leaseDuration, a.now);
    assert Apply(q, a) == Put(r, Claimed(r.jobs[id], a.worker, a.leaseDuration, a.now));
  }

  lemma RowHasItsId(q: Queue, id: Id)
    requires Valid(q) && id in q.jobs
    ensures q.jobs[id].id == id
  {
    assert RowValid(q, id);
  }

  lemma RecoveredRests(job: Job, now: Time)
    ensures Recovered(job, now).status != JobRunning
  {
  }

  lemma ClaimedKeepsId(job: Job, worker: string, leaseDuration: Time, now: Time)
    ensures Claimed(job, worker, leaseDuration, now).id == job.id
  {
  }

  /** A job that a claim changes without taking it had an expired lease: it is queued again, or fails if no attempt is left. */
  lemma RecoveryLeaves(actions: seq<Action>, k: nat, id: Id)
    requires k < |actions| && actions[k].Claim? && actions[k].picked != Some(id) && id in At(actions, k).jobs
    requires id in At(actions, k + 1).jobs && At(actions, k + 1).jobs[id] != At(actions, k).jobs[id]
    ensures var was, now := At(actions, k).jobs[id], actions[k].now;
            var exhausted := was.attemptCount >= was.maxAttempts;
            && was.status == JobRunning && was.leaseExpiresAt.Some? && was.leaseExpiresAt.value <= now
            && At(actions, k + 1).jobs[id] == was.(
                 status := if exhausted then JobFailed else JobQueued, runAfter := now,
                 errorSummary := Some(if exhausted then "Job stopped after its worker lease expired."
                                      else "Previous worker lease expired; job queued for recovery."),
                 lockedBy := None, lockedAt := None, leaseExpiresAt := None, updatedAt := now)
  {
    AtNext(actions, k);
    AtIsValid(actions, k);
    RecoveredRow(At(actions, k), actions[k], id);
    hide Valid, At, Apply;
  }

  lemma RecoveredRow(q: Queue, a: Action, id: Id)
    requires Valid(q) && a.Claim? && a.picked != Some(id) && id in q.jobs && id in Apply(q, a).jobs
    requires Apply(q, a).jobs[id] != q.jobs[id]
    ensures Expired(q.jobs[id], a.now) && Apply(q, a).jobs[id] == Recovered(q.jobs[id], a.now)
  {
    assert ExpiredRows(q, a.now, a.locked, RECOVERY_LIMIT, a.expired);
    RecoverAllMoves(q, a.expired, a.now);
    var r := RecoverAll(q, a.expired, a.now);
    if a.picked.Some? && OldestClaimable(r, a.jobTypes, a.now, a.locked, a.picked) {
      RowHasItsId(r, a.picked.value);
      ClaimedKeepsId(r.jobs[a.picked.value], a.worker, a.leaseDuration, a.now);
    }
    hide Valid, RecoverAll, ExpiredRows, Recovered, Claimed;
  }

  // ---- New jobs ----------------------------------------------------------------------------

  /** A job is queued to run at once, with no attempt made, no lock, no metadata and no error. */
  lemma NewJobsAreQueued(actions: seq<Action>, k: nat, id: Id)
    requires k < |actions| && id !in At(actions, k).jobs && id in At(actions, k + 1).jobs
    ensures actions[k].Enqueue? && actions[k].id == id && actions[k].maxAttempts >= 1
    ensures var a := actions[k];
            Leaves(actions, k, Job(id, a.repositoryId, a.jobType, JobQueued, 0, a.maxAttempts, a.payload, "{}", a.now, None, None, None,
                                   if a.key.Some? then Some(Strip(a.key.value)) else None, None, a.now, a.now))
    ensures actions[k].key.Some? ==> Strip(actions[k].key.value) != ""
  {
    AtNext(actions, k);
    AtIsValid(actions, k);
    if !actions[k].Enqueue? {
      OnlyEnqueueAdds(At(actions, k), actions[k]);
    }
  }
}
