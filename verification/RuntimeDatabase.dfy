/** The repositories and services that work on the tables row by row, inside a transaction that a
    raised error rolls back. Each service method is proved to have exactly the effect of its
    transaction function. */
module RuntimeDatabase {
  import opened Options
  import opened RuntimeTables
  import opened LeaseProtocol

  /** Registering the worker first and claiming next amounts to claiming with the registered row. */
  lemma RegisteredThenClaimed(s: State, q: ClaimRequest, ids: ClaimIds, jobId: Id, now: Time, missed: bool)
    requires jobId in s.jobs && Insertable(s, jobId, s.jobs[jobId].attemptCount + 1, ids, q.maxExtensions)
    ensures var w := Claimant(Find(s.workers, q.workerId), q, missed, now);
      ClaimChosen(s.(workers := s.workers[q.workerId := w]), q, ids, w, jobId, now).state
      == ClaimChosen(s, q, ids, w, jobId, now).state
  {
  }

  /** What a job update says when the job is missing or claimed otherwise. */
  function Owned(jobs: map<Id, Job>, jobId: Id, token: Id, workerId: Id): Option<Refusal> {
    if jobId !in jobs then Some(StateConflict)
    else if jobs[jobId].claimToken != Some(token) || jobs[jobId].claimedBy != Some(workerId) then Some(LeaseConflict)
    else None
  }

  /** What a lease update says when the token has no ACTIVE lease or the lease is another worker's. */
  function Leased(leases: map<Id, Lease>, token: Id, workerId: Id): Option<Refusal> {
    if token !in leases || !leases[token].status.Active? || leases[token].workerId != workerId then Some(LeaseConflict)
    else None
  }

  class Database {
    var jobs: map<Id, Job>
    var attempts: map<Id, Attempt>
    var leases: map<Id, Lease>
    var workers: map<Id, Worker>

    constructor ()
      ensures Snapshot() == EMPTY
    {
      jobs, attempts, leases, workers := map[], map[], map[], map[];
    }

    function Snapshot(): State
      reads this
    {
      State(jobs, attempts, leases, workers)
    }

    /** What a raised error does to the transaction that began in the saved state. */
    method Rollback(saved: State)
      modifies this
      ensures Snapshot() == saved
    {
      jobs, attempts, leases, workers := saved.jobs, saved.attempts, saved.leases, saved.workers;
    }

    // ----- runtime job repository

    method InsertJob(jobId: Id, spec: JobSpec) returns (outcome: Outcome)
      modifies this
      ensures Result(Snapshot(), outcome) == CreateJob(old(Snapshot()), jobId, spec)
    {
      if jobId in jobs || spec.priority < 0 || spec.leaseTimeoutSeconds < 1 {
        return Refused(ConstraintViolation);
      }
      var status := if spec.queued then JobStatus.Queued else JobStatus.Created;
      var job := Job(status, spec.priority, spec.createdAt, spec.queueName, spec.routingKey, spec.requiredTags,
                     None, None, 0, spec.leaseTimeoutSeconds, None, None, None, None, None);
      jobs := jobs[jobId := job];
      outcome := Done;
    }

    /** The scan of the candidate rows the query returned. */
    method GetClaimableJob(candidates: seq<Id>, tags: seq<string>) returns (choice: Option<Id>)
      requires forall j | j in candidates :: j in jobs
      ensures choice == FirstFit(jobs, candidates, tags)
    {
      if candidates == [] {
        return None;
      }
      if tags == [] {
        return Some(candidates[0]);
      }
      var capabilities := set tag | tag in tags;
      for i := 0 to |candidates|
        invariant FirstFit(jobs, candidates, tags) == FirstFit(jobs, candidates[i..], tags)
      {
        var required := set tag | tag in jobs[candidates[i]].requiredTags;
        if required <= capabilities {
          assert forall tag | tag in jobs[candidates[i]].requiredTags :: tag in required && tag in capabilities;
          return Some(candidates[i]);
        }
        assert exists tag :: tag in required && tag !in capabilities;
      }
      choice := None;
    }

    method MarkClaimed(jobId: Id, workerId: Id, token: Id, claimedAt: Time, expiresAt: Time)
      returns (refusal: Option<Refusal>)
      requires jobId in jobs
      modifies this`jobs
      ensures refusal == if old(jobs[jobId]).status.Claimable() then None else Some(StateConflict)
      ensures refusal.Some? ==> jobs == old(jobs)
      ensures refusal.None? ==>
        jobs == old(jobs)[jobId := old(jobs[jobId]).(
          status := JobStatus.Claimed, claimedBy := Some(workerId), claimToken := Some(token),
          claimedAt := Some(claimedAt), leaseExpiresAt := Some(expiresAt),
          attemptCount := old(jobs[jobId]).attemptCount + 1)]
    {
      var job := jobs[jobId];
      if !job.status.Claimable() {
        return Some(StateConflict);
      }
      job := job.(status := JobStatus.Claimed);
      job := job.(claimedBy := Some(workerId));
      job := job.(claimToken := Some(token));
      job := job.(claimedAt := Some(claimedAt));
      job := job.(leaseExpiresAt := Some(expiresAt));
      job := job.(attemptCount := job.attemptCount + 1);
      jobs := jobs[jobId := job];
      refusal := None;
    }

    /** The re-read of the job and the ownership check that open every later job update. */
    method OwnedJob(jobId: Id, token: Id, workerId: Id) returns (refusal: Option<Refusal>)
      ensures refusal == Owned(jobs, jobId, token, workerId)
    {
      if jobId !in jobs {
        return Some(StateConflict);
      }
      if jobs[jobId].claimToken != Some(token) {
        return Some(LeaseConflict);
      }
      if jobs[jobId].claimedBy != Some(workerId) {
        return Some(LeaseConflict);
      }
      refusal := None;
    }

    method MarkRunning(jobId: Id, token: Id, workerId: Id, startedAt: Time) returns (refusal: Option<Refusal>)
      modifies this`jobs
      ensures refusal ==
        if Owned(old(jobs), jobId, token, workerId).Some? then Owned(old(jobs), jobId, token, workerId)
        else if old(jobs[jobId]).status.Claimed? || old(jobs[jobId]).status.Running? then None
        else Some(StateConflict)
      ensures refusal.Some? ==> jobs == old(jobs)
      ensures refusal.None? ==>
        jobs == old(jobs)[jobId := old(jobs[jobId]).(
          status := JobStatus.Running, startedAt := KeepFirst(old(jobs[jobId]).startedAt, startedAt))]
    {
      refusal := OwnedJob(jobId, token, workerId);
      if refusal.Some? {
        return;
      }
      if !jobs[jobId].status.Claimed? && !jobs[jobId].status.Running? {
        return Some(StateConflict);
      }
      var job := jobs[jobId].(status := JobStatus.Running);
      job := job.(startedAt := KeepFirst(job.startedAt, startedAt));
      jobs := jobs[jobId := job];
    }

    method MarkSucceeded(jobId: Id, token: Id, workerId: Id, finishedAt: Time) returns (refusal: Option<Refusal>)
      modifies this`jobs
      ensures refusal == Owned(old(jobs), jobId, token, workerId)
      ensures refusal.Some? ==> jobs == old(jobs)
      ensures refusal.None? ==>
        jobs == old(jobs)[jobId := old(jobs[jobId]).(
          status := JobStatus.Succeeded, finishedAt := Some(finishedAt), leaseExpiresAt := None)]
    {
      refusal := OwnedJob(jobId, token, workerId);
      if refusal.Some? {
        return;
      }
      var job := jobs[jobId].(status := JobStatus.Succeeded);
      job := job.(finishedAt := Some(finishedAt));
      job := job.(leaseExpiresAt := None);
      jobs := jobs[jobId := job];
    }

    method MarkJobFailed(jobId: Id, token: Id, workerId: Id, nextStatus: JobStatus, finishedAt: Time)
      returns (refusal: Option<Refusal>)
      modifies this`jobs
      ensures refusal ==
        if !nextStatus.FailureOutcome() then Some(StateConflict) else Owned(old(jobs), jobId, token, workerId)
      ensures refusal.Some? ==> jobs == old(jobs)
      ensures refusal.None? && nextStatus.Failed? ==>
        jobs == old(jobs)[jobId := old(jobs[jobId]).(
          status := nextStatus, finishedAt := Some(finishedAt), leaseExpiresAt := None)]
      ensures refusal.None? && !nextStatus.Failed? ==>
        jobs == old(jobs)[jobId := old(jobs[jobId]).(status := nextStatus)]
    {
      if !nextStatus.FailureOutcome() {
        return Some(StateConflict);
      }
      refusal := OwnedJob(jobId, token, workerId);
      if refusal.Some? {
        return;
      }
      var job := jobs[jobId].(status := nextStatus);
      job := job.(finishedAt := if nextStatus.Failed? then Some(finishedAt) else job.finishedAt);
      job := job.(leaseExpiresAt := if nextStatus.Failed? then None else job.leaseExpiresAt);
      jobs := jobs[jobId := job];
    }

    method MarkCancelRequested(jobId: Id, requestedAt: Time) returns (outcome: Outcome)
      modifies this
      ensures Result(Snapshot(), outcome) == RequestCancel(old(Snapshot()), jobId, requestedAt)
    {
      if jobId !in jobs {
        return Refused(StateConflict);
      }
      var job := jobs[jobId];
      if job.status.Terminal() {
        return Done;
      }
      job := job.(status := JobStatus.CancelRequested);
      job := job.(cancelRequestedAt := Some(requestedAt));
      jobs := jobs[jobId := job];
      outcome := Done;
    }

    // ----- job attempt repository

    method CreateAttempt(attemptId: Id, attempt: Attempt) returns (refusal: Option<Refusal>)
      modifies this`attempts
      ensures refusal ==
        if attemptId !in old(attempts) && attempt.index >= 1
           && (forall a | a in old(attempts) ::
                 !(old(attempts)[a].jobId == attempt.jobId && old(attempts)[a].index == attempt.index))
        then None else Some(ConstraintViolation)
      ensures attempts == if refusal.None? then old(attempts)[attemptId := attempt] else old(attempts)
    {
      if attemptId in attempts || attempt.index < 1
         || exists a | a in attempts :: attempts[a].jobId == attempt.jobId && attempts[a].index == attempt.index {
        return Some(ConstraintViolation);
      }
      attempts := attempts[attemptId := attempt];
      refusal := None;
    }

    /** The owner is checked only as far as the caller names it. */
    method MarkStarted(attemptId: Id, token: Option<Id>, workerId: Option<Id>, startedAt: Time)
      returns (refusal: Option<Refusal>)
      modifies this`attempts
      ensures refusal ==
        if attemptId !in old(attempts) then Some(StateConflict)
        else if (token.Some? && old(attempts[attemptId]).claimToken != token.value)
             || (workerId.Some? && old(attempts[attemptId]).workerId != workerId.value) then Some(LeaseConflict)
        else None
      ensures refusal.Some? ==> attempts == old(attempts)
      ensures refusal.None? ==>
        attempts == old(attempts)[attemptId := old(attempts[attemptId]).(
          status := AttemptStatus.Started, startedAt := KeepFirst(old(attempts[attemptId]).startedAt, startedAt))]
    {
      if attemptId !in attempts {
        return Some(StateConflict);
      }
      var attempt := attempts[attemptId];
      if token.Some? && attempt.claimToken != token.value {
        return Some(LeaseConflict);
      }
      if workerId.Some? && attempt.workerId != workerId.value {
        return Some(LeaseConflict);
      }
      attempt := attempt.(status := AttemptStatus.Started);
      attempt := attempt.(startedAt := KeepFirst(attempt.startedAt, startedAt));
      attempts := attempts[attemptId := attempt];
      refusal := None;
    }

    method MarkCompleted(attemptId: Id, finishedAt: Time, runtimeMs: Option<int>,
                         providerRuntimeMs: Option<int>, uploadMs: Option<int>)
      returns (refusal: Option<Refusal>)
      modifies this`attempts
      ensures refusal ==
        if attemptId !in old(attempts) then Some(StateConflict)
        else if NonNegative(runtimeMs) && NonNegative(providerRuntimeMs) && NonNegative(uploadMs)
        then None else Some(ConstraintViolation)
      ensures refusal.Some? ==> attempts == old(attempts)
      ensures refusal.None? ==>
        attempts == old(attempts)[attemptId := old(attempts[attemptId]).(
          status := AttemptStatus.Completed, finishedAt := Some(finishedAt),
          runtimeMs := KeepMetric(runtimeMs, old(attempts[attemptId]).runtimeMs),
          providerRuntimeMs := KeepMetric(providerRuntimeMs, old(attempts[attemptId]).providerRuntimeMs),
          uploadMs := KeepMetric(uploadMs, old(attempts[attemptId]).uploadMs))]
    {
      if attemptId !in attempts {
        return Some(StateConflict);
      }
      var attempt := attempts[attemptId].(status := AttemptStatus.Completed);
      attempt := attempt.(finishedAt := Some(finishedAt));
      if runtimeMs.Some? {
        attempt := attempt.(runtimeMs := runtimeMs);
      }
      if providerRuntimeMs.Some? {
        attempt := attempt.(providerRuntimeMs := providerRuntimeMs);
      }
      if uploadMs.Some? {
        attempt := attempt.(uploadMs := uploadMs);
      }
      if !NonNegative(runtimeMs) || !NonNegative(providerRuntimeMs) || !NonNegative(uploadMs) {
        return Some(ConstraintViolation);
      }
      attempts := attempts[attemptId := attempt];
      refusal := None;
    }

    /** The three failure updates of an attempt differ, in the columns kept here, in the status only. */
    method MarkAttemptEnded(attemptId: Id, status: AttemptStatus, finishedAt: Time) returns (refusal: Option<Refusal>)
      modifies this`attempts
      ensures refusal == if attemptId in old(attempts) then None else Some(StateConflict)
      ensures refusal.Some? ==> attempts == old(attempts)
      ensures refusal.None? ==>
        attempts == old(attempts)[attemptId := old(attempts[attemptId]).(
          status := status, finishedAt := Some(finishedAt))]
    {
      if attemptId !in attempts {
        return Some(StateConflict);
      }
      var attempt := attempts[attemptId].(status := status);
      attempt := attempt.(finishedAt := Some(finishedAt));
      attempts := attempts[attemptId := attempt];
      refusal := None;
    }

    // ----- worker lease repository

    method CreateLease(token: Id, lease: Lease) returns (refusal: Option<Refusal>)
      modifies this`leases
      ensures refusal ==
        if token !in old(leases) && (forall t | t in old(leases) :: old(leases)[t].leaseId != lease.leaseId)
           && lease.maxExtensions >= 0
        then None else Some(ConstraintViolation)
      ensures leases == if refusal.None? then old(leases)[token := lease] else old(leases)
    {
      if token in leases || lease.maxExtensions < 0 || exists t | t in leases :: leases[t].leaseId == lease.leaseId {
        return Some(ConstraintViolation);
      }
      leases := leases[token := lease];
      refusal := None;
    }

    method GetActiveLease(token: Id) returns (lease: Option<Lease>)
      ensures lease == FindActiveLease(Snapshot(), token)
    {
      if token in leases && leases[token].status.Active? {
        return Some(leases[token]);
      }
      lease := None;
    }

    method ExtendLease(token: Id, workerId: Id, expiresAt: Time, heartbeatAt: Time) returns (refusal: Option<Refusal>)
      modifies this`leases
      ensures refusal ==
        if Leased(old(leases), token, workerId).Some? then Leased(old(leases), token, workerId)
        else if old(leases[token]).extensionCount >= old(leases[token]).maxExtensions then Some(LeaseConflict)
        else None
      ensures refusal.Some? ==> leases == old(leases)
      ensures refusal.None? ==>
        leases == old(leases)[token := old(leases[token]).(
          expiresAt := expiresAt, lastHeartbeatAt := Some(heartbeatAt),
          heartbeatCount := old(leases[token]).heartbeatCount + 1,
          extensionCount := old(leases[token]).extensionCount + 1)]
    {
      var found := GetActiveLease(token);
      if found.None? {
        return Some(LeaseConflict);
      }
      var lease := found.value;
      if lease.workerId != workerId {
        return Some(LeaseConflict);
      }
      if lease.extensionCount >= lease.maxExtensions {
        return Some(LeaseConflict);
      }
      lease := lease.(expiresAt := expiresAt);
      lease := lease.(lastHeartbeatAt := Some(heartbeatAt));
      lease := lease.(heartbeatCount := lease.heartbeatCount + 1);
      lease := lease.(extensionCount := lease.extensionCount + 1);
      leases := leases[token := lease];
      refusal := None;
    }

    method ReleaseLease(token: Id, workerId: Id, releasedAt: Time) returns (refusal: Option<Refusal>)
      modifies this`leases
      ensures refusal == Leased(old(leases), token, workerId)
      ensures refusal.Some? ==> leases == old(leases)
      ensures refusal.None? ==>
        leases == old(leases)[token := old(leases[token]).(
          status := LeaseStatus.Released, lastHeartbeatAt := Some(releasedAt))]
    {
      var found := GetActiveLease(token);
      if found.None? || found.value.workerId != workerId {
        return Some(LeaseConflict);
      }
      var lease := found.value.(status := LeaseStatus.Released);
      lease := lease.(lastHeartbeatAt := Some(releasedAt));
      leases := leases[token := lease];
      refusal := None;
    }

    method ExpireLease(token: Id, expiredAt: Time) returns (refusal: Option<Refusal>)
      modifies this`leases
      ensures refusal.None? <==> token in old(leases) && old(leases[token]).status.Active?
      ensures refusal.Some? ==> leases == old(leases)
      ensures refusal.None? ==>
        leases == old(leases)[token := old(leases[token]).(status := LeaseStatus.Expired, expiresAt := expiredAt)]
    {
      var found := GetActiveLease(token);
      if found.None? {
        return Some(LeaseConflict);
      }
      var lease := found.value.(status := LeaseStatus.Expired);
      lease := lease.(expiresAt := expiredAt);
      leases := leases[token := lease];
      refusal := None;
    }

    // ----- worker registry repository

    method UpsertWorker(q: ClaimRequest, health: Health, seenAt: Time) returns (refusal: Option<Refusal>)
      modifies this`workers
      ensures refusal == if q.maxConcurrency < 1 then Some(ConstraintViolation) else None
      ensures refusal.Some? ==> workers == old(workers)
      ensures refusal.None? ==>
        workers == old(workers)[q.workerId := Registered(Find(old(workers), q.workerId), q, health, seenAt)]
    {
      if q.maxConcurrency < 1 {
        return Some(ConstraintViolation);
      }
      refusal := None;
      if q.workerId !in workers {
        workers := workers[q.workerId := Worker(q.tags, health, 0, q.maxConcurrency, seenAt, None, None)];
        return;
      }
      var worker := workers[q.workerId].(tags := q.tags);
      worker := worker.(health := health);
      worker := worker.(maxConcurrency := q.maxConcurrency);
      worker := worker.(lastSeenAt := seenAt);
      if !health.Draining? {
        worker := worker.(drainingAt := None);
      }
      if !health.Offline? {
        worker := worker.(offlineAt := None);
      }
      workers := workers[q.workerId := worker];
    }

    method MarkSeen(workerId: Id, seenAt: Time) returns (refusal: Option<Refusal>)
      modifies this`workers
      ensures refusal == if workerId in old(workers) then None else Some(StateConflict)
      ensures refusal.Some? ==> workers == old(workers)
      ensures refusal.None? ==>
        workers == old(workers)[workerId := old(workers[workerId]).(lastSeenAt := seenAt)]
    {
      if workerId !in workers {
        return Some(StateConflict);
      }
      workers := workers[workerId := workers[workerId].(lastSeenAt := seenAt)];
      refusal := None;
    }

    method SetHealthStatus(workerId: Id, health: Health, at: Time) returns (outcome: Outcome)
      modifies this
      ensures Result(Snapshot(), outcome) == SetHealth(old(Snapshot()), workerId, health, at)
    {
      if workerId !in workers {
        return Refused(StateConflict);
      }
      var worker := workers[workerId].(health := health);
      worker := worker.(lastSeenAt := at);
      if health.Draining? {
        worker := worker.(drainingAt := Some(at));
      } else if health.Offline? {
        worker := worker.(offlineAt := Some(at));
      }
      workers := workers[workerId := worker];
      outcome := Done;
    }

    /** The increment by one and the decrement by one that stops at zero. */
    method AddToJobCount(workerId: Id, delta: int) returns (refusal: Option<Refusal>)
      modifies this`workers
      ensures refusal == if workerId in old(workers) then None else Some(StateConflict)
      ensures refusal.Some? ==> workers == old(workers)
      ensures refusal.None? ==>
        workers == old(workers)[workerId := old(workers[workerId]).(currentJobCount :=
          if delta < 0 then Max(0, old(workers[workerId]).currentJobCount + delta)
          else old(workers[workerId]).currentJobCount + delta)]
    {
      if workerId !in workers {
        return Some(StateConflict);
      }
      var count := workers[workerId].currentJobCount + delta;
      if delta < 0 && count < 0 {
        count := 0;
      }
      workers := workers[workerId := workers[workerId].(currentJobCount := count)];
      refusal := None;
    }

    // ----- services

    method AssertWorkerClaimable(workerId: Id) returns (refusal: Option<Refusal>)
      requires workerId in workers && workers[workerId].maxConcurrency >= 1
      ensures refusal == CheckClaimant(workers[workerId])
    {
      var worker := workers[workerId];
      if worker.health.Draining? || worker.health.Offline? {
        return Some(StateConflict);
      }
      if worker.currentJobCount >= worker.maxConcurrency {
        return Some(StateConflict);
      }
      refusal := None;
    }

    /** The registration that opens a claim. The first read may have missed a row that is there by the time
        of the second. */
    method RegisterClaimant(q: ClaimRequest, now: Time, missed: bool) returns (refusal: Option<Refusal>)
      modifies this`workers
      ensures refusal == CheckClaimant(Claimant(Find(old(workers), q.workerId), q, missed, now))
      ensures refusal.None? ==>
        workers == old(workers)[q.workerId := Claimant(Find(old(workers), q.workerId), q, missed, now)]
    {
      var existing := if missed then None else Find(workers, q.workerId);
      var health := if existing.Some? then existing.value.health else Healthy;
      refusal := UpsertWorker(q, health, now);
      if refusal.Some? {
        return;
      }
      refusal := AssertWorkerClaimable(q.workerId);
    }

    /** The writes of a claim, for the chosen job and the registered worker. */
    method IssueClaim(q: ClaimRequest, ids: ClaimIds, jobId: Id, now: Time) returns (refusal: Option<Refusal>)
      requires jobId in jobs && jobs[jobId].status.Claimable()
      requires q.workerId in workers && workers[q.workerId].lastSeenAt == now
      modifies this
      ensures refusal ==
        if Insertable(old(Snapshot()), jobId, old(jobs[jobId]).attemptCount + 1, ids, q.maxExtensions)
        then None else Some(ConstraintViolation)
      ensures refusal.None? ==>
        Snapshot() == ClaimChosen(old(Snapshot()), q, ids, old(workers[q.workerId]), jobId, now).state
    {
      var expiresAt := now + TimeoutMicros(q.timeoutOverride, jobs[jobId].leaseTimeoutSeconds);
      refusal := MarkClaimed(jobId, q.workerId, ids.token, now, expiresAt);
      assert refusal.None?;
      var count := jobs[jobId].attemptCount;
      var kind := if count <= 1 then Primary else Retry;
      refusal := CreateAttempt(ids.attemptId,
        Attempt(jobId, count, kind, AttemptStatus.Claimed, q.workerId, ids.token, None, None, None, None, None));
      if refusal.Some? {
        return;
      }
      refusal := CreateLease(ids.token,
        Lease(ids.leaseId, jobId, Some(ids.attemptId), q.workerId, LeaseStatus.Active, now, expiresAt,
              None, 0, 0, q.maxExtensions));
      if refusal.Some? {
        return;
      }
      refusal := AddToJobCount(q.workerId, 1);
      assert refusal.None?;
      refusal := MarkSeen(q.workerId, now);
    }

    method ClaimJob(q: ClaimRequest, ids: ClaimIds, candidates: seq<Id>, now: Time, missed: bool)
      returns (outcome: Outcome)
      requires Enabled(Snapshot(), StepClaim(q, ids, candidates, now, missed))
      modifies this
      ensures Result(Snapshot(), outcome) == Claim(old(Snapshot()), q, ids, candidates, now, missed)
    {
      var saved := Snapshot();
      var refusal := RegisterClaimant(q, now, missed);
      if refusal.Some? {
        Rollback(saved);
        return Refused(refusal.value);
      }
      var choice := GetClaimableJob(candidates, q.tags);
      if choice.None? {
        refusal := MarkSeen(q.workerId, now);
        assert refusal.None?;
        return NothingToClaim;
      }
      refusal := IssueClaim(q, ids, choice.value, now);
      if refusal.Some? {
        Rollback(saved);
        return Refused(refusal.value);
      }
      RegisteredThenClaimed(saved, q, ids, choice.value, now, missed);
      outcome := JobClaimed(choice.value);
    }

    method CheckHeartbeatLease(r: LeaseRequest, now: Time) returns (refusal: Option<Refusal>)
      requires r.Heartbeat?
      ensures refusal == CheckLease(r, now, FindActiveLease(Snapshot(), r.claimToken))
    {
      var lease := GetActiveLease(r.claimToken);
      if lease.None? || lease.value.jobId != r.jobId || lease.value.workerId != r.workerId {
        return Some(LeaseConflict);
      }
      if Given(r.attempt) && Given(lease.value.attemptId) && lease.value.attemptId != r.attempt {
        return Some(LeaseConflict);
      }
      if lease.value.expiresAt <= now {
        return Some(LeaseConflict);
      }
      refusal := None;
    }

    /** The part of a heartbeat that starts the named attempt, or only looks at it. */
    method TouchAttempt(r: LeaseRequest, now: Time) returns (refusal: Option<Refusal>)
      requires r.Heartbeat? && r.AttemptKey().Some?
      modifies this`attempts
      ensures refusal == CheckAttempt(r, Find(old(attempts), r.AttemptKey().value))
      ensures refusal.Some? ==> attempts == old(attempts)
      ensures refusal.None? ==>
        && r.AttemptKey().value in old(attempts)
        && attempts == old(attempts)[r.AttemptKey().value := NewAttempt(r, now, old(attempts)[r.AttemptKey().value])]
    {
      var key := r.AttemptKey().value;
      if key !in attempts {
        return Some(if r.markRunning then StateConflict else LeaseConflict);
      }
      var attempt := attempts[key];
      if attempt.claimToken != r.claimToken || attempt.workerId != r.workerId {
        return Some(LeaseConflict);
      }
      if r.markRunning {
        if !attempt.status.Claimed? && !attempt.status.Started? {
          return Some(StateConflict);
        }
        refusal := MarkStarted(key, Some(r.claimToken), Some(r.workerId), now);
        return;
      }
      refusal := None;
    }

    /** The part of a heartbeat that marks the job running and looks at the attempt, with the attempt status
        it answers. */
    method StartWork(r: LeaseRequest, now: Time)
      returns (refusal: Option<Refusal>, attemptStatus: Option<AttemptStatus>)
      requires r.Heartbeat? && Owned(jobs, r.jobId, r.claimToken, r.workerId).None?
      modifies this`jobs, this`attempts
      ensures var job := old(jobs[r.jobId]);
        refusal ==
          if r.markRunning && !job.status.Claimed? && !job.status.Running? then Some(StateConflict)
          else CheckAttempt(r, if r.AttemptKey().Some? then Find(old(attempts), r.AttemptKey().value) else None)
      ensures refusal.None? ==>
        && jobs == old(jobs)[r.jobId := NewJob(r, now, old(jobs[r.jobId]))]
        && (r.AttemptKey().Some? ==>
              && r.AttemptKey().value in old(attempts)
              && attempts == old(attempts)[r.AttemptKey().value :=
                   NewAttempt(r, now, old(attempts)[r.AttemptKey().value])]
              && attemptStatus == Some(attempts[r.AttemptKey().value].status))
        && (r.AttemptKey().None? ==>
              && attempts == old(attempts)
              && attemptStatus == if r.markRunning then Some(AttemptStatus.Started) else None)
    {
      refusal, attemptStatus := None, None;
      if r.markRunning {
        refusal := MarkRunning(r.jobId, r.claimToken, r.workerId, now);
        if refusal.Some? {
          return;
        }
        attemptStatus := Some(AttemptStatus.Started);
      }
      if r.AttemptKey().Some? {
        refusal := TouchAttempt(r, now);
        if refusal.Some? {
          return;
        }
        attemptStatus := Some(attempts[r.AttemptKey().value].status);
      }
      assert jobs == old(jobs)[r.jobId := NewJob(r, now, old(jobs[r.jobId]))];
    }

    function Report(r: LeaseRequest, attemptStatus: Option<AttemptStatus>): HeartbeatReport
      requires r.claimToken in leases && r.jobId in jobs
      reads this
    {
      var lease := leases[r.claimToken];
      HeartbeatReport(jobs[r.jobId].status, lease.leaseId, lease.status, attemptStatus,
                      lease.heartbeatCount, lease.extensionCount, lease.expiresAt)
    }

    method HeartbeatLease(r: LeaseRequest, now: Time)
      returns (outcome: Outcome, report: Option<HeartbeatReport>)
      requires r.Heartbeat?
      modifies this
      ensures Result(Snapshot(), outcome) == UseLease(old(Snapshot()), r, now)
      ensures report.Some? <==> outcome.Done?
      ensures report.Some? ==>
        && r.claimToken in leases && r.jobId in jobs
        && (r.AttemptKey().Some? ==> r.AttemptKey().value in attempts)
        && report.value == Reported(Snapshot(), r)
    {
      var saved := Snapshot();
      var refusal := CheckHeartbeatLease(r, now);
      if refusal.Some? {
        return Refused(refusal.value), None;
      }
      refusal := OwnedJob(r.jobId, r.claimToken, r.workerId);
      if refusal.Some? {
        return Refused(refusal.value), None;
      }
      if jobs[r.jobId].status.Terminal() {
        return Refused(StateConflict), None;
      }
      var expiresAt := now + TimeoutMicros(r.timeoutOverride, jobs[r.jobId].leaseTimeoutSeconds);
      refusal := ExtendLease(r.claimToken, r.workerId, expiresAt, now);
      if refusal.Some? {
        return Refused(refusal.value), None;
      }
      var attemptStatus;
      refusal, attemptStatus := StartWork(r, now);
      if refusal.Some? {
        Rollback(saved);
        return Refused(refusal.value), None;
      }
      refusal := MarkSeen(r.workerId, now);
      if refusal.Some? {
        Rollback(saved);
        return Refused(refusal.value), None;
      }
      outcome := Done;
      report := Some(Report(r, attemptStatus));
    }

    /** The guards complete and fail share. */
    method CheckReport(r: LeaseRequest, now: Time) returns (refusal: Option<Refusal>)
      requires r.IsReport()
      ensures var rows := ReadRows(Snapshot(), r);
        && (refusal.Some? ==> Check(r, now, rows) == refusal)
        && (refusal.None? ==>
              && CheckLease(r, now, rows.lease).None? && CheckJob(r, rows.lease.value, rows.job).None?
              && (Permitted(r) ==> CheckAttempt(r, rows.attempt).None?)
              && (!Permitted(r) ==>
                    CheckAttempt(r, rows.attempt) ==
                    Some(if r.Complete? then ConstraintViolation else StateConflict))
              && rows.attempt.Some?)
    {
      var lease := GetActiveLease(r.claimToken);
      if lease.None? || lease.value.jobId != r.jobId || lease.value.workerId != r.workerId
         || lease.value.attemptId != Some(r.attemptId) {
        return Some(LeaseConflict);
      }
      refusal := OwnedJob(r.jobId, r.claimToken, r.workerId);
      if refusal.Some? {
        return;
      }
      if jobs[r.jobId].status.Terminal() {
        return Some(StateConflict);
      }
      if r.attemptId !in attempts {
        return Some(StateConflict);
      }
      var attempt := attempts[r.attemptId];
      if attempt.jobId != r.jobId || attempt.claimToken != r.claimToken || attempt.workerId != r.workerId {
        return Some(LeaseConflict);
      }
      if !attempt.status.InProgress() {
        return Some(StateConflict);
      }
      refusal := None;
    }

    /** The worker updates that close complete and fail. */
    method FreeSlot(workerId: Id, now: Time) returns (refusal: Option<Refusal>)
      modifies this`workers
      ensures refusal == CheckWorker(Find(old(workers), workerId))
      ensures refusal.Some? ==> workers == old(workers)
      ensures refusal.None? ==>
        workers == old(workers)[workerId := old(workers[workerId]).(
          currentJobCount := Max(0, old(workers[workerId]).currentJobCount - 1), lastSeenAt := now)]
    {
      refusal := AddToJobCount(workerId, -1);
      if refusal.Some? {
        return;
      }
      refusal := MarkSeen(workerId, now);
    }

    method CompleteJob(r: LeaseRequest, now: Time) returns (outcome: Outcome)
      requires r.Complete?
      modifies this
      ensures Result(Snapshot(), outcome) == UseLease(old(Snapshot()), r, now)
    {
      var saved := Snapshot();
      var refusal := CheckReport(r, now);
      if refusal.Some? {
        return Refused(refusal.value);
      }
      refusal := MarkCompleted(r.attemptId, now, r.runtimeMs, r.providerRuntimeMs, r.uploadMs);
      if refusal.Some? {
        return Refused(refusal.value);
      }
      refusal := MarkSucceeded(r.jobId, r.claimToken, r.workerId, now);
      assert refusal.None?;
      refusal := ReleaseLease(r.claimToken, r.workerId, now);
      assert refusal.None?;
      refusal := FreeSlot(r.workerId, now);
      if refusal.Some? {
        Rollback(saved);
        return Refused(refusal.value);
      }
      outcome := Done;
    }

    method FailJob(r: LeaseRequest, now: Time) returns (outcome: Outcome)
      requires r.Fail?
      modifies this
      ensures Result(Snapshot(), outcome) == UseLease(old(Snapshot()), r, now)
    {
      var saved := Snapshot();
      var refusal := CheckReport(r, now);
      if refusal.Some? {
        return Refused(refusal.value);
      }
      if r.attemptStatus.TimedOut? {
        refusal := MarkAttemptEnded(r.attemptId, AttemptStatus.TimedOut, now);
      } else if r.attemptStatus.Stale? {
        refusal := MarkAttemptEnded(r.attemptId, AttemptStatus.Stale, now);
      } else {
        refusal := MarkAttemptEnded(r.attemptId, AttemptStatus.Failed, now);
      }
      assert refusal.None?;
      refusal := MarkJobFailed(r.jobId, r.claimToken, r.workerId, r.nextStatus, now);
      if refusal.Some? {
        Rollback(saved);
        return Refused(refusal.value);
      }
      if r.expireLease {
        refusal := ExpireLease(r.claimToken, now);
      } else {
        refusal := ReleaseLease(r.claimToken, r.workerId, now);
      }
      assert refusal.None?;
      refusal := FreeSlot(r.workerId, now);
      if refusal.Some? {
        Rollback(saved);
        return Refused(refusal.value);
      }
      outcome := Done;
    }
  }
}
