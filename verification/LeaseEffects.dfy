/** What accepted transactions store, column by column and in the terms of the request, and what it means for
    the requests that follow. */
module LeaseEffects {
  import opened Options
  import opened RuntimeTables
  import opened LeaseProtocol
  import opened LeaseInvariant
  import opened LeaseSteps

  /** A lease timeout: the seconds asked for, unless none or zero are, else the job's own. */
  predicate IsTimeout(micros: int, asked: Option<int>, ownSeconds: int) {
    && (asked.Some? && asked.value != 0 ==> micros == asked.value * 1_000_000)
    && (asked.None? || asked.value == 0 ==> micros == ownSeconds * 1_000_000)
  }

  predicate HasRows(s: State, jobId: Id, attemptId: Id, token: Id, workerId: Id) {
    jobId in s.jobs && attemptId in s.attempts && token in s.leases && workerId in s.workers
  }

  /** Both states have the same rows but for the named ones. */
  predicate SameBut(s: State, s': State, jobId: Id, attemptId: Id, token: Id, workerId: Id) {
    && s'.jobs - {jobId} == s.jobs - {jobId}
    && s'.attempts - {attemptId} == s.attempts - {attemptId}
    && s'.leases - {token} == s.leases - {token}
    && s'.workers - {workerId} == s.workers - {workerId}
  }

  // ----- fail

  /** An accepted fail gives the job the outcome asked for, ends the attempt as reported and the lease as asked, and
      frees the slot. Only an outcome of FAILED finishes the job. */
  lemma FailStores(s: State, r: LeaseRequest, now: Time)
    requires Inv(s) && r.Fail? && Accepts(s, r, now)
    ensures var s' := UseLease(s, r, now).state;
      && HasRows(s, r.jobId, r.attemptId, r.claimToken, r.workerId)
      && HasRows(s', r.jobId, r.attemptId, r.claimToken, r.workerId)
      && SameBut(s, s', r.jobId, r.attemptId, r.claimToken, r.workerId)
      && var job, job' := s.jobs[r.jobId], s'.jobs[r.jobId];
      && var attempt, attempt' := s.attempts[r.attemptId], s'.attempts[r.attemptId];
      && var lease, lease' := s.leases[r.claimToken], s'.leases[r.claimToken];
      && var worker, worker' := s.workers[r.workerId], s'.workers[r.workerId];
      && job'.status == r.nextStatus && (job'.status.Failed? || job'.status.WaitingRetry? || job'.status.Stale?)
      && (job'.status.Failed? ==> job'.finishedAt == Some(now) && job'.leaseExpiresAt.None?)
      && (!job'.status.Failed? ==> job'.finishedAt == job.finishedAt && job'.leaseExpiresAt == job.leaseExpiresAt)
      && job' == job.(status := job'.status, finishedAt := job'.finishedAt, leaseExpiresAt := job'.leaseExpiresAt)
      && (attempt'.status.TimedOut? <==> r.attemptStatus.TimedOut?)
      && (attempt'.status.Stale? <==> r.attemptStatus.Stale?)
      && (attempt'.status.Failed? <==> !r.attemptStatus.TimedOut? && !r.attemptStatus.Stale?)
      && attempt' == attempt.(status := attempt'.status, finishedAt := Some(now))
      && (r.expireLease ==> lease' == lease.(status := LeaseStatus.Expired, expiresAt := now))
      && (!r.expireLease ==> lease' == lease.(status := LeaseStatus.Released, lastHeartbeatAt := Some(now)))
      && worker' == worker.(currentJobCount := worker.currentJobCount - 1, lastSeenAt := now)
  {
    AcceptedOwns(s, r, now);
    ReporterHasSlot(s, r, now);
  }

  lemma ReporterHasSlot(s: State, r: LeaseRequest, now: Time)
    requires Inv(s) && r.IsReport() && Accepts(s, r, now)
    ensures r.workerId in s.workers && s.workers[r.workerId].currentJobCount >= 1
  {
    AcceptedOwns(s, r, now);
    assert r.claimToken in ActiveTokens(s.leases, r.workerId);
  }

  /** A failed job goes back into circulation exactly when a retry was asked for and no cancellation was:
      the next claim for its queue and routing key can then have it. */
  lemma RetriedExactly(s: State, r: LeaseRequest, now: Time, q: ClaimRequest)
    requires Inv(s) && r.Fail? && Accepts(s, r, now)
    ensures r.jobId in s.jobs && r.jobId in UseLease(s, r, now).state.jobs
    ensures var job, job' := s.jobs[r.jobId], UseLease(s, r, now).state.jobs[r.jobId];
      Eligible(job', q) <==>
        && r.nextStatus == JobStatus.WaitingRetry
        && job.cancelRequestedAt == None
        && (q.queueName == None || q.queueName == Some("") || q.queueName == Some(job.queueName))
        && (q.routingKey == None || q.routingKey == Some("") || q.routingKey == job.routingKey)
  {
    FailStores(s, r, now);
  }

  // ----- complete

  /** An accepted completion finishes job and attempt at its own time, keeps the metrics it names, releases the lease
      and frees the slot. */
  lemma CompleteStores(s: State, r: LeaseRequest, now: Time)
    requires Inv(s) && r.Complete? && Accepts(s, r, now)
    ensures var s' := UseLease(s, r, now).state;
      && HasRows(s, r.jobId, r.attemptId, r.claimToken, r.workerId)
      && HasRows(s', r.jobId, r.attemptId, r.claimToken, r.workerId)
      && SameBut(s, s', r.jobId, r.attemptId, r.claimToken, r.workerId)
      && var attempt, attempt' := s.attempts[r.attemptId], s'.attempts[r.attemptId];
      && var lease, worker := s.leases[r.claimToken], s.workers[r.workerId];
      && s'.jobs[r.jobId] ==
           s.jobs[r.jobId].(status := JobStatus.Succeeded, finishedAt := Some(now), leaseExpiresAt := None)
      && attempt'.status.Completed? && attempt'.finishedAt == Some(now)
      && (r.runtimeMs.Some? ==> attempt'.runtimeMs == r.runtimeMs)
      && (r.runtimeMs.None? ==> attempt'.runtimeMs == attempt.runtimeMs)
      && (r.providerRuntimeMs.Some? ==> attempt'.providerRuntimeMs == r.providerRuntimeMs)
      && (r.providerRuntimeMs.None? ==> attempt'.providerRuntimeMs == attempt.providerRuntimeMs)
      && (r.uploadMs.Some? ==> attempt'.uploadMs == r.uploadMs)
      && (r.uploadMs.None? ==> attempt'.uploadMs == attempt.uploadMs)
      && attempt' == attempt.(status := attempt'.status, finishedAt := attempt'.finishedAt,
                              runtimeMs := attempt'.runtimeMs, providerRuntimeMs := attempt'.providerRuntimeMs,
                              uploadMs := attempt'.uploadMs)
      && s'.leases[r.claimToken] == lease.(status := LeaseStatus.Released, lastHeartbeatAt := Some(now))
      && s'.workers[r.workerId] == worker.(currentJobCount := worker.currentJobCount - 1, lastSeenAt := now)
  {
    AcceptedOwns(s, r, now);
    ReporterHasSlot(s, r, now);
  }

  // ----- heartbeat

  /** The row of a name that is not there, to speak of four rows where a heartbeat may name no attempt. */
  function AttemptOf(s: State, r: LeaseRequest): Id
    requires r.claimToken in s.leases
  {
    if s.leases[r.claimToken].attemptId.Some? then s.leases[r.claimToken].attemptId.value else ""
  }

  /** The lease moves to the new expiry, later or sooner, and counts the heartbeat; the worker is seen. */
  lemma HeartbeatExtends(s: State, r: LeaseRequest, now: Time)
    requires Inv(s) && r.Heartbeat? && Accepts(s, r, now)
    ensures var s' := UseLease(s, r, now).state;
      && r.claimToken in s.leases && r.claimToken in s'.leases && r.jobId in s.jobs
      && r.workerId in s.workers && r.workerId in s'.workers
      && var lease, lease' := s.leases[r.claimToken], s'.leases[r.claimToken];
      && IsTimeout(lease'.expiresAt - now, r.timeoutOverride, s.jobs[r.jobId].leaseTimeoutSeconds)
      && lease' == lease.(expiresAt := lease'.expiresAt, lastHeartbeatAt := Some(now),
                          heartbeatCount := lease.heartbeatCount + 1, extensionCount := lease.extensionCount + 1)
      && s'.workers[r.workerId] == s.workers[r.workerId].(lastSeenAt := now)
  {
    AcceptedOwns(s, r, now);
  }

  lemma HeartbeatHasRows(s: State, r: LeaseRequest, now: Time)
    requires Inv(s) && r.Heartbeat? && Accepts(s, r, now)
    ensures r.claimToken in s.leases && HasRows(s, r.jobId, AttemptOf(s, r), r.claimToken, r.workerId)
  {
    AcceptedOwns(s, r, now);
  }

  /** A heartbeat writes at most the four rows it names. */
  lemma HeartbeatSpares(s: State, r: LeaseRequest, now: Time)
    requires Inv(s) && r.Heartbeat? && Accepts(s, r, now)
    ensures r.claimToken in s.leases
    ensures var s', a := UseLease(s, r, now).state, AttemptOf(s, r);
      && HasRows(s, r.jobId, a, r.claimToken, r.workerId) && HasRows(s', r.jobId, a, r.claimToken, r.workerId)
      && SameBut(s, s', r.jobId, a, r.claimToken, r.workerId)
  {
    HeartbeatHasRows(s, r, now);
  }

  /** Job and attempt are marked as asked and keep their first start. */
  lemma HeartbeatMarks(s: State, r: LeaseRequest, now: Time)
    requires Inv(s) && r.Heartbeat? && Accepts(s, r, now)
    ensures r.claimToken in s.leases
    ensures var s', a := UseLease(s, r, now).state, AttemptOf(s, r);
      && HasRows(s, r.jobId, a, r.claimToken, r.workerId) && HasRows(s', r.jobId, a, r.claimToken, r.workerId)
      && var job, job', attempt := s.jobs[r.jobId], s'.jobs[r.jobId], s.attempts[a];
      && (!r.markRunning ==> job' == job && s'.attempts == s.attempts)
      && (r.markRunning ==>
            job' == job.(status := JobStatus.Running,
                         startedAt := if job.startedAt.Some? then job.startedAt else Some(now)))
      && (r.markRunning && (r.attempt == None || r.attempt == Some("")) ==> s'.attempts == s.attempts)
      && (r.markRunning && r.attempt != None && r.attempt != Some("") ==>
            s'.attempts[a] == attempt.(status := AttemptStatus.Started,
                                       startedAt := if attempt.startedAt.Some? then attempt.startedAt else Some(now)))
  {
    AcceptedOwns(s, r, now);
  }

  /** A heartbeat buys the time it asks for: another one that marks nothing is accepted until then and not
      later, as long as an extension is left. */
  lemma HeartbeatBuysTime(s: State, r: LeaseRequest, now: Time, next: Option<int>, then': Time)
    requires Inv(s) && r.Heartbeat? && Accepts(s, r, now)
    ensures r.claimToken in s.leases && r.jobId in s.jobs
    ensures var seconds :=
        if r.timeoutOverride.Some? && r.timeoutOverride.value != 0 then r.timeoutOverride.value
        else s.jobs[r.jobId].leaseTimeoutSeconds;
      var later := r.(markRunning := false, timeoutOverride := next);
      Accepts(UseLease(s, r, now).state, later, then') <==>
        && then' < now + seconds * 1_000_000
        && s.leases[r.claimToken].extensionCount + 1 < s.leases[r.claimToken].maxExtensions
  {
    HeartbeatExtends(s, r, now);
    AcceptedOwns(s, r, now);
    LeaseKeepsInv(s, r, now);
    HeartbeatAcceptance(UseLease(s, r, now).state, r.(markRunning := false, timeoutOverride := next), then');
  }

  // ----- claim

  /** The health and the two times a registration leaves: what was stored, or a new healthy worker. */
  predicate RegisteredHealth(before: Option<Worker>, after: Worker, missed: bool) {
    && after.health == (if before.Some? && !missed then before.value.health else Healthy)
    && (before.Some? && after.health.Draining? ==> after.drainingAt == before.value.drainingAt)
    && (before.Some? && after.health.Offline? ==> after.offlineAt == before.value.offlineAt)
    && (before.None? || !after.health.Draining? ==> after.drainingAt.None?)
    && (before.None? || !after.health.Offline? ==> after.offlineAt.None?)
  }

  /** A claim adds an attempt and a lease and leaves all rows but its job's and its worker's as they are. */
  lemma ClaimSpares(s: State, q: ClaimRequest, ids: ClaimIds, candidates: seq<Id>, now: Time, missed: bool)
    requires forall j | j in candidates :: j in s.jobs
    requires Claim(s, q, ids, candidates, now, missed).outcome.JobClaimed?
    ensures var result := Claim(s, q, ids, candidates, now, missed);
      var s', j := result.state, result.outcome.jobId;
      && j in candidates && j in s.jobs
      && HasRows(s', j, ids.attemptId, ids.token, q.workerId)
      && SameBut(s, s', j, ids.attemptId, ids.token, q.workerId)
      && ids.attemptId !in s.attempts && ids.token !in s.leases
  {
  }

  /** The job, its new attempt and its new lease. */
  lemma ClaimStores(s: State, q: ClaimRequest, ids: ClaimIds, candidates: seq<Id>, now: Time, missed: bool)
    requires Inv(s) && Enabled(s, StepClaim(q, ids, candidates, now, missed))
    requires Claim(s, q, ids, candidates, now, missed).outcome.JobClaimed?
    ensures var result := Claim(s, q, ids, candidates, now, missed);
      var s', j := result.state, result.outcome.jobId;
      && j in s.jobs && HasRows(s', j, ids.attemptId, ids.token, q.workerId)
      && var job, lease := s.jobs[j], s'.leases[ids.token];
      && IsTimeout(lease.expiresAt - now, q.timeoutOverride, job.leaseTimeoutSeconds)
      && s'.jobs[j] ==
           job.(status := JobStatus.Claimed, claimedBy := Some(q.workerId), claimToken := Some(ids.token),
                claimedAt := Some(now), leaseExpiresAt := Some(lease.expiresAt), attemptCount := job.attemptCount + 1)
      && lease == Lease(ids.leaseId, j, Some(ids.attemptId), q.workerId, LeaseStatus.Active, now, lease.expiresAt,
                        None, 0, 0, q.maxExtensions)
      && s'.attempts[ids.attemptId] ==
           Attempt(j, job.attemptCount + 1, if job.attemptCount == 0 then Primary else Retry, AttemptStatus.Claimed,
                   q.workerId, ids.token, None, None, None, None, None)
  {
    assert JobConsistent(s, Claim(s, q, ids, candidates, now, missed).outcome.jobId);
  }

  /** The worker of an accepted claim. */
  lemma ClaimantStores(s: State, q: ClaimRequest, ids: ClaimIds, candidates: seq<Id>, now: Time, missed: bool)
    requires forall j | j in candidates :: j in s.jobs
    requires Claim(s, q, ids, candidates, now, missed).outcome.JobClaimed?
    ensures var s' := Claim(s, q, ids, candidates, now, missed).state;
      && q.workerId in s'.workers
      && var worker := s'.workers[q.workerId];
      && worker.currentJobCount == (if q.workerId in s.workers then s.workers[q.workerId].currentJobCount else 0) + 1
      && worker.tags == q.tags && worker.maxConcurrency == q.maxConcurrency && worker.lastSeenAt == now
      && RegisteredHealth(Find(s.workers, q.workerId), worker, missed)
  {
  }

  /** A claim that finds no job only registers its worker. */
  lemma EmptyClaimStores(s: State, q: ClaimRequest, ids: ClaimIds, candidates: seq<Id>, now: Time, missed: bool)
    requires forall j | j in candidates :: j in s.jobs
    requires Claim(s, q, ids, candidates, now, missed).outcome.NothingToClaim?
    ensures var s' := Claim(s, q, ids, candidates, now, missed).state;
      && s' == s.(workers := s'.workers) && q.workerId in s'.workers
      && s'.workers - {q.workerId} == s.workers - {q.workerId}
      && var worker := s'.workers[q.workerId];
      && worker.currentJobCount == (if q.workerId in s.workers then s.workers[q.workerId].currentJobCount else 0)
      && worker.tags == q.tags && worker.maxConcurrency == q.maxConcurrency && worker.lastSeenAt == now
      && RegisteredHealth(Find(s.workers, q.workerId), worker, missed)
  {
  }

  /** A claim buys the time it asks for: the first heartbeat is accepted until then and not later. */
  lemma ClaimBuysTime(s: State, q: ClaimRequest, ids: ClaimIds, candidates: seq<Id>, now: Time, missed: bool,
                      first: LeaseRequest, then': Time)
    requires Inv(s) && Enabled(s, StepClaim(q, ids, candidates, now, missed))
    requires Claim(s, q, ids, candidates, now, missed).outcome.JobClaimed?
    requires var j := Claim(s, q, ids, candidates, now, missed).outcome.jobId;
      && first.Heartbeat? && first.jobId == j && first.workerId == q.workerId && first.claimToken == ids.token
      && first.attempt == Some(ids.attemptId)
    ensures var j := Claim(s, q, ids, candidates, now, missed).outcome.jobId;
      && j in s.jobs
      && var seconds :=
           if q.timeoutOverride.Some? && q.timeoutOverride.value != 0 then q.timeoutOverride.value
           else s.jobs[j].leaseTimeoutSeconds;
      Accepts(Claim(s, q, ids, candidates, now, missed).state, first, then') <==>
        then' < now + seconds * 1_000_000 && q.maxExtensions > 0
  {
    ClaimStores(s, q, ids, candidates, now, missed);
    ClaimKeepsInv(s, q, ids, candidates, now, missed);
    HeartbeatAcceptance(Claim(s, q, ids, candidates, now, missed).state, first, then');
  }

  // ----- the remaining transactions

  /** Cancellation leaves finished jobs alone and marks all others, whatever they are doing. */
  lemma CancelStores(s: State, jobId: Id, now: Time)
    requires jobId in s.jobs
    ensures RequestCancel(s, jobId, now).outcome.Done?
    ensures var job, s' := s.jobs[jobId], RequestCancel(s, jobId, now).state;
      && var finished := {JobStatus.Succeeded, JobStatus.Failed, JobStatus.Stale, JobStatus.Cancelled,
                          JobStatus.Superseded, JobStatus.DeadLettered};
      && (job.status in finished ==> s' == s)
      && (job.status !in finished ==>
            s' == s.(jobs := s.jobs[jobId :=
              job.(status := JobStatus.CancelRequested, cancelRequestedAt := Some(now))]))
  {
  }

  /** A new job is held by nobody and was never run; it can be claimed exactly when it is created QUEUED, for its queue
      and its routing key. */
  lemma CreateStores(s: State, jobId: Id, spec: JobSpec, q: ClaimRequest)
    ensures var result := CreateJob(s, jobId, spec);
      && (result.outcome.Done? <==> jobId !in s.jobs && spec.priority >= 0 && spec.leaseTimeoutSeconds >= 1)
      && (!result.outcome.Done? ==> result == Result(s, Refused(ConstraintViolation)))
      && (result.outcome.Done? ==>
            && result.state == s.(jobs := result.state.jobs) && jobId in result.state.jobs
            && result.state.jobs - {jobId} == s.jobs
            && var job := result.state.jobs[jobId];
            && job.status in {JobStatus.Created, JobStatus.Queued}
            && job.priority == spec.priority && job.createdAt == spec.createdAt
            && job.requiredTags == spec.requiredTags && job.leaseTimeoutSeconds == spec.leaseTimeoutSeconds
            && job.attemptCount == 0 && job.claimedBy == None && job.claimToken == None
            && (Eligible(job, q) <==>
                  && spec.queued
                  && (q.queueName == None || q.queueName == Some("") || q.queueName == Some(spec.queueName))
                  && (q.routingKey == None || q.routingKey == Some("") || q.routingKey == spec.routingKey)))
  {
  }

  /** A health change records when the worker began to drain or went offline, and forgets neither. */
  lemma HealthStores(s: State, workerId: Id, health: Health, now: Time)
    requires workerId in s.workers
    ensures SetHealth(s, workerId, health, now).outcome.Done?
    ensures var worker, s' := s.workers[workerId], SetHealth(s, workerId, health, now).state;
      && s' == s.(workers := s'.workers) && workerId in s'.workers
      && s'.workers - {workerId} == s.workers - {workerId}
      && var worker' := s'.workers[workerId];
      && worker'.health == health && worker'.lastSeenAt == now
      && (health == Draining ==> worker'.drainingAt == Some(now) && worker'.offlineAt == worker.offlineAt)
      && (health == Offline ==> worker'.offlineAt == Some(now) && worker'.drainingAt == worker.drainingAt)
      && (health != Draining && health != Offline ==>
            worker'.drainingAt == worker.drainingAt && worker'.offlineAt == worker.offlineAt)
      && worker' == worker.(health := health, lastSeenAt := now, drainingAt := worker'.drainingAt,
                            offlineAt := worker'.offlineAt)
  {
  }

  // ----- refusals

  /** Why a report is refused: somebody else's lease or none, a negative metric, or an outcome a job may not
      take. */
  lemma ReportRefusal(s: State, r: LeaseRequest, now: Time)
    requires Inv(s) && r.IsReport()
    ensures UseLease(s, r, now).outcome == Refused(LeaseConflict) <==> !Owns(s, r)
    ensures UseLease(s, r, now).outcome == Refused(ConstraintViolation) <==>
      && Owns(s, r) && r.Complete?
      && exists ms: int | ms < 0 :: r.runtimeMs == Some(ms) || r.providerRuntimeMs == Some(ms) || r.uploadMs == Some(ms)
    ensures UseLease(s, r, now).outcome == Refused(StateConflict) <==>
      && Owns(s, r) && r.Fail?
      && r.nextStatus != JobStatus.Failed && r.nextStatus != JobStatus.WaitingRetry && r.nextStatus != JobStatus.Stale
  {
    ReportAcceptance(s, r, now);
    if Owns(s, r) {
      assert LeaseAgreesWithJob(s, r.claimToken) && LeaseAgreesWithAttempt(s, r.claimToken);
      assert LeaseConsistent(s, r.claimToken);
      if r.Complete? && !Permitted(r) {
        NegativeMetric(r);
      }
    }
  }

  lemma NegativeMetric(r: LeaseRequest)
    requires r.Complete?
    ensures !Permitted(r) <==>
      exists ms: int | ms < 0 :: r.runtimeMs == Some(ms) || r.providerRuntimeMs == Some(ms) || r.uploadMs == Some(ms)
  {
  }

  /** Why a heartbeat is refused: a state conflict only when it wants to mark a job running that is to be
      cancelled, and a lease conflict in every other case. */
  lemma HeartbeatRefusal(s: State, r: LeaseRequest, now: Time)
    requires Inv(s) && r.Heartbeat? && !Accepts(s, r, now)
    ensures UseLease(s, r, now).outcome ==
      if Owns(s, r) && now < s.leases[r.claimToken].expiresAt
         && s.leases[r.claimToken].extensionCount < s.leases[r.claimToken].maxExtensions
      then Refused(StateConflict) else Refused(LeaseConflict)
  {
    var rows := ReadRows(s, r);
    if IsActive(s, r.claimToken) {
      assert LeaseAgreesWithJob(s, r.claimToken) && LeaseAgreesWithAttempt(s, r.claimToken);
    }
    HeartbeatAcceptance(s, r, now);
  }

  /** Why a claim is refused. */
  lemma ClaimRefusal(s: State, q: ClaimRequest, ids: ClaimIds, candidates: seq<Id>, now: Time, missed: bool)
    requires forall j | j in candidates :: j in s.jobs
    requires Claim(s, q, ids, candidates, now, missed).outcome.Refused?
    ensures var result := Claim(s, q, ids, candidates, now, missed);
      && result.state == s
      && (result.outcome == Refused(StateConflict) <==>
            && q.workerId in s.workers && q.maxConcurrency >= 1
            && ((!missed && s.workers[q.workerId].health in {Draining, Offline})
                || s.workers[q.workerId].currentJobCount >= q.maxConcurrency))
      && (result.outcome != Refused(StateConflict) ==> result.outcome == Refused(ConstraintViolation))
  {
  }
}
