/** The invariant that ties the four tables together, and its preservation by every
    transaction. */
module LeaseInvariant {
  import opened Options
  import opened RuntimeTables
  import opened LeaseProtocol

  // ----- leases against jobs and attempts

  predicate IsActive(s: State, token: Id) {
    token in s.leases && s.leases[token].status.Active?
  }

  predicate HoldsClaim(status: JobStatus) {
    status.Claimed? || status.Running? || status.CancelRequested?
  }

  predicate LeaseAgreesWithJob(s: State, token: Id)
    requires token in s.leases
  {
    var lease := s.leases[token];
    && lease.jobId in s.jobs
    && var job := s.jobs[lease.jobId];
    && job.claimToken == Some(token)
    && job.claimedBy == Some(lease.workerId)
    && HoldsClaim(job.status)
  }

  predicate LeaseAgreesWithAttempt(s: State, token: Id)
    requires token in s.leases
  {
    var lease := s.leases[token];
    && lease.jobId in s.jobs
    && Given(lease.attemptId)
    && lease.attemptId.value in s.attempts
    && var attempt := s.attempts[lease.attemptId.value];
    && attempt.jobId == lease.jobId
    && attempt.claimToken == token
    && attempt.workerId == lease.workerId
    && attempt.index == s.jobs[lease.jobId].attemptCount
    && (attempt.status.Claimed? || attempt.status.Started?)
  }

  ghost predicate LeasesAgree(s: State) {
    forall t | IsActive(s, t) :: LeaseAgreesWithJob(s, t) && LeaseAgreesWithAttempt(s, t)
  }

  // ----- jobs against leases

  predicate HasLiveLease(s: State, jobId: Id)
    requires jobId in s.jobs
  {
    var token := s.jobs[jobId].claimToken;
    token.Some? && IsActive(s, token.value) && s.leases[token.value].jobId == jobId
  }

  predicate JobConsistent(s: State, jobId: Id)
    requires jobId in s.jobs
  {
    var job := s.jobs[jobId];
    && job.attemptCount >= 0
    && job.leaseTimeoutSeconds >= 1
    && !job.status.Cancelled? && !job.status.Superseded? && !job.status.DeadLettered?
    && (job.status.Claimed? || job.status.Running? ==> HasLiveLease(s, jobId))
    && (job.status.Created? || job.status.Queued? ==> job.attemptCount == 0)
    && (job.status.Succeeded? || job.status.FailureOutcome() ==> job.attemptCount >= 1)
    && (job.status.CancelRequested? ==> job.cancelRequestedAt.Some?)
  }

  ghost predicate JobsConsistent(s: State) {
    forall j | j in s.jobs :: JobConsistent(s, j)
  }

  // ----- the attempt history of a job

  predicate AttemptConsistent(s: State, a: Id)
    requires a in s.attempts
  {
    var attempt := s.attempts[a];
    && attempt.jobId in s.jobs
    && var job := s.jobs[attempt.jobId];
    && 1 <= attempt.index <= job.attemptCount
    && attempt.kind == (if attempt.index == 1 then Primary else Retry)
    && (attempt.index < job.attemptCount ==> attempt.status.EndedInFailure())
    && (attempt.index == job.attemptCount ==>
          if HasLiveLease(s, attempt.jobId) then attempt.status.Claimed? || attempt.status.Started?
          else if job.status.Succeeded? then attempt.status.Completed?
          else attempt.status.EndedInFailure())
  }

  predicate IsAttempt(s: State, a: Id, jobId: Id, index: int) {
    a in s.attempts && s.attempts[a].jobId == jobId && s.attempts[a].index == index
  }

  ghost predicate HasAttempt(s: State, jobId: Id, index: int) {
    exists a :: IsAttempt(s, a, jobId, index)
  }

  ghost predicate AttemptsConsistent(s: State) {
    && (forall a | a in s.attempts :: AttemptConsistent(s, a))
    && (forall a, b | a in s.attempts && b in s.attempts && a != b ::
          s.attempts[a].jobId != s.attempts[b].jobId || s.attempts[a].index != s.attempts[b].index)
    && (forall j, k | j in s.jobs && 1 <= k <= s.jobs[j].attemptCount :: HasAttempt(s, j, k))
  }

  // ----- lease counters and worker slots

  predicate LeaseConsistent(s: State, token: Id)
    requires token in s.leases
  {
    var lease := s.leases[token];
    && lease.workerId in s.workers
    && 0 <= lease.heartbeatCount == lease.extensionCount <= lease.maxExtensions
  }

  ghost predicate LeasesConsistent(s: State) {
    && (forall t | t in s.leases :: LeaseConsistent(s, t))
    && (forall t, u | t in s.leases && u in s.leases && t != u :: s.leases[t].leaseId != s.leases[u].leaseId)
  }

  function ActiveTokens(leases: map<Id, Lease>, workerId: Id): set<Id> {
    set t | t in leases && leases[t].status.Active? && leases[t].workerId == workerId
  }

  predicate SlotsConserved(s: State) {
    forall w | w in s.workers ::
      && s.workers[w].currentJobCount == |ActiveTokens(s.leases, w)|
      && s.workers[w].currentJobCount <= s.workers[w].maxConcurrency
  }

  ghost predicate Inv(s: State) {
    && LeasesAgree(s)
    && JobsConsistent(s)
    && AttemptsConsistent(s)
    && LeasesConsistent(s)
    && SlotsConserved(s)
  }

  // ----- what the invariant says about one job

  /** Two ACTIVE leases never name the same job, so the single-row lookup by job is safe. */
  lemma OneActiveLeasePerJob(s: State, t: Id, u: Id)
    requires Inv(s) && IsActive(s, t) && IsActive(s, u)
    requires s.leases[t].jobId == s.leases[u].jobId
    ensures t == u
  {
  }

  ghost predicate IsLeased(s: State, jobId: Id) {
    exists t | t in s.leases :: IsActive(s, t) && s.leases[t].jobId == jobId
  }

  /** Which jobs have an ACTIVE lease: all that are CLAIMED or RUNNING, none that were never claimed,
      wait for a retry or are terminal, and of the others those whose claim token still has one. */
  lemma LeasedJobs(s: State, jobId: Id)
    requires Inv(s) && jobId in s.jobs
    ensures IsLeased(s, jobId) <==> HasLiveLease(s, jobId)
    ensures s.jobs[jobId].status.Claimed? || s.jobs[jobId].status.Running? ==> IsLeased(s, jobId)
    ensures IsLeased(s, jobId) ==> HoldsClaim(s.jobs[jobId].status)
  {
  }

  // ----- accepted requests

  /** Under the invariant all checks behind the lease check follow from it. */
  predicate Owns(s: State, r: LeaseRequest) {
    && IsActive(s, r.claimToken)
    && var lease := s.leases[r.claimToken];
    && lease.jobId == r.jobId
    && lease.workerId == r.workerId
    && (r.AttemptKey().Some? ==> lease.attemptId == r.AttemptKey())
  }

  predicate Accepts(s: State, r: LeaseRequest, now: Time) {
    Check(r, now, ReadRows(s, r)).None?
  }

  lemma AcceptedOwns(s: State, r: LeaseRequest, now: Time)
    requires Inv(s) && Accepts(s, r, now)
    ensures Owns(s, r) && Permitted(r)
    ensures r.jobId in s.jobs && r.workerId in s.workers
    ensures LeaseAgreesWithJob(s, r.claimToken) && LeaseAgreesWithAttempt(s, r.claimToken)
    ensures r.AttemptKey().Some? ==> r.AttemptKey().value in s.attempts
  {
  }

  /** A report is accepted exactly when the reporter owns an ACTIVE lease on the job and the
      attempt it names and its payload is permitted; a permitted report that is refused always
      meets a lease conflict, and a refusal changes nothing. */
  lemma ReportAcceptance(s: State, r: LeaseRequest, now: Time)
    requires Inv(s) && r.IsReport()
    ensures UseLease(s, r, now).outcome.Done? <==> Owns(s, r) && Permitted(r)
    ensures !Owns(s, r) ==> UseLease(s, r, now) == Result(s, Refused(LeaseConflict))
    ensures !UseLease(s, r, now).outcome.Done? ==> UseLease(s, r, now).state == s
  {
    var rows := ReadRows(s, r);
    if Owns(s, r) {
      assert LeaseAgreesWithJob(s, r.claimToken) && LeaseAgreesWithAttempt(s, r.claimToken);
      assert LeaseConsistent(s, r.claimToken);
      assert CheckLease(r, now, rows.lease).None? && CheckJob(r, rows.lease.value, rows.job).None?;
    } else {
      assert CheckLease(r, now, rows.lease) == Some(LeaseConflict);
    }
  }

  /** A heartbeat needs in addition an unexpired lease with an extension left and, when it
      marks the job running, a job nobody asked to cancel. */
  lemma HeartbeatAcceptance(s: State, r: LeaseRequest, now: Time)
    requires Inv(s) && r.Heartbeat?
    ensures UseLease(s, r, now).outcome.Done? <==>
      && Owns(s, r)
      && now < s.leases[r.claimToken].expiresAt
      && s.leases[r.claimToken].extensionCount < s.leases[r.claimToken].maxExtensions
      && (r.markRunning ==> !s.jobs[r.jobId].status.CancelRequested?)
    ensures !UseLease(s, r, now).outcome.Done? ==> UseLease(s, r, now).state == s
  {
    var rows := ReadRows(s, r);
    if Owns(s, r) {
      assert LeaseAgreesWithJob(s, r.claimToken) && LeaseAgreesWithAttempt(s, r.claimToken);
      assert LeaseConsistent(s, r.claimToken);
      assert CheckAttempt(r, rows.attempt).None? && CheckWorker(rows.worker).None?;
    } else {
      if IsActive(s, r.claimToken) {
        assert LeaseAgreesWithAttempt(s, r.claimToken);
      }
      assert CheckLease(r, now, rows.lease).Some?;
    }
  }

  /** An accepted heartbeat answers the stored counters, statuses and expiry. Its attempt status, where it
      gives one, is that of the lease's attempt unless it marks the job running, names no attempt and the
      attempt was still only claimed. */
  lemma ReportIsStored(s: State, r: LeaseRequest, now: Time)
    requires Inv(s) && r.Heartbeat? && Accepts(s, r, now)
    ensures var s' := UseLease(s, r, now).state;
      && r.claimToken in s'.leases && r.jobId in s'.jobs && Given(s'.leases[r.claimToken].attemptId)
      && var attemptId := s'.leases[r.claimToken].attemptId.value;
      && (r.AttemptKey().Some? ==> r.AttemptKey().value == attemptId)
      && attemptId in s.attempts && attemptId in s'.attempts
      && var report := Reported(s', r);
      && report.jobStatus == s'.jobs[r.jobId].status && report.leaseStatus.Active?
      && report.leaseId == s.leases[r.claimToken].leaseId
      && report.expiresAt == s'.leases[r.claimToken].expiresAt
      && report.heartbeatCount == report.extensionCount == s.leases[r.claimToken].extensionCount + 1
      && (report.attemptStatus.None? <==> r.AttemptKey().None? && !r.markRunning)
      && (report.attemptStatus.Some? ==>
            (report.attemptStatus.value != s'.attempts[attemptId].status <==>
             r.markRunning && r.AttemptKey().None? && s.attempts[attemptId].status.Claimed?))
  {
    AcceptedOwns(s, r, now);
    assert LeaseConsistent(s, r.claimToken);
  }

  /** On any unexpired lease with an extension left whose attempt is only claimed, a heartbeat that marks a
      CLAIMED job running and names no attempt is told so of an attempt that stays claimed. */
  lemma ReportDiffers(s: State, token: Id, now: Time)
    requires Inv(s) && IsActive(s, token)
    requires now < s.leases[token].expiresAt && s.leases[token].extensionCount < s.leases[token].maxExtensions
    requires s.leases[token].jobId in s.jobs && s.jobs[s.leases[token].jobId].status.Claimed?
    requires Given(s.leases[token].attemptId) && s.leases[token].attemptId.value in s.attempts
    requires s.attempts[s.leases[token].attemptId.value].status.Claimed?
    ensures var lease := s.leases[token];
      var r := Heartbeat(lease.jobId, lease.workerId, token, None, true, None);
      && Accepts(s, r, now)
      && var s' := UseLease(s, r, now).state;
      && token in s'.leases && lease.jobId in s'.jobs && lease.attemptId.value in s'.attempts
      && Reported(s', r).attemptStatus == Some(AttemptStatus.Started)
      && s'.attempts[lease.attemptId.value].status.Claimed?
  {
    var lease := s.leases[token];
    var r := Heartbeat(lease.jobId, lease.workerId, token, None, true, None);
    HeartbeatAcceptance(s, r, now);
    assert Owns(s, r);
    ReportIsStored(s, r, now);
  }
}
