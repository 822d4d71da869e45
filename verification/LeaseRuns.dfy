/** Theorems about whole runs: any finite sequence of transactions, accepted or refused, by any
    number of workers. */
module LeaseRuns {
  import opened Options
  import opened RuntimeTables
  import opened LeaseProtocol
  import opened LeaseInvariant
  import opened LeaseSteps

  ghost predicate IsRun(s: State, steps: seq<Step>)
    decreases |steps|
  {
    steps == [] || (Enabled(s, steps[0]) && IsRun(Next(s, steps[0]), steps[1..]))
  }

  ghost function After(s: State, steps: seq<Step>): State
    requires IsRun(s, steps)
    decreases |steps|
  {
    if steps == [] then s else After(Next(s, steps[0]), steps[1..])
  }

  /** A run can be cut at any point. */
  lemma {:induction false} CutRun(s: State, steps: seq<Step>, k: nat)
    requires IsRun(s, steps) && k <= |steps|
    ensures IsRun(s, steps[..k]) && IsRun(After(s, steps[..k]), steps[k..])
    ensures After(After(s, steps[..k]), steps[k..]) == After(s, steps)
    decreases |steps|
  {
    if k == 0 {
      assert steps[k..] == steps;
    } else {
      CutRun(Next(s, steps[0]), steps[1..], k - 1);
      assert steps[..k][1..] == steps[1..][..k - 1];
      assert steps[k..] == steps[1..][k - 1..];
    }
  }

  lemma {:induction false} ExtendRun(s: State, steps: seq<Step>, step: Step)
    requires IsRun(s, steps) && Enabled(After(s, steps), step)
    ensures IsRun(s, steps + [step])
    ensures After(s, steps + [step]) == Next(After(s, steps), step)
    decreases |steps|
  {
    if steps == [] {
      assert steps + [step] == [step];
    } else {
      ExtendRun(Next(s, steps[0]), steps[1..], step);
      assert (steps + [step])[1..] == steps[1..] + [step];
    }
  }

  // ----- the invariant

  lemma {:induction false} RunKeepsInv(s: State, steps: seq<Step>)
    requires Inv(s) && IsRun(s, steps)
    ensures Inv(After(s, steps))
    decreases |steps|
  {
    if steps != [] {
      StepKeepsInv(s, steps[0]);
      RunKeepsInv(Next(s, steps[0]), steps[1..]);
    }
  }

  /** Every reachable state meets the cross-table invariant. */
  lemma ReachableInv(steps: seq<Step>)
    requires IsRun(EMPTY, steps)
    ensures Inv(After(EMPTY, steps))
  {
    assert Inv(EMPTY);
    RunKeepsInv(EMPTY, steps);
  }

  // ----- exactly-once reporting and fencing

  /** The token was issued and its lease is over. */
  predicate Closed(s: State, token: Id) {
    token in s.leases && !s.leases[token].status.Active?
  }

  predicate IsAcceptedReport(s: State, step: Step, token: Id) {
    && step.StepLease?
    && step.request.IsReport()
    && step.request.claimToken == token
    && Accepts(s, step.request, step.now)
  }

  ghost function AcceptedReports(s: State, steps: seq<Step>, token: Id): nat
    requires IsRun(s, steps)
    decreases |steps|
  {
    if steps == [] then 0
    else
      var rest := AcceptedReports(Next(s, steps[0]), steps[1..], token);
      if IsAcceptedReport(s, steps[0], token) then 1 + rest else rest
  }

  lemma ClosedStays(s: State, step: Step, token: Id)
    requires Enabled(s, step)
    requires Closed(s, token) || IsAcceptedReport(s, step, token)
    ensures Closed(Next(s, step), token)
    ensures Closed(s, token) ==> !IsAcceptedReport(s, step, token)
  {
  }

  lemma {:induction false} RunKeepsClosed(s: State, steps: seq<Step>, token: Id)
    requires IsRun(s, steps) && Closed(s, token)
    ensures Closed(After(s, steps), token)
    ensures AcceptedReports(s, steps, token) == 0
    decreases |steps|
  {
    if steps != [] {
      ClosedStays(s, steps[0], token);
      RunKeepsClosed(Next(s, steps[0]), steps[1..], token);
    }
  }

  /** In any run each claim token is reported on at most once. */
  lemma {:induction false} ReportedAtMostOnce(s: State, steps: seq<Step>, token: Id)
    requires IsRun(s, steps)
    ensures AcceptedReports(s, steps, token) <= 1
    decreases |steps|
  {
    if steps != [] {
      if IsAcceptedReport(s, steps[0], token) {
        ClosedStays(s, steps[0], token);
        RunKeepsClosed(Next(s, steps[0]), steps[1..], token);
      } else {
        ReportedAtMostOnce(Next(s, steps[0]), steps[1..], token);
      }
    }
  }

  /** After an accepted report every later request that carries its token is refused with a lease
      conflict, and no later claim is issued the token, whatever happened in between. */
  lemma Fenced(s: State, report: Step, later: seq<Step>, k: nat)
    requires Enabled(s, report) && report.StepLease? && IsAcceptedReport(s, report, report.request.claimToken)
    requires IsRun(Next(s, report), later) && k < |later|
    ensures IsRun(Next(s, report), later[..k])
    ensures Enabled(After(Next(s, report), later[..k]), later[k])
    ensures var outcome := Perform(After(Next(s, report), later[..k]), later[k]).outcome;
      var token := report.request.claimToken;
      && (later[k].StepLease? && later[k].request.claimToken == token ==> outcome == Refused(LeaseConflict))
      && (later[k].StepClaim? && later[k].ids.token == token ==> !outcome.JobClaimed?)
  {
    var token := report.request.claimToken;
    ClosedStays(s, report, token);
    CutRun(Next(s, report), later, k);
    assert later[k..][0] == later[k];
    RunKeepsClosed(Next(s, report), later[..k], token);
  }

  // ----- terminal and cancelled jobs

  lemma TerminalJobFrozen(s: State, step: Step, jobId: Id)
    requires Inv(s) && Enabled(s, step)
    requires jobId in s.jobs && s.jobs[jobId].status.Terminal()
    ensures jobId in Next(s, step).jobs && Next(s, step).jobs[jobId] == s.jobs[jobId]
  {
    if step.StepLease? && Accepts(s, step.request, step.now) {
      AcceptedOwns(s, step.request, step.now);
    }
  }

  /** Once a job is terminal, no run changes its row. */
  lemma {:induction false} TerminalForever(s: State, steps: seq<Step>, jobId: Id)
    requires Inv(s) && IsRun(s, steps)
    requires jobId in s.jobs && s.jobs[jobId].status.Terminal()
    ensures jobId in After(s, steps).jobs && After(s, steps).jobs[jobId] == s.jobs[jobId]
    decreases |steps|
  {
    if steps != [] {
      StepKeepsInv(s, steps[0]);
      TerminalJobFrozen(s, steps[0], jobId);
      TerminalForever(Next(s, steps[0]), steps[1..], jobId);
    }
  }

  function AttemptsOf(s: State, jobId: Id): set<Id> {
    set a | a in s.attempts && s.attempts[a].jobId == jobId
  }

  predicate CancelAsked(s: State, jobId: Id) {
    jobId in s.jobs && s.jobs[jobId].cancelRequestedAt.Some?
  }

  /** A claim never touches a job that is not eligible. */
  lemma ClaimSparesOthers(s: State, q: ClaimRequest, ids: ClaimIds, candidates: seq<Id>, now: Time, missed: bool,
                          jobId: Id)
    requires Enabled(s, StepClaim(q, ids, candidates, now, missed))
    requires jobId in s.jobs && !Eligible(s.jobs[jobId], q)
    ensures var result := Claim(s, q, ids, candidates, now, missed);
      && result.outcome != JobClaimed(jobId)
      && jobId in result.state.jobs && result.state.jobs[jobId] == s.jobs[jobId]
      && AttemptsOf(result.state, jobId) == AttemptsOf(s, jobId)
  {
    var choice := FirstFit(s.jobs, candidates, q.tags);
    var w := Claimant(Find(s.workers, q.workerId), q, missed, now);
    if CheckClaimant(w).None? && choice.Some? {
      var s' := ClaimChosen(s, q, ids, w, choice.value, now).state;
      assert AttemptsOf(s', jobId) == AttemptsOf(s, jobId);
    }
  }

  lemma LeaseSparesAttempts(s: State, r: LeaseRequest, now: Time, jobId: Id)
    requires Inv(s) && Accepts(s, r, now) && jobId in s.jobs
    ensures var s' := Written(s, r, now);
      && jobId in s'.jobs
      && s'.jobs[jobId].cancelRequestedAt == s.jobs[jobId].cancelRequestedAt
      && s'.jobs[jobId].attemptCount == s.jobs[jobId].attemptCount
      && AttemptsOf(s', jobId) == AttemptsOf(s, jobId)
  {
    WrittenRows(s, r, now);
  }

  lemma CancelledNotClaimed(s: State, step: Step, jobId: Id)
    requires Inv(s) && Enabled(s, step) && CancelAsked(s, jobId)
    ensures CancelAsked(Next(s, step), jobId)
    ensures Perform(s, step).outcome != JobClaimed(jobId)
    ensures Next(s, step).jobs[jobId].attemptCount == s.jobs[jobId].attemptCount
    ensures AttemptsOf(Next(s, step), jobId) == AttemptsOf(s, jobId)
  {
    match step
    case StepLease(request, now) =>
      if Accepts(s, request, now) {
        LeaseSparesAttempts(s, request, now, jobId);
      }
    case StepClaim(query, ids, candidates, now, missed) =>
      ClaimSparesOthers(s, query, ids, candidates, now, missed, jobId);
    case _ =>
  }

  /** Once cancellation is asked for, no run claims the job: its attempts are frozen. */
  lemma {:induction false} CancelledForever(s: State, steps: seq<Step>, jobId: Id)
    requires Inv(s) && IsRun(s, steps) && CancelAsked(s, jobId)
    ensures CancelAsked(After(s, steps), jobId)
    ensures After(s, steps).jobs[jobId].attemptCount == s.jobs[jobId].attemptCount
    ensures AttemptsOf(After(s, steps), jobId) == AttemptsOf(s, jobId)
    decreases |steps|
  {
    if steps != [] {
      StepKeepsInv(s, steps[0]);
      CancelledNotClaimed(s, steps[0], jobId);
      CancelledForever(Next(s, steps[0]), steps[1..], jobId);
    }
  }

  // ----- slot accounting

  predicate IsAcceptedClaim(s: State, step: Step, w: Id)
    requires Enabled(s, step)
  {
    step.StepClaim? && step.query.workerId == w && Perform(s, step).outcome.JobClaimed?
  }

  predicate IsAcceptedReportBy(s: State, step: Step, w: Id) {
    step.StepLease? && step.request.workerId == w && IsAcceptedReport(s, step, step.request.claimToken)
  }

  ghost function ClaimsBy(s: State, steps: seq<Step>, w: Id): nat
    requires IsRun(s, steps)
    decreases |steps|
  {
    if steps == [] then 0
    else (if IsAcceptedClaim(s, steps[0], w) then 1 else 0) + ClaimsBy(Next(s, steps[0]), steps[1..], w)
  }

  ghost function ReportsBy(s: State, steps: seq<Step>, w: Id): nat
    requires IsRun(s, steps)
    decreases |steps|
  {
    if steps == [] then 0
    else (if IsAcceptedReportBy(s, steps[0], w) then 1 else 0) + ReportsBy(Next(s, steps[0]), steps[1..], w)
  }

  lemma LeaseMovesSlots(s: State, r: LeaseRequest, now: Time, w: Id)
    requires Inv(s) && Accepts(s, r, now)
    ensures |ActiveTokens(Written(s, r, now).leases, w)| ==
      |ActiveTokens(s.leases, w)| - (if r.IsReport() && r.workerId == w then 1 else 0)
  {
    AcceptedOwns(s, r, now);
    LeaseFreesSlot(s, r, now, w);
    assert r.claimToken in ActiveTokens(s.leases, w) <==> r.workerId == w;
  }

  lemma ClaimMovesSlots(s: State, q: ClaimRequest, ids: ClaimIds, candidates: seq<Id>, now: Time, missed: bool, w: Id)
    requires Inv(s) && Enabled(s, StepClaim(q, ids, candidates, now, missed))
    ensures var result := Claim(s, q, ids, candidates, now, missed);
      |ActiveTokens(result.state.leases, w)| ==
      |ActiveTokens(s.leases, w)| + (if result.outcome.JobClaimed? && q.workerId == w then 1 else 0)
  {
    var result := Claim(s, q, ids, candidates, now, missed);
    if result.outcome.JobClaimed? {
      ClaimTakesSlot(s, q, ids, result.outcome.jobId, now, missed, w);
    }
  }

  lemma StepMovesSlots(s: State, step: Step, w: Id)
    requires Inv(s) && Enabled(s, step)
    ensures |ActiveTokens(Next(s, step).leases, w)| ==
      |ActiveTokens(s.leases, w)|
      + (if IsAcceptedClaim(s, step, w) then 1 else 0)
      - (if IsAcceptedReportBy(s, step, w) then 1 else 0)
  {
    match step
    case StepLease(r, now) =>
      if Accepts(s, r, now) {
        LeaseMovesSlots(s, r, now, w);
      }
    case StepClaim(q, ids, candidates, now, missed) =>
      ClaimMovesSlots(s, q, ids, candidates, now, missed, w);
    case _ =>
  }

  lemma {:induction false} RunMovesSlots(s: State, steps: seq<Step>, w: Id)
    requires Inv(s) && IsRun(s, steps)
    ensures |ActiveTokens(After(s, steps).leases, w)| ==
      |ActiveTokens(s.leases, w)| + ClaimsBy(s, steps, w) - ReportsBy(s, steps, w)
    decreases |steps|
  {
    if steps != [] {
      StepKeepsInv(s, steps[0]);
      StepMovesSlots(s, steps[0], w);
      RunMovesSlots(Next(s, steps[0]), steps[1..], w);
    }
  }

  /** In every reachable state the job count of a worker is its accepted claims minus its
      accepted reports, equals the number of its ACTIVE leases, and is within its capacity. */
  lemma SlotsBalance(steps: seq<Step>, w: Id)
    requires IsRun(EMPTY, steps) && w in After(EMPTY, steps).workers
    ensures var s := After(EMPTY, steps);
      && s.workers[w].currentJobCount == ClaimsBy(EMPTY, steps, w) - ReportsBy(EMPTY, steps, w)
      && s.workers[w].currentJobCount == |ActiveTokens(s.leases, w)|
      && 0 <= s.workers[w].currentJobCount <= s.workers[w].maxConcurrency
  {
    ReachableInv(steps);
    RunMovesSlots(EMPTY, steps, w);
    assert ActiveTokens(EMPTY.leases, w) == {};
  }

  // ----- how long heartbeats can keep a lease alive

  predicate OverrideWithin(override: Option<int>, limit: int) {
    override.Some? ==> override.value * MICROS_PER_SECOND <= limit
  }

  /** No timeout the step introduces exceeds the limit. */
  predicate StepWithin(step: Step, limit: int) {
    && (step.StepCreate? ==> step.spec.leaseTimeoutSeconds * MICROS_PER_SECOND <= limit)
    && (step.StepClaim? ==> OverrideWithin(step.query.timeoutOverride, limit))
    && (step.StepLease? && step.request.Heartbeat? ==> OverrideWithin(step.request.timeoutOverride, limit))
  }

  predicate LeaseBounded(lease: Lease, limit: int) {
    lease.status.Active? ==> lease.expiresAt <= lease.startedAt + (lease.extensionCount + 1) * limit
  }

  ghost predicate Bounded(s: State, limit: int) {
    && (forall j | j in s.jobs :: s.jobs[j].leaseTimeoutSeconds * MICROS_PER_SECOND <= limit)
    && (forall t | t in s.leases :: LeaseBounded(s.leases[t], limit))
  }

  lemma ExtendedLeaseBounded(r: LeaseRequest, now: Time, lease: Lease, job: Job, limit: int)
    requires r.Heartbeat? && OverrideWithin(r.timeoutOverride, limit)
    requires job.leaseTimeoutSeconds * MICROS_PER_SECOND <= limit
    requires now < lease.expiresAt && LeaseBounded(lease, limit)
    ensures LeaseBounded(NewLease(r, now, lease, job), limit)
  {
  }

  lemma LeaseKeepsBounded(s: State, r: LeaseRequest, now: Time, limit: int)
    requires StepWithin(StepLease(r, now), limit) && Bounded(s, limit) && Accepts(s, r, now)
    ensures Bounded(Written(s, r, now), limit)
  {
    var rows, s' := ReadRows(s, r), Written(s, r, now);
    if r.Heartbeat? {
      ExtendedLeaseBounded(r, now, rows.lease.value, rows.job.value, limit);
    }
    assert LeaseBounded(NewLease(r, now, rows.lease.value, rows.job.value), limit);
    assert forall j | j in s'.jobs :: s'.jobs[j].leaseTimeoutSeconds == s.jobs[j].leaseTimeoutSeconds;
  }

  lemma ClaimKeepsBounded(s: State, step: Step, limit: int)
    requires step.StepClaim? && Enabled(s, step) && StepWithin(step, limit) && Bounded(s, limit)
    ensures Bounded(Next(s, step), limit)
  {
  }

  lemma StepKeepsBounded(s: State, step: Step, limit: int)
    requires Enabled(s, step) && StepWithin(step, limit) && Bounded(s, limit)
    ensures Bounded(Next(s, step), limit)
  {
    match step
    case StepLease(r, now) =>
      if Accepts(s, r, now) {
        LeaseKeepsBounded(s, r, now, limit);
      }
    case StepClaim(_, _, _, _, _) =>
      ClaimKeepsBounded(s, step, limit);
    case _ =>
  }

  lemma {:induction false} RunKeepsBounded(s: State, steps: seq<Step>, limit: int)
    requires IsRun(s, steps) && Bounded(s, limit)
    requires forall step | step in steps :: StepWithin(step, limit)
    ensures Bounded(After(s, steps), limit)
    decreases |steps|
  {
    if steps != [] {
      StepKeepsBounded(s, steps[0], limit);
      RunKeepsBounded(Next(s, steps[0]), steps[1..], limit);
    }
  }

  lemma BoundOfLease(lease: Lease, limit: nat, now: Time)
    requires lease.status.Active? && LeaseBounded(lease, limit) && lease.extensionCount <= lease.maxExtensions
    ensures now < lease.expiresAt ==> now < lease.startedAt + (lease.maxExtensions + 1) * limit
  {
    assert (lease.extensionCount + 1) * limit <= (lease.maxExtensions + 1) * limit;
  }

  /** If no timeout in use exceeds the limit, an ACTIVE lease that is unexpired at some time
      started less than (max_extensions + 1) times the limit before that time. */
  lemma LeaseLifetime(steps: seq<Step>, limit: nat, token: Id, now: Time)
    requires IsRun(EMPTY, steps) && forall step | step in steps :: StepWithin(step, limit)
    requires IsActive(After(EMPTY, steps), token)
    ensures var lease := After(EMPTY, steps).leases[token];
      && lease.heartbeatCount == lease.extensionCount <= lease.maxExtensions
      && lease.expiresAt <= lease.startedAt + (lease.extensionCount + 1) * limit
      && (now < lease.expiresAt ==> now < lease.startedAt + (lease.maxExtensions + 1) * limit)
  {
    ReachableInv(steps);
    RunKeepsBounded(EMPTY, steps, limit);
    var lease := After(EMPTY, steps).leases[token];
    assert LeaseConsistent(After(EMPTY, steps), token);
    BoundOfLease(lease, limit, now);
  }

  // ----- the attempt history

  function AttemptsUpTo(s: State, jobId: Id, k: int): set<Id> {
    set a | a in s.attempts && s.attempts[a].jobId == jobId && s.attempts[a].index <= k
  }

  lemma NoAttemptZero(s: State, jobId: Id)
    requires Inv(s)
    ensures AttemptsUpTo(s, jobId, 0) == {}
  {
    forall a | a in s.attempts ensures s.attempts[a].index >= 1 {
      assert AttemptConsistent(s, a);
    }
  }

  lemma NextAttempt(s: State, jobId: Id, k: int)
    requires AttemptsConsistent(s) && jobId in s.jobs && 1 <= k <= s.jobs[jobId].attemptCount
    ensures |AttemptsUpTo(s, jobId, k)| == |AttemptsUpTo(s, jobId, k - 1)| + 1
  {
    assert HasAttempt(s, jobId, k);
    var a :| IsAttempt(s, a, jobId, k);
    assert AttemptsUpTo(s, jobId, k) == AttemptsUpTo(s, jobId, k - 1) + {a};
  }

  lemma {:induction false} CountAttempts(s: State, jobId: Id, k: int)
    requires Inv(s) && jobId in s.jobs && 0 <= k <= s.jobs[jobId].attemptCount
    ensures |AttemptsUpTo(s, jobId, k)| == k
  {
    if k == 0 {
      NoAttemptZero(s, jobId);
    } else {
      CountAttempts(s, jobId, k - 1);
      NextAttempt(s, jobId, k);
    }
  }

  /** The attempts of a job are numbered 1 to attempt_count without gap or repetition, the first
      is PRIMARY and the others RETRY, all but the last ended in failure, and the last is COMPLETED
      exactly when the job is SUCCEEDED. */
  lemma AttemptHistory(s: State, jobId: Id, a: Id)
    requires Inv(s) && jobId in s.jobs && a in AttemptsOf(s, jobId)
    ensures |AttemptsOf(s, jobId)| == s.jobs[jobId].attemptCount
    ensures var attempt := s.attempts[a];
      && 1 <= attempt.index <= s.jobs[jobId].attemptCount
      && (forall b | b in AttemptsOf(s, jobId) && s.attempts[b].index == attempt.index :: b == a)
      && (attempt.kind.Primary? <==> attempt.index == 1)
      && (attempt.index < s.jobs[jobId].attemptCount ==> attempt.status.EndedInFailure())
      && (attempt.status.Completed? <==>
            attempt.index == s.jobs[jobId].attemptCount && s.jobs[jobId].status.Succeeded?)
  {
    assert AttemptConsistent(s, a);
    CountAttempts(s, jobId, s.jobs[jobId].attemptCount);
    forall b | b in AttemptsOf(s, jobId)
      ensures b in AttemptsUpTo(s, jobId, s.jobs[jobId].attemptCount)
    {
      assert AttemptConsistent(s, b);
    }
    assert AttemptsOf(s, jobId) == AttemptsUpTo(s, jobId, s.jobs[jobId].attemptCount);
    if HasLiveLease(s, jobId) {
      assert LeaseAgreesWithJob(s, s.jobs[jobId].claimToken.value);
    }
  }

  /** A job is SUCCEEDED exactly when one of its attempts is COMPLETED. */
  lemma SucceededIsCompleted(s: State, jobId: Id)
    requires Inv(s) && jobId in s.jobs
    ensures s.jobs[jobId].status.Succeeded? <==>
      exists a | a in AttemptsOf(s, jobId) :: s.attempts[a].status.Completed?
  {
    if s.jobs[jobId].status.Succeeded? {
      assert JobConsistent(s, jobId);
      assert HasAttempt(s, jobId, s.jobs[jobId].attemptCount);
      var last :| IsAttempt(s, last, jobId, s.jobs[jobId].attemptCount);
      AttemptHistory(s, jobId, last);
    }
    if a :| a in AttemptsOf(s, jobId) && s.attempts[a].status.Completed? {
      AttemptHistory(s, jobId, a);
    }
  }

  // ----- a heartbeat whose answer is not what is stored

  const CREATED := StepCreate("job", JobSpec(true, 0, 0, "default", None, [], 300))

  const CLAIMED := StepClaim(ClaimRequest("worker", [], None, None, 1, None, 1), ClaimIds("token", "attempt", "lease"),
                             ["job"], 0, false)

  lemma ClaimedRows(s1: State, s: State)
    requires s1 == Next(EMPTY, CREATED) && Enabled(s1, CLAIMED) && s == Next(s1, CLAIMED)
    ensures "job" in s.jobs && s.jobs["job"].status.Claimed?
    ensures "attempt" in s.attempts && s.attempts["attempt"].status.Claimed?
    ensures IsActive(s, "token") && s.leases["token"] ==
      Lease("lease", "job", Some("attempt"), "worker", LeaseStatus.Active, 0, 300 * MICROS_PER_SECOND, None, 0, 0, 1)
  {
  }

  /** The first heartbeat after a claim can be one. */
  lemma ReportDiffersInARun()
    ensures IsRun(EMPTY, [CREATED, CLAIMED])
    ensures var s := After(EMPTY, [CREATED, CLAIMED]);
      var r := Heartbeat("job", "worker", "token", None, true, None);
      && Accepts(s, r, 1)
      && var s' := UseLease(s, r, 1).state;
      && "token" in s'.leases && "job" in s'.jobs && "attempt" in s'.attempts
      && Reported(s', r).attemptStatus == Some(AttemptStatus.Started)
      && s'.attempts["attempt"].status.Claimed?
  {
    var s1 := Next(EMPTY, CREATED);
    assert [CREATED, CLAIMED][1..] == [CLAIMED];
    assert Enabled(s1, CLAIMED) && IsRun(s1, [CLAIMED]);
    var s := Next(s1, CLAIMED);
    assert After(s1, [CLAIMED]) == s;
    ReachableInv([CREATED, CLAIMED]);
    ClaimedRows(s1, s);
    ReportDiffers(s, "token", 1);
  }
}
