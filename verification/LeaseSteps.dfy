/** Every transaction keeps the invariant. */
module LeaseSteps {
  import opened Options
  import opened RuntimeTables
  import opened LeaseProtocol
  import opened LeaseInvariant

  /** Numbered attempts stay numbered while attempt rows keep their job and index. */
  lemma NumbersKept(s: State, s': State, jobId: Id, index: int)
    requires HasAttempt(s, jobId, index)
    requires forall a | a in s.attempts ::
      a in s'.attempts && s'.attempts[a].jobId == s.attempts[a].jobId && s'.attempts[a].index == s.attempts[a].index
    ensures HasAttempt(s', jobId, index)
  {
    var a :| IsAttempt(s, a, jobId, index);
    assert IsAttempt(s', a, jobId, index);
  }

  // ----- heartbeat, complete and fail

  ghost predicate AcceptedIn(s: State, r: LeaseRequest, now: Time) {
    Inv(s) && Accepts(s, r, now)
  }

  function Written(s: State, r: LeaseRequest, now: Time): State
    requires Accepts(s, r, now)
  {
    Write(s, r, now, ReadRows(s, r))
  }

  /** What a request leaves in place and what it writes, row by row. */
  lemma WrittenRows(s: State, r: LeaseRequest, now: Time)
    requires Accepts(s, r, now)
    ensures var s' := Written(s, r, now);
      && s'.jobs.Keys == s.jobs.Keys && s'.attempts.Keys == s.attempts.Keys
      && s'.leases.Keys == s.leases.Keys && s'.workers.Keys == s.workers.Keys
      && s'.jobs[r.jobId].attemptCount == s.jobs[r.jobId].attemptCount
      && s'.jobs[r.jobId].claimToken == s.jobs[r.jobId].claimToken
      && s'.jobs[r.jobId].claimedBy == s.jobs[r.jobId].claimedBy
      && s'.jobs[r.jobId].leaseTimeoutSeconds == s.jobs[r.jobId].leaseTimeoutSeconds
      && s'.jobs[r.jobId].cancelRequestedAt == s.jobs[r.jobId].cancelRequestedAt
      && (forall a | a in s.attempts ::
            && s'.attempts[a].jobId == s.attempts[a].jobId
            && s'.attempts[a].index == s.attempts[a].index
            && s'.attempts[a].kind == s.attempts[a].kind
            && s'.attempts[a].claimToken == s.attempts[a].claimToken
            && s'.attempts[a].workerId == s.attempts[a].workerId)
      && (forall t | t in s.leases ::
            && s'.leases[t].jobId == s.leases[t].jobId
            && s'.leases[t].attemptId == s.leases[t].attemptId
            && s'.leases[t].workerId == s.leases[t].workerId
            && s'.leases[t].leaseId == s.leases[t].leaseId)
      && (forall t | t != r.claimToken :: IsActive(s', t) == IsActive(s, t))
      && IsActive(s', r.claimToken) == !r.IsReport()
  {
  }

  lemma LeaseKeepsLeasesAgree(s: State, r: LeaseRequest, now: Time)
    requires AcceptedIn(s, r, now)
    ensures LeasesAgree(Written(s, r, now))
  {
    var s' := Written(s, r, now);
    AcceptedOwns(s, r, now);
    WrittenRows(s, r, now);
    forall t | IsActive(s', t) ensures LeaseAgreesWithJob(s', t) && LeaseAgreesWithAttempt(s', t) {
      assert IsActive(s, t);
      assert LeaseAgreesWithJob(s, t) && LeaseAgreesWithAttempt(s, t);
      if t != r.claimToken && s.leases[t].jobId == r.jobId {
        OneActiveLeasePerJob(s, t, r.claimToken);
      }
    }
  }

  lemma LeaseKeepsLiveness(s: State, r: LeaseRequest, now: Time, jobId: Id)
    requires AcceptedIn(s, r, now) && jobId in s.jobs
    ensures HasLiveLease(Written(s, r, now), jobId) == (HasLiveLease(s, jobId) && (jobId == r.jobId ==> !r.IsReport()))
  {
    AcceptedOwns(s, r, now);
    WrittenRows(s, r, now);
  }

  lemma LeaseKeepsJob(s: State, r: LeaseRequest, now: Time, jobId: Id)
    requires AcceptedIn(s, r, now) && jobId in s.jobs
    ensures jobId in Written(s, r, now).jobs && JobConsistent(Written(s, r, now), jobId)
  {
    AcceptedOwns(s, r, now);
    assert JobConsistent(s, jobId);
    assert AttemptConsistent(s, s.leases[r.claimToken].attemptId.value);
    LeaseKeepsLiveness(s, r, now, jobId);
  }

  lemma LeaseKeepsJobs(s: State, r: LeaseRequest, now: Time)
    requires AcceptedIn(s, r, now)
    ensures JobsConsistent(Written(s, r, now))
  {
    WrittenRows(s, r, now);
    forall j | j in Written(s, r, now).jobs ensures JobConsistent(Written(s, r, now), j) {
      LeaseKeepsJob(s, r, now, j);
    }
  }

  lemma LeaseKeepsAttempt(s: State, r: LeaseRequest, now: Time, a: Id)
    requires AcceptedIn(s, r, now) && a in s.attempts
    ensures a in Written(s, r, now).attempts && AttemptConsistent(Written(s, r, now), a)
  {
    AcceptedOwns(s, r, now);
    var mine := s.leases[r.claimToken].attemptId.value;
    assert AttemptConsistent(s, a) && AttemptConsistent(s, mine);
    LeaseKeepsLiveness(s, r, now, s.attempts[a].jobId);
  }

  lemma LeaseKeepsNumbers(s: State, r: LeaseRequest, now: Time, jobId: Id, index: int)
    requires AcceptedIn(s, r, now) && jobId in s.jobs && 1 <= index <= s.jobs[jobId].attemptCount
    ensures HasAttempt(Written(s, r, now), jobId, index)
  {
    WrittenRows(s, r, now);
    NumbersKept(s, Written(s, r, now), jobId, index);
  }

  lemma LeaseKeepsDistinct(s: State, r: LeaseRequest, now: Time, a: Id, b: Id)
    requires AcceptedIn(s, r, now) && a in s.attempts && b in s.attempts && a != b
    ensures var s' := Written(s, r, now);
      && a in s'.attempts && b in s'.attempts
      && (s'.attempts[a].jobId != s'.attempts[b].jobId || s'.attempts[a].index != s'.attempts[b].index)
  {
    WrittenRows(s, r, now);
  }

  lemma LeaseKeepsAttempts(s: State, r: LeaseRequest, now: Time)
    requires AcceptedIn(s, r, now)
    ensures AttemptsConsistent(Written(s, r, now))
  {
    var s' := Written(s, r, now);
    WrittenRows(s, r, now);
    forall a | a in s'.attempts ensures AttemptConsistent(s', a) {
      LeaseKeepsAttempt(s, r, now, a);
    }
    forall a, b | a in s'.attempts && b in s'.attempts && a != b
      ensures s'.attempts[a].jobId != s'.attempts[b].jobId || s'.attempts[a].index != s'.attempts[b].index
    {
      LeaseKeepsDistinct(s, r, now, a, b);
    }
    forall j, k | j in s'.jobs && 1 <= k <= s'.jobs[j].attemptCount ensures HasAttempt(s', j, k) {
      LeaseKeepsNumbers(s, r, now, j, k);
    }
  }

  lemma LeaseKeepsLeaseRows(s: State, r: LeaseRequest, now: Time)
    requires AcceptedIn(s, r, now)
    ensures LeasesConsistent(Written(s, r, now))
  {
    var s' := Written(s, r, now);
    AcceptedOwns(s, r, now);
    WrittenRows(s, r, now);
    forall t | t in s'.leases ensures LeaseConsistent(s', t) {
      assert LeaseConsistent(s, t);
    }
  }

  /** Writing one lease row adds or removes at most its own token. */
  lemma TokensWritten(leases: map<Id, Lease>, token: Id, lease: Lease, w: Id)
    ensures ActiveTokens(leases[token := lease], w) ==
      (ActiveTokens(leases, w) - {token}) + (if lease.status.Active? && lease.workerId == w then {token} else {})
  {
  }

  /** A report frees one slot of its own worker, a heartbeat none; the floor at zero in the
      decrement has no effect. */
  lemma LeaseFreesSlot(s: State, r: LeaseRequest, now: Time, w: Id)
    requires AcceptedIn(s, r, now)
    ensures var s' := Written(s, r, now);
      ActiveTokens(s'.leases, w) == ActiveTokens(s.leases, w) - (if r.IsReport() then {r.claimToken} else {})
    ensures r.IsReport() ==> s.workers[r.workerId].currentJobCount >= 1
  {
    AcceptedOwns(s, r, now);
    var rows := ReadRows(s, r);
    TokensWritten(s.leases, r.claimToken, NewLease(r, now, rows.lease.value, rows.job.value), w);
    assert r.claimToken in ActiveTokens(s.leases, r.workerId);
  }

  /** The job count of a worker against its tokens, after the write. */
  lemma LeaseKeepsSlot(s: State, r: LeaseRequest, now: Time, w: Id)
    requires AcceptedIn(s, r, now) && w in s.workers
    ensures var s' := Written(s, r, now);
      && w in s'.workers
      && s'.workers[w].currentJobCount == |ActiveTokens(s'.leases, w)| <= s'.workers[w].maxConcurrency
  {
    AcceptedOwns(s, r, now);
    LeaseFreesSlot(s, r, now, w);
    assert r.claimToken in ActiveTokens(s.leases, w) <==> w == r.workerId;
  }

  lemma LeaseKeepsSlots(s: State, r: LeaseRequest, now: Time)
    requires AcceptedIn(s, r, now)
    ensures SlotsConserved(Written(s, r, now))
  {
    var s' := Written(s, r, now);
    WrittenRows(s, r, now);
    forall w | w in s'.workers
      ensures s'.workers[w].currentJobCount == |ActiveTokens(s'.leases, w)| <= s'.workers[w].maxConcurrency
    {
      LeaseKeepsSlot(s, r, now, w);
    }
  }

  lemma LeaseKeepsInv(s: State, r: LeaseRequest, now: Time)
    requires Inv(s)
    ensures Inv(UseLease(s, r, now).state)
  {
    if Accepts(s, r, now) {
      LeaseKeepsLeasesAgree(s, r, now);
      LeaseKeepsJobs(s, r, now);
      LeaseKeepsAttempts(s, r, now);
      LeaseKeepsLeaseRows(s, r, now);
      LeaseKeepsSlots(s, r, now);
    }
  }

  // ----- claim

  /** The steps of an accepted claim. */
  ghost predicate ClaimsIn(s: State, q: ClaimRequest, ids: ClaimIds, jobId: Id) {
    && Inv(s)
    && jobId in s.jobs
    && Eligible(s.jobs[jobId], q)
    && ids.attemptId != ""
    && Insertable(s, jobId, s.jobs[jobId].attemptCount + 1, ids, q.maxExtensions)
  }

  function AfterClaim(s: State, q: ClaimRequest, ids: ClaimIds, jobId: Id, now: Time, missed: bool): State
    requires jobId in s.jobs
  {
    ClaimChosen(s, q, ids, Claimant(Find(s.workers, q.workerId), q, missed, now), jobId, now).state
  }

  /** A claimable job has no live lease, and its last attempt, if any, ended in failure. */
  lemma ClaimableIsIdle(s: State, jobId: Id)
    requires Inv(s) && jobId in s.jobs && s.jobs[jobId].status.Claimable()
    ensures !HasLiveLease(s, jobId)
    ensures forall t | IsActive(s, t) :: s.leases[t].jobId != jobId
    ensures forall a | a in s.attempts && s.attempts[a].jobId == jobId :: s.attempts[a].status.EndedInFailure()
  {
  }

  lemma ClaimKeepsLeasesAgree(s: State, q: ClaimRequest, ids: ClaimIds, jobId: Id, now: Time, missed: bool)
    requires ClaimsIn(s, q, ids, jobId)
    ensures LeasesAgree(AfterClaim(s, q, ids, jobId, now, missed))
  {
    var s' := AfterClaim(s, q, ids, jobId, now, missed);
    ClaimableIsIdle(s, jobId);
    forall t | IsActive(s', t) ensures LeaseAgreesWithJob(s', t) && LeaseAgreesWithAttempt(s', t) {
      if t != ids.token {
        assert IsActive(s, t);
        assert LeaseAgreesWithJob(s, t) && LeaseAgreesWithAttempt(s, t);
      }
    }
  }

  lemma ClaimKeepsJobs(s: State, q: ClaimRequest, ids: ClaimIds, jobId: Id, now: Time, missed: bool)
    requires ClaimsIn(s, q, ids, jobId)
    ensures JobsConsistent(AfterClaim(s, q, ids, jobId, now, missed))
    ensures forall j | j in s.jobs && j != jobId ::
      HasLiveLease(AfterClaim(s, q, ids, jobId, now, missed), j) == HasLiveLease(s, j)
  {
    var s' := AfterClaim(s, q, ids, jobId, now, missed);
    forall j | j in s'.jobs ensures JobConsistent(s', j) && (j != jobId ==> HasLiveLease(s', j) == HasLiveLease(s, j)) {
      assert JobConsistent(s, j);
    }
  }

  lemma ClaimAddsAttempt(s: State, q: ClaimRequest, ids: ClaimIds, jobId: Id, now: Time, missed: bool)
    requires ClaimsIn(s, q, ids, jobId)
    ensures AttemptConsistent(AfterClaim(s, q, ids, jobId, now, missed), ids.attemptId)
  {
    assert JobConsistent(s, jobId);
  }

  /** The earlier attempts of the claimed job are no longer the last. */
  lemma ClaimKeepsAttempt(s: State, q: ClaimRequest, ids: ClaimIds, jobId: Id, now: Time, missed: bool, a: Id)
    requires ClaimsIn(s, q, ids, jobId) && a in s.attempts
    ensures var s' := AfterClaim(s, q, ids, jobId, now, missed); a in s'.attempts && AttemptConsistent(s', a)
  {
    assert a != ids.attemptId && AttemptConsistent(s, a);
    if s.attempts[a].jobId == jobId {
      ClaimableIsIdle(s, jobId);
    } else {
      ClaimKeepsJobs(s, q, ids, jobId, now, missed);
    }
  }

  lemma ClaimKeepsAttempts(s: State, q: ClaimRequest, ids: ClaimIds, jobId: Id, now: Time, missed: bool)
    requires ClaimsIn(s, q, ids, jobId)
    ensures AttemptsConsistent(AfterClaim(s, q, ids, jobId, now, missed))
  {
    var s' := AfterClaim(s, q, ids, jobId, now, missed);
    forall a | a in s'.attempts ensures AttemptConsistent(s', a) {
      if a == ids.attemptId {
        ClaimAddsAttempt(s, q, ids, jobId, now, missed);
      } else {
        ClaimKeepsAttempt(s, q, ids, jobId, now, missed, a);
      }
    }
    forall j, k | j in s'.jobs && 1 <= k <= s'.jobs[j].attemptCount ensures HasAttempt(s', j, k) {
      if j == jobId && k == s'.jobs[j].attemptCount {
        assert IsAttempt(s', ids.attemptId, j, k);
      } else {
        NumbersKept(s, s', j, k);
      }
    }
  }

  lemma ClaimKeepsLeaseRows(s: State, q: ClaimRequest, ids: ClaimIds, jobId: Id, now: Time, missed: bool)
    requires ClaimsIn(s, q, ids, jobId)
    ensures LeasesConsistent(AfterClaim(s, q, ids, jobId, now, missed))
  {
  }

  /** A worker nobody registered yet holds no lease. */
  lemma UnknownWorkerIsFree(s: State, w: Id)
    requires Inv(s) && w !in s.workers
    ensures ActiveTokens(s.leases, w) == {}
  {
  }

  /** A claim takes one slot of the claiming worker. */
  lemma ClaimTakesSlot(s: State, q: ClaimRequest, ids: ClaimIds, jobId: Id, now: Time, missed: bool, w: Id)
    requires ClaimsIn(s, q, ids, jobId)
    ensures var s' := AfterClaim(s, q, ids, jobId, now, missed);
      ActiveTokens(s'.leases, w) == ActiveTokens(s.leases, w) + (if w == q.workerId then {ids.token} else {})
    ensures ids.token !in ActiveTokens(s.leases, w)
  {
    TokensWritten(s.leases, ids.token, ClaimedLease(jobId, s.jobs[jobId], q, ids, now), w);
  }

  lemma ClaimKeepsSlots(s: State, q: ClaimRequest, ids: ClaimIds, jobId: Id, now: Time, missed: bool)
    requires ClaimsIn(s, q, ids, jobId)
    requires CheckClaimant(Claimant(Find(s.workers, q.workerId), q, missed, now)).None?
    ensures SlotsConserved(AfterClaim(s, q, ids, jobId, now, missed))
  {
    var s' := AfterClaim(s, q, ids, jobId, now, missed);
    forall w | w in s'.workers
      ensures s'.workers[w].currentJobCount == |ActiveTokens(s'.leases, w)| <= s'.workers[w].maxConcurrency
    {
      ClaimTakesSlot(s, q, ids, jobId, now, missed, w);
      if w !in s.workers {
        UnknownWorkerIsFree(s, w);
      }
    }
  }

  /** Registering a worker, the only effect of a claim that finds no job. */
  lemma RegisterKeepsInv(s: State, q: ClaimRequest, now: Time, missed: bool)
    requires Inv(s)
    requires CheckClaimant(Claimant(Find(s.workers, q.workerId), q, missed, now)).None?
    ensures Inv(s.(workers := s.workers[q.workerId := Claimant(Find(s.workers, q.workerId), q, missed, now)]))
  {
    var s' := s.(workers := s.workers[q.workerId := Claimant(Find(s.workers, q.workerId), q, missed, now)]);
    if q.workerId !in s.workers {
      UnknownWorkerIsFree(s, q.workerId);
    }
    SameJobsKeepInv(s, s');
  }

  lemma ClaimKeepsInv(s: State, q: ClaimRequest, ids: ClaimIds, candidates: seq<Id>, now: Time, missed: bool)
    requires Inv(s)
    requires Enabled(s, StepClaim(q, ids, candidates, now, missed))
    ensures Inv(Claim(s, q, ids, candidates, now, missed).state)
  {
    var w := Claimant(Find(s.workers, q.workerId), q, missed, now);
    var choice := FirstFit(s.jobs, candidates, q.tags);
    if CheckClaimant(w).None? {
      if choice.None? {
        RegisterKeepsInv(s, q, now, missed);
      } else if Insertable(s, choice.value, s.jobs[choice.value].attemptCount + 1, ids, q.maxExtensions) {
        var j := choice.value;
        ClaimKeepsLeasesAgree(s, q, ids, j, now, missed);
        ClaimKeepsJobs(s, q, ids, j, now, missed);
        ClaimKeepsAttempts(s, q, ids, j, now, missed);
        ClaimKeepsLeaseRows(s, q, ids, j, now, missed);
        ClaimKeepsSlots(s, q, ids, j, now, missed);
      }
    }
  }

  // ----- the remaining transactions

  /** A change to worker rows alone keeps the invariant when the slots stay conserved. */
  lemma SameJobsKeepInv(s: State, s': State)
    requires Inv(s)
    requires s'.jobs == s.jobs && s'.attempts == s.attempts && s'.leases == s.leases
    requires s.workers.Keys <= s'.workers.Keys
    requires SlotsConserved(s')
    ensures Inv(s')
  {
    forall t | IsActive(s', t) ensures LeaseAgreesWithJob(s', t) && LeaseAgreesWithAttempt(s', t) {
      assert IsActive(s, t);
    }
    forall j | j in s'.jobs ensures JobConsistent(s', j) && HasLiveLease(s', j) == HasLiveLease(s, j) {
      assert JobConsistent(s, j);
    }
    forall a | a in s'.attempts ensures AttemptConsistent(s', a) {
      assert AttemptConsistent(s, a);
    }
    forall j, k | j in s'.jobs && 1 <= k <= s'.jobs[j].attemptCount ensures HasAttempt(s', j, k) {
      NumbersKept(s, s', j, k);
    }
    forall t | t in s'.leases ensures LeaseConsistent(s', t) {
      assert LeaseConsistent(s, t);
    }
  }

  /** A change to job rows alone keeps the invariant when claim, lease and attempt count of
      every old job stay, its status keeps its meaning for them, and new jobs start fresh. */
  lemma JobChangeKeepsInv(s: State, s': State, jobId: Id)
    requires Inv(s)
    requires s' == s.(jobs := s'.jobs) && jobId in s'.jobs && s'.jobs == s.jobs[jobId := s'.jobs[jobId]]
    requires jobId in s.jobs ==>
      && s'.jobs[jobId].claimToken == s.jobs[jobId].claimToken
      && s'.jobs[jobId].claimedBy == s.jobs[jobId].claimedBy
      && s'.jobs[jobId].attemptCount == s.jobs[jobId].attemptCount
      && !s.jobs[jobId].status.Succeeded?
      && s'.jobs[jobId].status.CancelRequested?
    requires jobId !in s.jobs ==>
      s'.jobs[jobId].claimToken.None? && s'.jobs[jobId].attemptCount == 0
    requires JobConsistent(s', jobId)
    ensures Inv(s')
  {
    forall t | IsActive(s', t) ensures LeaseAgreesWithJob(s', t) && LeaseAgreesWithAttempt(s', t) {
      assert IsActive(s, t);
      assert LeaseAgreesWithJob(s, t) && LeaseAgreesWithAttempt(s, t);
    }
    forall j | j in s'.jobs
      ensures JobConsistent(s', j) && (j in s.jobs ==> HasLiveLease(s', j) == HasLiveLease(s, j))
    {
      assert j in s.jobs ==> JobConsistent(s, j);
    }
    forall a | a in s'.attempts ensures AttemptConsistent(s', a) {
      assert AttemptConsistent(s, a);
    }
    forall j, k | j in s'.jobs && 1 <= k <= s'.jobs[j].attemptCount ensures HasAttempt(s', j, k) {
      NumbersKept(s, s', j, k);
    }
    forall t | t in s'.leases ensures LeaseConsistent(s', t) {
      assert LeaseConsistent(s, t);
    }
  }

  /** Every transaction keeps the invariant. */
  lemma StepKeepsInv(s: State, step: Step)
    requires Inv(s) && Enabled(s, step)
    ensures Inv(Next(s, step))
  {
    match step
    case StepCreate(jobId, spec) =>
      if CreateJob(s, jobId, spec).outcome.Done? {
        JobChangeKeepsInv(s, Next(s, step), jobId);
      }
    case StepClaim(query, ids, candidates, now, missed) =>
      ClaimKeepsInv(s, query, ids, candidates, now, missed);
    case StepLease(request, now) =>
      LeaseKeepsInv(s, request, now);
    case StepCancel(jobId, now) =>
      if jobId in s.jobs && !s.jobs[jobId].status.Terminal() {
        assert JobConsistent(s, jobId);
        JobChangeKeepsInv(s, Next(s, step), jobId);
      }
    case StepHealth(workerId, health, now) =>
      if workerId in s.workers {
        SameJobsKeepInv(s, Next(s, step));
      }
  }
}
