/** The transactions of the lease protocol as functions on committed states. The three
    transactions that work on an existing lease share one shape: read the lease, the job, the
    attempt and the worker in this order, check each row as it is read, then write all four. */
module LeaseProtocol {
  import opened Options
  import opened RuntimeTables

  datatype Refusal = LeaseConflict | StateConflict | ConstraintViolation

  datatype LeaseRequest =
    | Heartbeat(jobId: Id, workerId: Id, claimToken: Id, attempt: Option<Id>,
                markRunning: bool, timeoutOverride: Option<int>)
    | Complete(jobId: Id, workerId: Id, claimToken: Id, attemptId: Id,
               runtimeMs: Option<int>, providerRuntimeMs: Option<int>, uploadMs: Option<int>)
    | Fail(jobId: Id, workerId: Id, claimToken: Id, attemptId: Id,
           nextStatus: JobStatus, attemptStatus: AttemptStatus, expireLease: bool)
  {
    /** A report ends the claim; a heartbeat keeps it. */
    predicate IsReport() {
      Complete? || Fail?
    }

    /** The attempt row the request reads, if it names one. */
    function AttemptKey(): Option<Id> {
      match this
      case Heartbeat(_, _, _, attempt, _, _) => if Given(attempt) then attempt else None
      case _ => Some(attemptId)
    }
  }

  // ----- checks, in the order in which the rows are read

  function CheckLease(r: LeaseRequest, now: Time, lease: Option<Lease>): Option<Refusal> {
    if lease.None? then
      Some(LeaseConflict)
    else if lease.value.jobId != r.jobId || lease.value.workerId != r.workerId then
      Some(LeaseConflict)
    else if r.Heartbeat? then
      if Given(r.attempt) && Given(lease.value.attemptId) && lease.value.attemptId != r.attempt then
        Some(LeaseConflict)
      else if lease.value.expiresAt <= now then
        Some(LeaseConflict)
      else
        None
    else if lease.value.attemptId != Some(r.attemptId) then
      Some(LeaseConflict)
    else
      None
  }

  function CheckJob(r: LeaseRequest, lease: Lease, job: Option<Job>): Option<Refusal> {
    if job.None? then
      Some(StateConflict)
    else if job.value.claimToken != Some(r.claimToken) || job.value.claimedBy != Some(r.workerId) then
      Some(LeaseConflict)
    else if job.value.status.Terminal() then
      Some(StateConflict)
    else if r.Heartbeat? && lease.extensionCount >= lease.maxExtensions then
      Some(LeaseConflict)
    else if r.Heartbeat? && r.markRunning && !job.value.status.Claimed? && !job.value.status.Running? then
      Some(StateConflict)
    else
      None
  }

  predicate NonNegative(ms: Option<int>) {
    ms.Some? ==> ms.value >= 0
  }

  /** What the request itself must meet: no negative metric, and a failure outcome the job may take. */
  predicate Permitted(r: LeaseRequest) {
    match r
    case Heartbeat(_, _, _, _, _, _) => true
    case Complete(_, _, _, _, runtimeMs, providerRuntimeMs, uploadMs) =>
      NonNegative(runtimeMs) && NonNegative(providerRuntimeMs) && NonNegative(uploadMs)
    case Fail(_, _, _, _, nextStatus, _, _) => nextStatus.FailureOutcome()
  }

  function CheckAttempt(r: LeaseRequest, attempt: Option<Attempt>): Option<Refusal> {
    if r.Heartbeat? then
      if r.AttemptKey().None? then
        None
      else if attempt.None? then
        Some(if r.markRunning then StateConflict else LeaseConflict)
      else if attempt.value.claimToken != r.claimToken || attempt.value.workerId != r.workerId then
        Some(LeaseConflict)
      else if r.markRunning && !attempt.value.status.Claimed? && !attempt.value.status.Started? then
        Some(StateConflict)
      else
        None
    else if attempt.None? then
      Some(StateConflict)
    else if attempt.value.jobId != r.jobId
         || attempt.value.claimToken != r.claimToken
         || attempt.value.workerId != r.workerId then
      Some(LeaseConflict)
    else if !attempt.value.status.InProgress() then
      Some(StateConflict)
    else if !Permitted(r) then
      Some(if r.Complete? then ConstraintViolation else StateConflict)
    else
      None
  }

  function CheckWorker(worker: Option<Worker>): Option<Refusal> {
    if worker.None? then Some(StateConflict) else None
  }

  /** The rows a request reads. */
  datatype Rows = Rows(lease: Option<Lease>, job: Option<Job>, attempt: Option<Attempt>, worker: Option<Worker>)

  function ReadAttempt(s: State, r: LeaseRequest): Option<Attempt> {
    if r.AttemptKey().Some? then Find(s.attempts, r.AttemptKey().value) else None
  }

  function ReadRows(s: State, r: LeaseRequest): Rows {
    Rows(FindActiveLease(s, r.claimToken), Find(s.jobs, r.jobId), ReadAttempt(s, r), Find(s.workers, r.workerId))
  }

  /** The first check that fails, if any. */
  function Check(r: LeaseRequest, now: Time, rows: Rows): Option<Refusal> {
    if CheckLease(r, now, rows.lease).Some? then CheckLease(r, now, rows.lease)
    else if CheckJob(r, rows.lease.value, rows.job).Some? then CheckJob(r, rows.lease.value, rows.job)
    else if CheckAttempt(r, rows.attempt).Some? then CheckAttempt(r, rows.attempt)
    else CheckWorker(rows.worker)
  }

  // ----- the rows an accepted request writes

  function NewLease(r: LeaseRequest, now: Time, lease: Lease, job: Job): Lease {
    match r
    case Heartbeat(_, _, _, _, _, timeoutOverride) =>
      lease.(expiresAt := now + TimeoutMicros(timeoutOverride, job.leaseTimeoutSeconds),
             lastHeartbeatAt := Some(now),
             heartbeatCount := lease.heartbeatCount + 1,
             extensionCount := lease.extensionCount + 1)
    case Complete(_, _, _, _, _, _, _) =>
      lease.(status := LeaseStatus.Released, lastHeartbeatAt := Some(now))
    case Fail(_, _, _, _, _, _, expireLease) =>
      if expireLease then lease.(status := LeaseStatus.Expired, expiresAt := now)
      else lease.(status := LeaseStatus.Released, lastHeartbeatAt := Some(now))
  }

  function NewJob(r: LeaseRequest, now: Time, job: Job): Job {
    match r
    case Heartbeat(_, _, _, _, markRunning, _) =>
      if markRunning then job.(status := JobStatus.Running, startedAt := KeepFirst(job.startedAt, now)) else job
    case Complete(_, _, _, _, _, _, _) =>
      job.(status := JobStatus.Succeeded, finishedAt := Some(now), leaseExpiresAt := None)
    case Fail(_, _, _, _, nextStatus, _, _) =>
      if nextStatus.Failed? then job.(status := nextStatus, finishedAt := Some(now), leaseExpiresAt := None)
      else job.(status := nextStatus)
  }

  function KeepMetric(reported: Option<int>, stored: Option<int>): Option<int> {
    if reported.Some? then reported else stored
  }

  function NewAttempt(r: LeaseRequest, now: Time, attempt: Attempt): Attempt {
    match r
    case Heartbeat(_, _, _, _, markRunning, _) =>
      if markRunning
      then attempt.(status := AttemptStatus.Started, startedAt := KeepFirst(attempt.startedAt, now))
      else attempt
    case Complete(_, _, _, _, runtimeMs, providerRuntimeMs, uploadMs) =>
      attempt.(status := AttemptStatus.Completed,
               finishedAt := Some(now),
               runtimeMs := KeepMetric(runtimeMs, attempt.runtimeMs),
               providerRuntimeMs := KeepMetric(providerRuntimeMs, attempt.providerRuntimeMs),
               uploadMs := KeepMetric(uploadMs, attempt.uploadMs))
    case Fail(_, _, _, _, _, attemptStatus, _) =>
      var ended :=
        if attemptStatus.TimedOut? || attemptStatus.Stale? then attemptStatus else AttemptStatus.Failed;
      attempt.(status := ended, finishedAt := Some(now))
  }

  function Max(a: int, b: int): int {
    if a < b then b else a
  }

  function NewWorker(r: LeaseRequest, now: Time, worker: Worker): Worker {
    if r.IsReport()
    then worker.(currentJobCount := Max(0, worker.currentJobCount - 1), lastSeenAt := now)
    else worker.(lastSeenAt := now)
  }

  function Write(s: State, r: LeaseRequest, now: Time, rows: Rows): State
    requires Check(r, now, rows).None?
  {
    State(s.jobs[r.jobId := NewJob(r, now, rows.job.value)],
          if r.AttemptKey().Some?
          then s.attempts[r.AttemptKey().value := NewAttempt(r, now, rows.attempt.value)] else s.attempts,
          s.leases[r.claimToken := NewLease(r, now, rows.lease.value, rows.job.value)],
          s.workers[r.workerId := NewWorker(r, now, rows.worker.value)])
  }

  datatype Outcome = Done | NothingToClaim | JobClaimed(jobId: Id) | Refused(why: Refusal)

  datatype Result = Result(state: State, outcome: Outcome)

  function UseLease(s: State, r: LeaseRequest, now: Time): Result {
    var rows := ReadRows(s, r);
    var refusal := Check(r, now, rows);
    if refusal.Some? then Result(s, Refused(refusal.value)) else Result(Write(s, r, now, rows), Done)
  }

  /** What an accepted heartbeat answers. */
  datatype HeartbeatReport = HeartbeatReport(
    jobStatus: JobStatus, leaseId: Id, leaseStatus: LeaseStatus, attemptStatus: Option<AttemptStatus>,
    heartbeatCount: int, extensionCount: int, expiresAt: Time)

  /** The answer, in terms of the rows after the heartbeat. A heartbeat that marks the job running but
      names no attempt is told that the attempt has started. */
  function Reported(s: State, r: LeaseRequest): HeartbeatReport
    requires r.Heartbeat? && r.claimToken in s.leases && r.jobId in s.jobs
    requires r.AttemptKey().Some? ==> r.AttemptKey().value in s.attempts
  {
    var lease := s.leases[r.claimToken];
    HeartbeatReport(
      s.jobs[r.jobId].status, lease.leaseId, lease.status,
      if r.AttemptKey().Some? then Some(s.attempts[r.AttemptKey().value].status)
      else if r.markRunning then Some(AttemptStatus.Started)
      else None,
      lease.heartbeatCount, lease.extensionCount, lease.expiresAt)
  }

  // ----- claiming a job

  datatype ClaimRequest = ClaimRequest(
    workerId: Id,
    tags: seq<string>,
    queueName: Option<string>,
    routingKey: Option<string>,
    maxConcurrency: int,
    timeoutOverride: Option<int>,
    maxExtensions: int)

  /** The identifiers generated for one claim. */
  datatype ClaimIds = ClaimIds(token: Id, attemptId: Id, leaseId: Id)

  predicate Eligible(job: Job, q: ClaimRequest) {
    && job.status.Claimable()
    && job.cancelRequestedAt.None?
    && (Given(q.queueName) ==> job.queueName == q.queueName.value)
    && (Given(q.routingKey) ==> job.routingKey == q.routingKey)
  }

  predicate Fits(job: Job, tags: seq<string>) {
    tags == [] || forall tag | tag in job.requiredTags :: tag in tags
  }

  /** The first candidate whose required tags the worker has. */
  function FirstFit(jobs: map<Id, Job>, candidates: seq<Id>, tags: seq<string>): (choice: Option<Id>)
    requires forall j | j in candidates :: j in jobs
    ensures choice.Some? ==> choice.value in candidates && Fits(jobs[choice.value], tags)
    ensures choice.None? ==> forall j | j in candidates :: !Fits(jobs[j], tags)
  {
    if candidates == [] then None
    else if Fits(jobs[candidates[0]], tags) then Some(candidates[0])
    else FirstFit(jobs, candidates[1..], tags)
  }

  /** The registration of a worker with a given health status. */
  function Registered(existing: Option<Worker>, q: ClaimRequest, health: Health, now: Time): Worker {
    if existing.None? then
      Worker(q.tags, health, 0, q.maxConcurrency, now, None, None)
    else
      existing.value.(tags := q.tags, health := health, maxConcurrency := q.maxConcurrency, lastSeenAt := now,
                      drainingAt := if health.Draining? then existing.value.drainingAt else None,
                      offlineAt := if health.Offline? then existing.value.offlineAt else None)
  }

  /** The registration a claim makes. It reads the worker twice: the first read chooses the health status,
      the second finds the row that is written. A claim whose first read missed the row that the second
      one found takes the worker for a new one and chooses HEALTHY. */
  function Claimant(existing: Option<Worker>, q: ClaimRequest, missed: bool, now: Time): Worker {
    Registered(existing, q, if missed || existing.None? then Healthy else existing.value.health, now)
  }

  function CheckClaimant(w: Worker): Option<Refusal> {
    if w.maxConcurrency < 1 then Some(ConstraintViolation)
    else if w.health.Draining? || w.health.Offline? then Some(StateConflict)
    else if w.currentJobCount >= w.maxConcurrency then Some(StateConflict)
    else None
  }

  /** The unique and check constraints on the attempt and the lease a claim inserts. */
  predicate Insertable(s: State, jobId: Id, index: int, ids: ClaimIds, maxExtensions: int) {
    && ids.attemptId !in s.attempts
    && (forall a | a in s.attempts :: !(s.attempts[a].jobId == jobId && s.attempts[a].index == index))
    && ids.token !in s.leases
    && (forall t | t in s.leases :: s.leases[t].leaseId != ids.leaseId)
    && maxExtensions >= 0
    && index >= 1
  }

  function ClaimedJob(job: Job, q: ClaimRequest, ids: ClaimIds, now: Time): Job {
    job.(status := JobStatus.Claimed,
         claimedBy := Some(q.workerId),
         claimToken := Some(ids.token),
         claimedAt := Some(now),
         leaseExpiresAt := Some(now + TimeoutMicros(q.timeoutOverride, job.leaseTimeoutSeconds)),
         attemptCount := job.attemptCount + 1)
  }

  function ClaimedAttempt(jobId: Id, job: Job, q: ClaimRequest, ids: ClaimIds): Attempt {
    Attempt(jobId, job.attemptCount + 1,
            if job.attemptCount + 1 <= 1 then Primary else Retry,
            AttemptStatus.Claimed, q.workerId, ids.token, None, None, None, None, None)
  }

  function ClaimedLease(jobId: Id, job: Job, q: ClaimRequest, ids: ClaimIds, now: Time): Lease {
    Lease(ids.leaseId, jobId, Some(ids.attemptId), q.workerId, LeaseStatus.Active, now,
          now + TimeoutMicros(q.timeoutOverride, job.leaseTimeoutSeconds), None, 0, 0, q.maxExtensions)
  }

  /** The claim of a fixed job by a worker whose registration row is w. */
  function ClaimChosen(s: State, q: ClaimRequest, ids: ClaimIds, w: Worker, jobId: Id, now: Time): Result
    requires jobId in s.jobs
  {
    var job := s.jobs[jobId];
    if !Insertable(s, jobId, job.attemptCount + 1, ids, q.maxExtensions) then
      Result(s, Refused(ConstraintViolation))
    else
      Result(
        State(s.jobs[jobId := ClaimedJob(job, q, ids, now)],
              s.attempts[ids.attemptId := ClaimedAttempt(jobId, job, q, ids)],
              s.leases[ids.token := ClaimedLease(jobId, job, q, ids, now)],
              s.workers[q.workerId := w.(currentJobCount := w.currentJobCount + 1)]),
        JobClaimed(jobId))
  }

  /** A claim, given the candidate rows the database answered with and whether its first read of the worker
      missed the row. */
  function Claim(s: State, q: ClaimRequest, ids: ClaimIds, candidates: seq<Id>, now: Time, missed: bool): Result
    requires forall j | j in candidates :: j in s.jobs
  {
    var w := Claimant(Find(s.workers, q.workerId), q, missed, now);
    if CheckClaimant(w).Some? then
      Result(s, Refused(CheckClaimant(w).value))
    else
      var choice := FirstFit(s.jobs, candidates, q.tags);
      if choice.None? then
        Result(s.(workers := s.workers[q.workerId := w]), NothingToClaim)
      else
        ClaimChosen(s, q, ids, w, choice.value, now)
  }

  // ----- the remaining transactions

  datatype JobSpec = JobSpec(
    queued: bool,
    priority: int,
    createdAt: Time,
    queueName: string,
    routingKey: Option<string>,
    requiredTags: seq<string>,
    leaseTimeoutSeconds: int)

  function CreateJob(s: State, jobId: Id, spec: JobSpec): Result {
    if jobId in s.jobs || spec.priority < 0 || spec.leaseTimeoutSeconds < 1 then
      Result(s, Refused(ConstraintViolation))
    else
      Result(
        s.(jobs := s.jobs[jobId :=
          Job(if spec.queued then JobStatus.Queued else JobStatus.Created,
              spec.priority, spec.createdAt, spec.queueName, spec.routingKey, spec.requiredTags,
              None, None, 0, spec.leaseTimeoutSeconds, None, None, None, None, None)]),
        Done)
  }

  function RequestCancel(s: State, jobId: Id, now: Time): Result {
    if jobId !in s.jobs then Result(s, Refused(StateConflict))
    else if s.jobs[jobId].status.Terminal() then Result(s, Done)
    else
      Result(
        s.(jobs := s.jobs[jobId :=
          s.jobs[jobId].(status := JobStatus.CancelRequested, cancelRequestedAt := Some(now))]),
        Done)
  }

  function SetHealth(s: State, workerId: Id, health: Health, now: Time): Result {
    if workerId !in s.workers then Result(s, Refused(StateConflict))
    else
      var w := s.workers[workerId];
      Result(
        s.(workers := s.workers[workerId :=
          w.(health := health,
             lastSeenAt := now,
             drainingAt := if health.Draining? then Some(now) else w.drainingAt,
             offlineAt := if health.Offline? then Some(now) else w.offlineAt)]),
        Done)
  }

  /** One transaction. */
  datatype Step =
    | StepCreate(jobId: Id, spec: JobSpec)
    | StepClaim(query: ClaimRequest, ids: ClaimIds, candidates: seq<Id>, now: Time, missed: bool)
    | StepLease(request: LeaseRequest, now: Time)
    | StepCancel(jobId: Id, now: Time)
    | StepHealth(workerId: Id, health: Health, now: Time)

  /** What the environment guarantees about a step: the candidate rows of a claim meet the
      claim's WHERE clause, and a generated attempt id is not empty. */
  predicate Enabled(s: State, step: Step) {
    step.StepClaim? ==>
      && (forall j | j in step.candidates :: j in s.jobs && Eligible(s.jobs[j], step.query))
      && step.ids.attemptId != ""
  }

  function Perform(s: State, step: Step): Result
    requires Enabled(s, step)
  {
    match step
    case StepCreate(jobId, spec) => CreateJob(s, jobId, spec)
    case StepClaim(query, ids, candidates, now, missed) => Claim(s, query, ids, candidates, now, missed)
    case StepLease(request, now) => UseLease(s, request, now)
    case StepCancel(jobId, now) => RequestCancel(s, jobId, now)
    case StepHealth(workerId, health, now) => SetHealth(s, workerId, health, now)
  }

  function Next(s: State, step: Step): State
    requires Enabled(s, step)
  {
    Perform(s, step).state
  }
}
