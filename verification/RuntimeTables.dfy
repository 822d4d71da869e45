/** The four tables behind the runtime-job lease protocol. A row is a value, a table maps
    the row's unique public key to the row, and a State is one committed database state. */
module RuntimeTables {
  import opened Options

  type Id = string

  /** A timestamp in microseconds. */
  type Time = int

  const MICROS_PER_SECOND := 1_000_000

  datatype JobStatus =
    | Created | Queued | Claimed | Running | WaitingRetry | Succeeded | Failed
    | CancelRequested | Cancelled | Superseded | Stale | DeadLettered
  {
    predicate Claimable() {
      Queued? || WaitingRetry?
    }

    predicate Terminal() {
      Succeeded? || Failed? || Cancelled? || Superseded? || Stale? || DeadLettered?
    }

    /** The outcomes a worker may ask for when it reports a failure. */
    predicate FailureOutcome() {
      Failed? || WaitingRetry? || Stale?
    }
  }

  datatype AttemptType = Primary | Retry

  datatype AttemptStatus =
    | Created | Claimed | Started | ProviderRunning | ArtifactCollecting
    | Completed | Failed | TimedOut | Cancelled | Superseded | Stale
  {
    predicate InProgress() {
      Claimed? || Started? || ProviderRunning? || ArtifactCollecting?
    }

    predicate EndedInFailure() {
      Failed? || TimedOut? || Stale?
    }
  }

  datatype LeaseStatus = Active | Released | Expired | Revoked

  datatype Health = Starting | Healthy | Degraded | Draining | Offline

  datatype Job = Job(
    status: JobStatus,
    priority: int,
    createdAt: Time,
    queueName: string,
    routingKey: Option<string>,
    requiredTags: seq<string>,
    claimedBy: Option<Id>,
    claimToken: Option<Id>,
    attemptCount: int,
    leaseTimeoutSeconds: int,
    claimedAt: Option<Time>,
    startedAt: Option<Time>,
    finishedAt: Option<Time>,
    leaseExpiresAt: Option<Time>,
    cancelRequestedAt: Option<Time>)

  datatype Attempt = Attempt(
    jobId: Id,
    index: int,
    kind: AttemptType,
    status: AttemptStatus,
    workerId: Id,
    claimToken: Id,
    startedAt: Option<Time>,
    finishedAt: Option<Time>,
    runtimeMs: Option<int>,
    providerRuntimeMs: Option<int>,
    uploadMs: Option<int>)

  /** A lease row; its claim token is the key of the lease table. */
  datatype Lease = Lease(
    leaseId: Id,
    jobId: Id,
    attemptId: Option<Id>,
    workerId: Id,
    status: LeaseStatus,
    startedAt: Time,
    expiresAt: Time,
    lastHeartbeatAt: Option<Time>,
    heartbeatCount: int,
    extensionCount: int,
    maxExtensions: int)

  datatype Worker = Worker(
    tags: seq<string>,
    health: Health,
    currentJobCount: int,
    maxConcurrency: int,
    lastSeenAt: Time,
    drainingAt: Option<Time>,
    offlineAt: Option<Time>)

  datatype State = State(
    jobs: map<Id, Job>,
    attempts: map<Id, Attempt>,
    leases: map<Id, Lease>,
    workers: map<Id, Worker>)

  const EMPTY := State(map[], map[], map[], map[])

  function Find<T>(table: map<Id, T>, key: Id): Option<T> {
    if key in table then Some(table[key]) else None
  }

  /** The lookup by claim token that sees ACTIVE leases only. */
  function FindActiveLease(s: State, token: Id): Option<Lease> {
    if token in s.leases && s.leases[token].status.Active? then Some(s.leases[token]) else None
  }

  /** A requested timeout of zero, like a missing one, falls back to the job's own. */
  function TimeoutMicros(override: Option<int>, default: int): int {
    (if override.Some? && override.value != 0 then override.value else default) * MICROS_PER_SECOND
  }

  function KeepFirst(stored: Option<Time>, now: Time): Option<Time> {
    if stored.Some? then stored else Some(now)
  }
}
