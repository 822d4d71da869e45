/** The same transactions, interleaved. Each one locks and reads its rows one at a time, keeps what
    it read, decides and writes from these copies, and holds every lock until it commits or rolls
    back. A blocking lock request waits while another open transaction holds the row; it reads the
    committed row when it is granted. A request whose row does not meet its WHERE clause returns
    nothing at once. The claim query skips rows that others have locked. */
module LockProtocol {
  import opened Options
  import opened RuntimeTables
  import opened LeaseProtocol
  import opened LeaseInvariant
  import opened LeaseSteps
  import opened LeaseRuns
  import opened ClaimSelection

  type TxId = nat

  datatype Row = LeaseRow(token: Id) | JobRow(jobId: Id) | AttemptRow(attemptId: Id) | WorkerRow(workerId: Id)
  {
    /** The place of the row's table in the lock order. */
    function Level(): nat {
      match this
      case LeaseRow(_) => 0
      case JobRow(_) => 1
      case AttemptRow(_) => 2
      case WorkerRow(_) => 3
    }
  }

  /** An open transaction: how far it got, and the rows it has read.
      A lease transaction reads lease, job, attempt and worker (stages 0 to 3) and then commits.
      A claim reads its worker (0) and, if there was none, reads it again (1) and inserts it (2); then it
      selects candidates (3) and commits (4). It missed its worker when the second read finds the row that
      the first did not. */
  datatype Tx =
    | LeaseTx(request: LeaseRequest, now: Time, stage: nat, rows: Rows)
    | ClaimTx(query: ClaimRequest, ids: ClaimIds, now: Time, phase: nat, missed: bool,
              existing: Option<Worker>, candidates: seq<Id>, read: map<Id, Job>)
    | CancelTx(jobId: Id, now: Time, job: Option<Job>)
    | HealthTx(workerId: Id, health: Health, now: Time, worker: Option<Worker>)

  function Held(tx: Tx): set<Row> {
    match tx
    case LeaseTx(r, _, stage, _) =>
      (if stage >= 1 then {LeaseRow(r.claimToken)} else {})
      + (if stage >= 2 then {JobRow(r.jobId)} else {})
      + (if stage >= 3 && r.AttemptKey().Some? then {AttemptRow(r.AttemptKey().value)} else {})
      + (if stage >= 4 then {WorkerRow(r.workerId)} else {})
    case ClaimTx(q, _, _, phase, _, _, candidates, _) =>
      (if phase >= 3 then {WorkerRow(q.workerId)} else {}) + (set j | j in candidates :: JobRow(j))
    case CancelTx(jobId, _, job) => if job.Some? then {JobRow(jobId)} else {}
    case HealthTx(workerId, _, _, worker) => if worker.Some? then {WorkerRow(workerId)} else {}
  }

  /** The committed database, the open transactions and the transactions committed so far. */
  datatype Config = Config(db: State, open: map<TxId, Tx>, log: seq<Step>)

  const START := Config(EMPTY, map[], [])

  /** The row a transaction has to lock next and waits for when somebody else holds it. */
  function Wants(db: State, tx: Tx): Option<Row> {
    match tx
    case LeaseTx(r, _, stage, _) =>
      if stage == 0 then
        if FindActiveLease(db, r.claimToken).Some? then Some(LeaseRow(r.claimToken)) else None
      else if stage == 1 then
        if r.jobId in db.jobs then Some(JobRow(r.jobId)) else None
      else if stage == 2 then
        if ReadAttempt(db, r).Some? then Some(AttemptRow(r.AttemptKey().value)) else None
      else if stage == 3 then
        if r.workerId in db.workers then Some(WorkerRow(r.workerId)) else None
      else None
    case ClaimTx(q, _, _, phase, _, _, _, _) =>
      if phase == 2 || (phase < 2 && q.workerId in db.workers) then Some(WorkerRow(q.workerId)) else None
    case CancelTx(jobId, _, job) => if job.None? && jobId in db.jobs then Some(JobRow(jobId)) else None
    case HealthTx(workerId, _, _, worker) =>
      if worker.None? && workerId in db.workers then Some(WorkerRow(workerId)) else None
  }

  predicate WaitsFor(c: Config, t: TxId, u: TxId) {
    && t in c.open && u in c.open && t != u
    && Wants(c.db, c.open[t]).Some?
    && Wants(c.db, c.open[t]).value in Held(c.open[u])
  }

  predicate Blocked(c: Config, t: TxId) {
    exists u | u in c.open :: WaitsFor(c, t, u)
  }

  // ----- moves

  datatype Event =
    | Begin(t: TxId, tx: Tx)
    | Advance(t: TxId)
    | Select(t: TxId, candidates: seq<Id>)
    | Abort(t: TxId)
    | Insert(jobId: Id, spec: JobSpec)

  predicate Fresh(tx: Tx) {
    match tx
    case LeaseTx(_, _, stage, rows) => stage == 0 && rows == Rows(None, None, None, None)
    case ClaimTx(_, ids, _, phase, missed, existing, candidates, read) =>
      phase == 0 && !missed && existing.None? && candidates == [] && read == map[] && ids.attemptId != ""
    case CancelTx(_, _, job) => job.None?
    case HealthTx(_, _, _, worker) => worker.None?
  }

  function LockedByOthers(c: Config, t: TxId): set<Id> {
    set u, r | u in c.open && u != t && r in Held(c.open[u]) && r.JobRow? :: r.jobId
  }

  /** What the claim query can answer when other transactions commit while it runs: any jobs that meet its
      WHERE clause and are free when they are locked, as many as its limit allows. A whole window is one. */
  predicate IsAnswer(jobs: map<Id, Job>, q: ClaimRequest, locked: set<Id>, answer: seq<Id>) {
    && |answer| <= CANDIDATE_WINDOW
    && (forall i, k | 0 <= i < k < |answer| :: answer[i] != answer[k])
    && forall j | j in answer :: Visible(jobs, q, locked, j)
  }

  predicate Can(c: Config, e: Event) {
    match e
    case Begin(t, tx) => t !in c.open && Fresh(tx)
    case Advance(t) => t in c.open && !Blocked(c, t) && !(c.open[t].ClaimTx? && c.open[t].phase == 3)
    case Select(t, candidates) =>
      && t in c.open && c.open[t].ClaimTx? && c.open[t].phase == 3
      && IsAnswer(c.db.jobs, c.open[t].query, LockedByOthers(c, t), candidates)
    case Abort(t) => t in c.open
    case Insert(_, _) => true
  }

  function Close(c: Config, t: TxId): Config {
    c.(open := c.open - {t})
  }

  function Keep(c: Config, t: TxId, tx: Tx): Config {
    c.(open := c.open[t := tx])
  }

  function Commit(c: Config, t: TxId, db: State, step: Step): Config {
    Config(db, c.open - {t}, c.log + [step])
  }

  /** The check a lease transaction makes on the row it reads next. */
  function StageCheck(db: State, tx: Tx): Option<Refusal>
    requires tx.LeaseTx? && tx.stage < 4 && (tx.stage == 1 ==> tx.rows.lease.Some?)
  {
    var r := tx.request;
    if tx.stage == 0 then CheckLease(r, tx.now, FindActiveLease(db, r.claimToken))
    else if tx.stage == 1 then CheckJob(r, tx.rows.lease.value, Find(db.jobs, r.jobId))
    else if tx.stage == 2 then CheckAttempt(r, ReadAttempt(db, r))
    else CheckWorker(Find(db.workers, r.workerId))
  }

  function ReadNext(db: State, tx: Tx): Tx
    requires tx.LeaseTx?
  {
    var r := tx.request;
    var rows :=
      if tx.stage == 0 then tx.rows.(lease := FindActiveLease(db, r.claimToken))
      else if tx.stage == 1 then tx.rows.(job := Find(db.jobs, r.jobId))
      else if tx.stage == 2 then tx.rows.(attempt := ReadAttempt(db, r))
      else tx.rows.(worker := Find(db.workers, r.workerId));
    tx.(stage := tx.stage + 1, rows := rows)
  }

  /** The database as a claim sees it through the rows it read. */
  function ClaimView(db: State, tx: Tx): State
    requires tx.ClaimTx?
  {
    db.(jobs := db.jobs + tx.read,
        workers := if tx.existing.Some? then db.workers[tx.query.workerId := tx.existing.value]
                   else db.workers - {tx.query.workerId})
  }

  function AdvanceLease(c: Config, t: TxId): Config
    requires t in c.open && c.open[t].LeaseTx? && TxOk(c.db, c.open[t])
  {
    var tx := c.open[t];
    if tx.stage < 4 then
      if StageCheck(c.db, tx).Some? then Close(c, t) else Keep(c, t, ReadNext(c.db, tx))
    else
      Commit(c, t, Write(c.db, tx.request, tx.now, tx.rows), StepLease(tx.request, tx.now))
  }

  /** The claim holds its worker, as found or about to be inserted, and checks it. */
  function TakeWorker(c: Config, t: TxId, missed: bool): Config
    requires t in c.open && c.open[t].ClaimTx?
  {
    var tx, found := c.open[t], Find(c.db.workers, c.open[t].query.workerId);
    if CheckClaimant(Claimant(found, tx.query, missed, tx.now)).Some? then Close(c, t)
    else Keep(c, t, tx.(phase := 3, missed := missed, existing := found))
  }

  /** A second insert of the same worker violates the unique key. */
  function AdvanceClaim(c: Config, t: TxId): Config
    requires t in c.open && c.open[t].ClaimTx? && c.open[t].phase != 3 && TxOk(c.db, c.open[t])
  {
    var tx := c.open[t];
    var found := tx.query.workerId in c.db.workers;
    if tx.phase == 0 then
      if found then TakeWorker(c, t, false) else Keep(c, t, tx.(phase := 1))
    else if tx.phase == 1 then
      if found then TakeWorker(c, t, true) else Keep(c, t, tx.(phase := 2))
    else if tx.phase == 2 then
      if found then Close(c, t) else TakeWorker(c, t, false)
    else
      Commit(c, t, Claim(ClaimView(c.db, tx), tx.query, tx.ids, tx.candidates, tx.now, tx.missed).state,
             ClaimStep(tx))
  }

  function ClaimStep(tx: Tx): Step
    requires tx.ClaimTx?
  {
    StepClaim(tx.query, tx.ids, tx.candidates, tx.now, tx.missed)
  }

  function AdvanceOther(c: Config, t: TxId): Config
    requires t in c.open && (c.open[t].CancelTx? || c.open[t].HealthTx?) && TxOk(c.db, c.open[t])
  {
    match c.open[t]
    case CancelTx(jobId, now, job) =>
      if job.Some? then
        Commit(c, t, RequestCancel(c.db.(jobs := c.db.jobs[jobId := job.value]), jobId, now).state,
               StepCancel(jobId, now))
      else if jobId in c.db.jobs then Keep(c, t, CancelTx(jobId, now, Some(c.db.jobs[jobId])))
      else Close(c, t)
    case HealthTx(workerId, health, now, worker) =>
      if worker.Some? then
        Commit(c, t, SetHealth(c.db.(workers := c.db.workers[workerId := worker.value]), workerId, health, now).state,
               StepHealth(workerId, health, now))
      else if workerId in c.db.workers then
        Keep(c, t, HealthTx(workerId, health, now, Some(c.db.workers[workerId])))
      else Close(c, t)
  }

  ghost function Fire(c: Config, e: Event): Config
    requires AllOk(c) && Can(c, e)
  {
    match e
    case Begin(t, tx) => Keep(c, t, tx)
    case Advance(t) =>
      if c.open[t].LeaseTx? then AdvanceLease(c, t)
      else if c.open[t].ClaimTx? then AdvanceClaim(c, t)
      else AdvanceOther(c, t)
    case Select(t, candidates) =>
      Keep(c, t, c.open[t].(phase := 4, candidates := candidates,
                            read := map j | j in candidates && j in c.db.jobs :: c.db.jobs[j]))
    case Abort(t) => Close(c, t)
    case Insert(jobId, spec) =>
      Config(CreateJob(c.db, jobId, spec).state, c.open, c.log + [StepCreate(jobId, spec)])
  }

  // ----- what holds between moves

  /** What a transaction has read is still what is committed, and passed its checks. */
  predicate TxOk(db: State, tx: Tx) {
    match tx
    case LeaseTx(r, now, stage, rows) =>
      && stage <= 4
      && (stage >= 1 ==> rows.lease == FindActiveLease(db, r.claimToken) && CheckLease(r, now, rows.lease).None?)
      && (stage >= 2 ==> rows.job == Find(db.jobs, r.jobId) && CheckJob(r, rows.lease.value, rows.job).None?)
      && (stage >= 3 ==> rows.attempt == ReadAttempt(db, r) && CheckAttempt(r, rows.attempt).None?)
      && (stage >= 4 ==> rows.worker == Find(db.workers, r.workerId) && CheckWorker(rows.worker).None?)
    case ClaimTx(q, ids, now, phase, missed, existing, candidates, read) =>
      && phase <= 4
      && ids.attemptId != ""
      && (phase < 3 ==> !missed)
      && (phase >= 3 ==>
            && existing == Find(db.workers, q.workerId)
            && CheckClaimant(Claimant(existing, q, missed, now)).None?
            && (missed ==> existing.Some?))
      && (phase < 4 ==> candidates == [])
      && (forall j | j in candidates :: j in db.jobs && Eligible(db.jobs[j], q) && j in read)
      && (forall j | j in read :: j in candidates && j in db.jobs && read[j] == db.jobs[j])
    case CancelTx(jobId, _, job) => job.Some? ==> job == Find(db.jobs, jobId)
    case HealthTx(workerId, _, _, worker) => worker.Some? ==> worker == Find(db.workers, workerId)
  }

  predicate AllOk(c: Config) {
    forall t | t in c.open :: TxOk(c.db, c.open[t])
  }

  /** No two open transactions hold the same row. */
  predicate Exclusive(c: Config) {
    forall t, u | t in c.open && u in c.open && t != u :: Held(c.open[t]) !! Held(c.open[u])
  }

  ghost predicate Logged(c: Config) {
    IsRun(EMPTY, c.log) && After(EMPTY, c.log) == c.db
  }

  ghost predicate Sound(c: Config) {
    AllOk(c) && Exclusive(c) && Logged(c)
  }

  // ----- a move leaves the rows of the other transactions alone

  predicate SameRow(db: State, db': State, r: Row) {
    match r
    case LeaseRow(t) => t in db.leases ==> Find(db'.leases, t) == Find(db.leases, t)
    case JobRow(j) => j in db.jobs ==> Find(db'.jobs, j) == Find(db.jobs, j)
    case AttemptRow(a) => a in db.attempts ==> Find(db'.attempts, a) == Find(db.attempts, a)
    case WorkerRow(w) => Find(db'.workers, w) == Find(db.workers, w)
  }

  lemma OtherStaysOk(db: State, db': State, tx: Tx)
    requires TxOk(db, tx) && forall r | r in Held(tx) :: SameRow(db, db', r)
    ensures TxOk(db', tx)
  {
    match tx
    case LeaseTx(r, _, stage, _) =>
      if stage >= 1 { assert SameRow(db, db', LeaseRow(r.claimToken)); }
      if stage >= 2 { assert SameRow(db, db', JobRow(r.jobId)); }
      if stage >= 3 && r.AttemptKey().Some? { assert SameRow(db, db', AttemptRow(r.AttemptKey().value)); }
      if stage >= 4 { assert SameRow(db, db', WorkerRow(r.workerId)); }
    case ClaimTx(q, _, _, phase, _, _, candidates, _) =>
      if phase >= 3 { assert SameRow(db, db', WorkerRow(q.workerId)); }
      forall j | j in candidates ensures j in db'.jobs && db'.jobs[j] == db.jobs[j] {
        assert SameRow(db, db', JobRow(j));
      }
    case CancelTx(jobId, _, job) =>
      if job.Some? { assert SameRow(db, db', JobRow(jobId)); }
    case HealthTx(workerId, _, _, worker) =>
      if worker.Some? { assert SameRow(db, db', WorkerRow(workerId)); }
  }

  /** Deciding and writing from the copies is deciding and writing from the committed rows. */
  lemma LeaseCommitsStep(db: State, tx: Tx)
    requires tx.LeaseTx? && tx.stage == 4 && TxOk(db, tx)
    ensures Accepts(db, tx.request, tx.now)
    ensures Write(db, tx.request, tx.now, tx.rows) == Next(db, StepLease(tx.request, tx.now))
  {
  }

  lemma LeaseWritesHeld(db: State, tx: Tx, r: Row)
    requires tx.LeaseTx? && tx.stage == 4 && TxOk(db, tx) && r !in Held(tx)
    ensures SameRow(db, Write(db, tx.request, tx.now, tx.rows), r)
  {
  }

  lemma ClaimCommitsStep(db: State, tx: Tx)
    requires tx.ClaimTx? && tx.phase == 4 && TxOk(db, tx)
    ensures ClaimView(db, tx) == db
    ensures Enabled(db, ClaimStep(tx))
  {
  }

  lemma ClaimWritesHeld(db: State, tx: Tx, r: Row)
    requires tx.ClaimTx? && tx.phase == 4 && TxOk(db, tx) && r !in Held(tx)
    ensures SameRow(db, Claim(db, tx.query, tx.ids, tx.candidates, tx.now, tx.missed).state, r)
  {
    assert WorkerRow(tx.query.workerId) in Held(tx);
    var choice := FirstFit(db.jobs, tx.candidates, tx.query.tags);
    if choice.Some? {
      assert JobRow(choice.value) in Held(tx);
    }
  }

  predicate ReadyOther(tx: Tx) {
    (tx.CancelTx? && tx.job.Some?) || (tx.HealthTx? && tx.worker.Some?)
  }

  function OtherStep(tx: Tx): Step
    requires ReadyOther(tx)
  {
    if tx.CancelTx? then StepCancel(tx.jobId, tx.now) else StepHealth(tx.workerId, tx.health, tx.now)
  }

  lemma OtherCommitsStep(c: Config, t: TxId)
    requires t in c.open && ReadyOther(c.open[t]) && TxOk(c.db, c.open[t])
    ensures AdvanceOther(c, t) == Commit(c, t, Next(c.db, OtherStep(c.open[t])), OtherStep(c.open[t]))
  {
    match c.open[t]
    case CancelTx(jobId, now, job) =>
      assert c.db.jobs[jobId := job.value] == c.db.jobs;
    case HealthTx(workerId, health, now, worker) =>
      assert c.db.workers[workerId := worker.value] == c.db.workers;
  }

  // ----- every move keeps the configuration sound

  lemma KeepSound(c: Config, t: TxId, tx: Tx)
    requires Sound(c) && TxOk(c.db, tx)
    requires forall u | u in c.open && u != t :: Held(tx) !! Held(c.open[u])
    ensures Sound(Keep(c, t, tx))
  {
  }

  lemma CommitSound(c: Config, t: TxId, db: State, step: Step)
    requires Sound(c) && t in c.open
    requires Enabled(c.db, step) && db == Next(c.db, step)
    requires forall r | r !in Held(c.open[t]) :: SameRow(c.db, db, r)
    ensures Sound(Commit(c, t, db, step))
  {
    ExtendRun(EMPTY, c.log, step);
    forall u | u in c.open && u != t ensures TxOk(db, c.open[u]) {
      OtherStaysOk(c.db, db, c.open[u]);
    }
  }

  /** Reading the next row adds at most the wanted row to the held ones. */
  lemma ReadNextHolds(db: State, tx: Tx)
    requires tx.LeaseTx? && tx.stage < 4 && TxOk(db, tx) && StageCheck(db, tx).None?
    ensures TxOk(db, ReadNext(db, tx))
    ensures forall r | r in Held(ReadNext(db, tx)) :: r in Held(tx) || Wants(db, tx) == Some(r)
  {
  }

  lemma GrownHeldIsFree(c: Config, t: TxId, tx: Tx)
    requires Exclusive(c) && t in c.open && !Blocked(c, t)
    requires forall r | r in Held(tx) :: r in Held(c.open[t]) || Wants(c.db, c.open[t]) == Some(r)
    ensures forall u | u in c.open && u != t :: Held(tx) !! Held(c.open[u])
  {
  }

  lemma CommitLeaseSound(c: Config, t: TxId)
    requires Sound(c) && t in c.open && c.open[t].LeaseTx? && c.open[t].stage == 4
    ensures Sound(AdvanceLease(c, t))
  {
    var tx := c.open[t];
    var db := Write(c.db, tx.request, tx.now, tx.rows);
    LeaseCommitsStep(c.db, tx);
    forall r | r !in Held(tx) ensures SameRow(c.db, db, r) {
      LeaseWritesHeld(c.db, tx, r);
    }
    CommitSound(c, t, db, StepLease(tx.request, tx.now));
  }

  lemma AdvanceLeaseSound(c: Config, t: TxId)
    requires Sound(c) && t in c.open && c.open[t].LeaseTx? && !Blocked(c, t)
    ensures Sound(AdvanceLease(c, t))
  {
    var tx := c.open[t];
    assert TxOk(c.db, tx);
    if tx.stage == 4 {
      CommitLeaseSound(c, t);
    } else if StageCheck(c.db, tx).None? {
      ReadNextHolds(c.db, tx);
      GrownHeldIsFree(c, t, ReadNext(c.db, tx));
      KeepSound(c, t, ReadNext(c.db, tx));
    }
  }

  lemma TakeWorkerSound(c: Config, t: TxId, missed: bool)
    requires Sound(c) && t in c.open && c.open[t].ClaimTx? && c.open[t].phase < 3 && !Blocked(c, t)
    requires Wants(c.db, c.open[t]) == Some(WorkerRow(c.open[t].query.workerId))
    requires missed ==> c.open[t].query.workerId in c.db.workers
    ensures Sound(TakeWorker(c, t, missed))
  {
    var tx, found := c.open[t], Find(c.db.workers, c.open[t].query.workerId);
    if CheckClaimant(Claimant(found, tx.query, missed, tx.now)).None? {
      var tx' := tx.(phase := 3, missed := missed, existing := found);
      GrownHeldIsFree(c, t, tx');
      KeepSound(c, t, tx');
    }
  }

  lemma CommitClaimSound(c: Config, t: TxId)
    requires Sound(c) && t in c.open && c.open[t].ClaimTx? && c.open[t].phase == 4
    ensures Sound(AdvanceClaim(c, t))
  {
    var tx := c.open[t];
    var step := ClaimStep(tx);
    ClaimCommitsStep(c.db, tx);
    forall r | r !in Held(tx) ensures SameRow(c.db, Next(c.db, step), r) {
      ClaimWritesHeld(c.db, tx, r);
    }
    CommitSound(c, t, Next(c.db, step), step);
  }

  lemma AdvanceClaimSound(c: Config, t: TxId)
    requires Sound(c) && t in c.open && c.open[t].ClaimTx? && c.open[t].phase != 3 && !Blocked(c, t)
    ensures Sound(AdvanceClaim(c, t))
  {
    var tx := c.open[t];
    var found := tx.query.workerId in c.db.workers;
    if tx.phase == 4 {
      CommitClaimSound(c, t);
    } else if tx.phase < 2 && !found {
      KeepSound(c, t, tx.(phase := tx.phase + 1));
    } else if tx.phase < 2 || !found {
      TakeWorkerSound(c, t, tx.phase == 1);
    }
  }

  lemma SelectSound(c: Config, t: TxId, candidates: seq<Id>)
    requires Sound(c) && Can(c, Select(t, candidates))
    ensures Sound(Fire(c, Select(t, candidates)))
  {
    var tx := Fire(c, Select(t, candidates)).open[t];
    forall u | u in c.open && u != t ensures Held(tx) !! Held(c.open[u]) {
      forall j | j in candidates ensures JobRow(j) !in Held(c.open[u]) {
        assert Visible(c.db.jobs, c.open[t].query, LockedByOthers(c, t), j);
        assert JobRow(j) in Held(c.open[u]) ==> j in LockedByOthers(c, t);
      }
    }
    assert forall j | j in candidates :: Visible(c.db.jobs, c.open[t].query, LockedByOthers(c, t), j);
    KeepSound(c, t, tx);
  }

  lemma AdvanceOtherSound(c: Config, t: TxId)
    requires Sound(c) && t in c.open && (c.open[t].CancelTx? || c.open[t].HealthTx?) && !Blocked(c, t)
    ensures Sound(AdvanceOther(c, t))
  {
    var tx, c' := c.open[t], AdvanceOther(c, t);
    if ReadyOther(tx) {
      OtherCommitsStep(c, t);
      CommitSound(c, t, Next(c.db, OtherStep(tx)), OtherStep(tx));
    } else if t in c'.open {
      GrownHeldIsFree(c, t, c'.open[t]);
      KeepSound(c, t, c'.open[t]);
    }
  }

  lemma InsertSound(c: Config, jobId: Id, spec: JobSpec)
    requires Sound(c)
    ensures Sound(Fire(c, Insert(jobId, spec)))
  {
    var db := CreateJob(c.db, jobId, spec).state;
    ExtendRun(EMPTY, c.log, StepCreate(jobId, spec));
    forall t | t in c.open ensures TxOk(db, c.open[t]) {
      OtherStaysOk(c.db, db, c.open[t]);
    }
  }

  lemma MoveKeepsSound(c: Config, e: Event)
    requires Sound(c) && Can(c, e)
    ensures Sound(Fire(c, e))
  {
    match e
    case Begin(t, tx) => KeepSound(c, t, tx);
    case Advance(t) =>
      if c.open[t].LeaseTx? { AdvanceLeaseSound(c, t); }
      else if c.open[t].ClaimTx? { AdvanceClaimSound(c, t); }
      else { AdvanceOtherSound(c, t); }
    case Select(t, candidates) => SelectSound(c, t, candidates);
    case Abort(_) =>
    case Insert(jobId, spec) => InsertSound(c, jobId, spec);
  }

  // ----- interleavings

  ghost predicate IsInterleaving(c: Config, events: seq<Event>)
    decreases |events|
  {
    AllOk(c) && (events == [] || (Can(c, events[0]) && IsInterleaving(Fire(c, events[0]), events[1..])))
  }

  ghost function Reached(c: Config, events: seq<Event>): Config
    requires IsInterleaving(c, events)
    decreases |events|
  {
    if events == [] then c else Reached(Fire(c, events[0]), events[1..])
  }

  lemma {:induction false} InterleavingKeepsSound(c: Config, events: seq<Event>)
    requires Sound(c) && IsInterleaving(c, events)
    ensures Sound(Reached(c, events))
    decreases |events|
  {
    if events != [] {
      MoveKeepsSound(c, events[0]);
      InterleavingKeepsSound(Fire(c, events[0]), events[1..]);
    }
  }

  /** No interleaving is cut off: whatever can happen next extends it. */
  lemma {:induction false} AnyEventExtends(c: Config, events: seq<Event>, e: Event)
    requires Sound(c) && IsInterleaving(c, events) && Can(Reached(c, events), e)
    ensures IsInterleaving(c, events + [e])
    ensures AllOk(Reached(c, events)) && Reached(c, events + [e]) == Fire(Reached(c, events), e)
    decreases |events|
  {
    if events == [] {
      MoveKeepsSound(c, e);
      assert events + [e] == [e] && [e][1..] == [];
    } else {
      MoveKeepsSound(c, events[0]);
      AnyEventExtends(Fire(c, events[0]), events[1..], e);
      assert (events + [e])[1..] == events[1..] + [e];
    }
  }

  /** Whatever the interleaving, the committed database is the one the committed transactions produce when
      they run one after another in commit order, each claim with the health status its first read chose. So
      it meets the cross-table invariant, and every theorem about runs applies to it. */
  lemma CommittedInOrder(events: seq<Event>)
    requires IsInterleaving(START, events)
    ensures var c := Reached(START, events);
      IsRun(EMPTY, c.log) && After(EMPTY, c.log) == c.db && Inv(c.db)
  {
    InterleavingKeepsSound(START, events);
    ReachableInv(Reached(START, events).log);
  }

  /** Claims open at the same time hold disjoint candidate windows. */
  lemma ClaimWindowsDisjoint(events: seq<Event>, t: TxId, u: TxId, jobId: Id)
    requires IsInterleaving(START, events)
    requires var open := Reached(START, events).open;
      t in open && u in open && t != u && open[t].ClaimTx? && open[u].ClaimTx? && jobId in open[t].candidates
    ensures jobId !in Reached(START, events).open[u].candidates
  {
    InterleavingKeepsSound(START, events);
    var open := Reached(START, events).open;
    assert JobRow(jobId) in Held(open[t]) && Held(open[t]) !! Held(open[u]);
  }

  /** No interleaving of claims and commits leaves two live leases on one job. */
  lemma NoTwoLiveClaims(events: seq<Event>, tokenA: Id, tokenB: Id)
    requires IsInterleaving(START, events)
    requires var db := Reached(START, events).db;
      IsActive(db, tokenA) && IsActive(db, tokenB) && db.leases[tokenA].jobId == db.leases[tokenB].jobId
    ensures tokenA == tokenB
  {
    CommittedInOrder(events);
    OneActiveLeasePerJob(Reached(START, events).db, tokenA, tokenB);
  }

  /** A lease transaction that gives up midway gives up exactly when the whole transaction, run at
      that moment in one piece, would be refused, and for the same reason. */
  lemma EarlyRefusalIsRefusal(c: Config, t: TxId)
    requires Sound(c) && t in c.open && c.open[t].LeaseTx? && c.open[t].stage < 4
    requires StageCheck(c.db, c.open[t]).Some?
    ensures AdvanceLease(c, t) == Close(c, t)
    ensures UseLease(c.db, c.open[t].request, c.open[t].now)
         == Result(c.db, Refused(StageCheck(c.db, c.open[t]).value))
  {
  }

  // ----- deadlock freedom

  /** A transaction that waits holds only rows of earlier tables than the one it waits for. */
  lemma HeldBelowWanted(db: State, tx: Tx, r: Row)
    requires TxOk(db, tx) && Wants(db, tx).Some? && r in Held(tx)
    ensures r.Level() < Wants(db, tx).value.Level()
  {
  }

  function WaitLevel(c: Config, t: TxId): int {
    if t in c.open && Wants(c.db, c.open[t]).Some? then Wants(c.db, c.open[t]).value.Level() else 4
  }

  lemma WaitRises(c: Config, t: TxId, u: TxId)
    requires AllOk(c) && WaitsFor(c, t, u)
    ensures 0 <= WaitLevel(c, t) < WaitLevel(c, u) <= 4
  {
  }

  ghost predicate IsChain(c: Config, chain: seq<TxId>) {
    forall n | 0 <= n < |chain| - 1 :: WaitsFor(c, chain[n], chain[n + 1])
  }

  /** Along a chain of waits the lock order strictly rises. */
  lemma {:induction false} ChainRises(c: Config, chain: seq<TxId>, k: nat)
    requires AllOk(c) && IsChain(c, chain) && k < |chain|
    ensures k > 0 ==> 0 <= WaitLevel(c, chain[0]) && WaitLevel(c, chain[0]) + k <= WaitLevel(c, chain[k]) <= 4
  {
    if k > 0 {
      WaitRises(c, chain[k - 1], chain[k]);
      ChainRises(c, chain, k - 1);
    }
  }

  /** The waits-for graph of every reachable configuration is acyclic, and no chain of waits passes
      through more than five transactions. */
  lemma NoDeadlock(events: seq<Event>, chain: seq<TxId>)
    requires IsInterleaving(START, events)
    requires |chain| >= 2 && IsChain(Reached(START, events), chain)
    ensures chain[0] != chain[|chain| - 1]
    ensures |chain| <= 5
  {
    InterleavingKeepsSound(START, events);
    ChainRises(Reached(START, events), chain, |chain| - 1);
  }

  /** From any open transaction the waits lead to one that is not blocked. */
  lemma {:induction false} SomebodyMoves(c: Config, t: TxId) returns (u: TxId)
    requires AllOk(c) && t in c.open
    ensures u in c.open && !Blocked(c, u)
    decreases 4 - WaitLevel(c, t)
  {
    u := t;
    if Blocked(c, t) {
      var holder :| holder in c.open && WaitsFor(c, t, holder);
      WaitRises(c, t, holder);
      u := SomebodyMoves(c, holder);
    }
  }

  // ----- every open transaction can finish

  function Remaining(tx: Tx): nat
  {
    match tx
    case LeaseTx(_, _, stage, _) => if stage <= 4 then 5 - stage else 0
    case ClaimTx(_, _, _, phase, _, _, _, _) => if phase <= 4 then 5 - phase else 0
    case CancelTx(_, _, job) => if job.Some? then 1 else 2
    case HealthTx(_, _, _, worker) => if worker.Some? then 1 else 2
  }

  ghost function Work(open: map<TxId, Tx>): nat
    decreases |open|
  {
    if open == map[] then 0
    else
      var t :| t in open;
      Remaining(open[t]) + Work(open - {t})
  }

  lemma {:induction false} WorkSplit(open: map<TxId, Tx>, t: TxId)
    requires t in open
    ensures Work(open) == Remaining(open[t]) + Work(open - {t})
    decreases |open|
  {
    var first :| first in open && Work(open) == Remaining(open[first]) + Work(open - {first});
    if first != t {
      WorkSplit(open - {first}, t);
      WorkSplit(open - {t}, first);
      assert open - {first} - {t} == open - {t} - {first};
    }
  }

  /** A move either ends the transaction or brings it closer to its end. */
  ghost predicate Nearer(c: Config, c': Config, t: TxId)
    requires t in c.open
  {
    || c'.open == c.open - {t}
    || (t in c'.open && c'.open == c.open[t := c'.open[t]] && Remaining(c'.open[t]) < Remaining(c.open[t]))
  }

  lemma NearerIsLessWork(c: Config, c': Config, t: TxId)
    requires t in c.open && Nearer(c, c', t)
    ensures Work(c'.open) < Work(c.open) || (c'.open == c.open - {t} && Remaining(c.open[t]) == 0)
  {
    WorkSplit(c.open, t);
    if t in c'.open {
      WorkSplit(c'.open, t);
      assert c'.open - {t} == c.open - {t};
    }
  }

  lemma AdvanceIsNearer(c: Config, t: TxId)
    requires AllOk(c) && Can(c, Advance(t))
    ensures Nearer(c, Fire(c, Advance(t)), t) && Remaining(c.open[t]) > 0
  {
    assert TxOk(c.db, c.open[t]);
  }

  /** The next move of an unblocked transaction. */
  lemma NextMove(c: Config, t: TxId) returns (e: Event)
    requires AllOk(c) && t in c.open && !Blocked(c, t)
    ensures Can(c, e) && (e == Advance(t) || (e.Select? && e.t == t))
    ensures Work(Fire(c, e).open) < Work(c.open)
  {
    var tx := c.open[t];
    if tx.ClaimTx? && tx.phase == 3 {
      var w := WindowExists(c.db.jobs, tx.query, LockedByOthers(c, t));
      e := Select(t, w);
    } else {
      e := Advance(t);
      AdvanceIsNearer(c, t);
    }
    NearerIsLessWork(c, Fire(c, e), t);
  }

  /** Deadlock freedom as progress: from every sound configuration the open transactions can all be
      driven to their end, none of them aborted from outside. */
  lemma {:induction false} AllCanFinish(c: Config) returns (events: seq<Event>)
    requires Sound(c)
    ensures IsInterleaving(c, events) && Reached(c, events).open == map[]
    ensures forall e | e in events :: e.Advance? || e.Select?
    decreases Work(c.open)
  {
    events := [];
    if c.open != map[] {
      var t :| t in c.open;
      var u := SomebodyMoves(c, t);
      var e := NextMove(c, u);
      MoveKeepsSound(c, e);
      var rest := AllCanFinish(Fire(c, e));
      events := [e] + rest;
      assert events[1..] == rest;
    }
  }
}
