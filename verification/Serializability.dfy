/** When interleaved transactions amount to the same transactions run one after another. The one thing in the
    way is a claim that missed its worker: it overwrites the health status of a row it did not see when it
    chose the status. */
module Serializability {
  import opened Options
  import opened RuntimeTables
  import opened LeaseProtocol
  import opened LeaseInvariant
  import opened LeaseRuns
  import opened ClaimSelection
  import opened LockProtocol
  import opened SequenceLaws

  /** The same transaction, run in one piece: a claim then sees its worker at once. */
  function Whole(step: Step): Step {
    if step.StepClaim? then step.(missed := false) else step
  }

  function WholeLog(steps: seq<Step>): (whole: seq<Step>)
    ensures |whole| == |steps|
    ensures forall i | 0 <= i < |steps| :: whole[i] == Whole(steps[i])
  {
    Map(Whole, steps)
  }

  /** A claim that missed its worker and is not refused found it healthy, or not at all. */
  predicate FoundHealthy(s: State, step: Step)
    requires Enabled(s, step)
  {
    step.StepClaim? && step.missed && !Perform(s, step).outcome.Refused? && step.query.workerId in s.workers ==>
      s.workers[step.query.workerId].health.Healthy?
  }

  /** Missing the worker makes no difference to the committed state exactly when the claim is refused anyway
      or the row it missed is healthy. */
  lemma WholeExactly(s: State, step: Step)
    requires Enabled(s, step)
    ensures Enabled(s, Whole(step))
    ensures Next(s, Whole(step)) == Next(s, step) <==> FoundHealthy(s, step)
    ensures FoundHealthy(s, step) && !Perform(s, step).outcome.Refused? ==> Perform(s, Whole(step)) == Perform(s, step)
  {
    if step.StepClaim? && step.missed {
      MissedExactly(s, step.query, step.ids, step.candidates, step.now);
    }
  }

  lemma MissedExactly(s: State, q: ClaimRequest, ids: ClaimIds, candidates: seq<Id>, now: Time)
    requires forall j | j in candidates :: j in s.jobs
    ensures var missed, whole := Claim(s, q, ids, candidates, now, true), Claim(s, q, ids, candidates, now, false);
      && (missed.outcome.Refused? ==> missed.state == whole.state == s)
      && (!missed.outcome.Refused? ==>
            (missed.state == whole.state <==>
               (q.workerId in s.workers ==> s.workers[q.workerId].health.Healthy?))
            && (missed.state == whole.state ==> missed == whole))
  {
    var missed, whole := Claim(s, q, ids, candidates, now, true), Claim(s, q, ids, candidates, now, false);
    if q.workerId in s.workers && !missed.outcome.Refused? {
      assert missed.state.workers[q.workerId].health == Healthy;
      assert whole.state.workers[q.workerId].health == s.workers[q.workerId].health;
    }
  }

  // ----- whole runs

  ghost predicate AllFoundHealthy(s: State, steps: seq<Step>)
    requires IsRun(s, steps)
    decreases |steps|
  {
    steps == [] || (FoundHealthy(s, steps[0]) && AllFoundHealthy(Next(s, steps[0]), steps[1..]))
  }

  /** Every step of the run does to its state what the transaction run in one piece would. */
  ghost predicate EachIsWhole(s: State, steps: seq<Step>)
    requires IsRun(s, steps)
    decreases |steps|
  {
    steps == []
    || (Enabled(s, Whole(steps[0])) && Next(s, Whole(steps[0])) == Next(s, steps[0])
        && EachIsWhole(Next(s, steps[0]), steps[1..]))
  }

  lemma {:induction false} EachIsWholeExactly(s: State, steps: seq<Step>)
    requires IsRun(s, steps)
    ensures EachIsWhole(s, steps) <==> AllFoundHealthy(s, steps)
    decreases |steps|
  {
    if steps != [] {
      WholeExactly(s, steps[0]);
      EachIsWholeExactly(Next(s, steps[0]), steps[1..]);
    }
  }

  lemma {:induction false} WholeRun(s: State, steps: seq<Step>)
    requires IsRun(s, steps) && EachIsWhole(s, steps)
    ensures IsRun(s, WholeLog(steps)) && After(s, WholeLog(steps)) == After(s, steps)
    decreases |steps|
  {
    if steps != [] {
      var whole := WholeLog(steps);
      WholeRun(Next(s, steps[0]), steps[1..]);
      assert whole[0] == Whole(steps[0]) && whole[1..] == WholeLog(steps[1..]);
    }
  }

  /** Serializability: the committed transactions, each run in one piece in commit order, pass through every
      committed database of the interleaving exactly when each claim that missed its worker found it
      healthy; and then they end in the same database. */
  lemma SerializableExactly(events: seq<Event>)
    requires IsInterleaving(START, events)
    ensures var c := Reached(START, events);
      && IsRun(EMPTY, c.log)
      && (EachIsWhole(EMPTY, c.log) <==> AllFoundHealthy(EMPTY, c.log))
      && (AllFoundHealthy(EMPTY, c.log) ==>
            IsRun(EMPTY, WholeLog(c.log)) && After(EMPTY, WholeLog(c.log)) == c.db)
  {
    CommittedInOrder(events);
    var log := Reached(START, events).log;
    EachIsWholeExactly(EMPTY, log);
    if AllFoundHealthy(EMPTY, log) {
      WholeRun(EMPTY, log);
    }
  }

  // ----- without health changes

  predicate OnlyHealthy(s: State) {
    forall w | w in s.workers :: s.workers[w].health.Healthy?
  }

  predicate KeepsHealthy(step: Step) {
    step.StepHealth? ==> step.health.Healthy?
  }

  lemma StepKeepsHealthy(s: State, step: Step)
    requires Enabled(s, step) && OnlyHealthy(s) && KeepsHealthy(step)
    ensures OnlyHealthy(Next(s, step))
  {
  }

  lemma {:induction false} HealthyRun(s: State, steps: seq<Step>)
    requires IsRun(s, steps) && OnlyHealthy(s) && forall step | step in steps :: KeepsHealthy(step)
    ensures AllFoundHealthy(s, steps)
    decreases |steps|
  {
    if steps != [] {
      assert KeepsHealthy(steps[0]);
      StepKeepsHealthy(s, steps[0]);
      HealthyRun(Next(s, steps[0]), steps[1..]);
    }
  }

  /** As long as no committed transaction gave a worker another health status than HEALTHY, every interleaving
      is serializable in commit order. */
  lemma Serializable(events: seq<Event>)
    requires IsInterleaving(START, events)
    requires forall step | step in Reached(START, events).log :: KeepsHealthy(step)
    ensures var c := Reached(START, events);
      IsRun(EMPTY, WholeLog(c.log)) && After(EMPTY, WholeLog(c.log)) == c.db
  {
    CommittedInOrder(events);
    HealthyRun(EMPTY, Reached(START, events).log);
    SerializableExactly(events);
  }

  // ----- a drain that succeeds lasts when the transactions run in one piece

  predicate IsDraining(s: State, w: Id) {
    w in s.workers && s.workers[w].health.Draining?
  }

  /** A whole transaction that gives the worker no other health status than DRAINING. */
  predicate OnlyDrains(step: Step, w: Id) {
    && (step.StepClaim? ==> !step.missed)
    && (step.StepHealth? && step.workerId == w ==> step.health.Draining?)
  }

  ghost predicate Drains(s: State, step: Step, w: Id)
    requires Enabled(s, step)
  {
    step.StepHealth? && step.workerId == w && step.health.Draining? && Perform(s, step).outcome.Done?
  }

  lemma DrainLastsOneStep(s: State, step: Step, w: Id)
    requires Enabled(s, step) && OnlyDrains(step, w)
    requires IsDraining(s, w) || Drains(s, step, w)
    ensures IsDraining(Next(s, step), w)
  {
  }

  lemma {:induction false} DrainLasts(s: State, steps: seq<Step>, w: Id)
    requires IsRun(s, steps) && IsDraining(s, w) && forall step | step in steps :: OnlyDrains(step, w)
    ensures IsDraining(After(s, steps), w)
    decreases |steps|
  {
    if steps != [] {
      assert OnlyDrains(steps[0], w);
      DrainLastsOneStep(s, steps[0], w);
      DrainLasts(Next(s, steps[0]), steps[1..], w);
    }
  }

  /** Some step of the run is a health change to DRAINING that succeeds. */
  ghost predicate DrainSucceeds(s: State, steps: seq<Step>, w: Id)
    requires IsRun(s, steps)
    decreases |steps|
  {
    steps != [] && (Drains(s, steps[0], w) || DrainSucceeds(Next(s, steps[0]), steps[1..], w))
  }

  lemma {:induction false} SucceededDrainLasts(s: State, steps: seq<Step>, w: Id)
    requires IsRun(s, steps) && DrainSucceeds(s, steps, w) && forall step | step in steps :: OnlyDrains(step, w)
    ensures IsDraining(After(s, steps), w)
    decreases |steps|
  {
    assert OnlyDrains(steps[0], w);
    if Drains(s, steps[0], w) {
      DrainLastsOneStep(s, steps[0], w);
      DrainLasts(Next(s, steps[0]), steps[1..], w);
    } else {
      SucceededDrainLasts(Next(s, steps[0]), steps[1..], w);
    }
  }

  /** Where every health change of the worker is a drain and one succeeded, yet the worker does not end up
      draining, no order of the transactions in which the drain succeeds ends in the same database. */
  lemma NoOrderExplains(log: seq<Step>, db: State, w: Id, order: seq<Step>)
    requires forall step | step in log :: step.StepHealth? && step.workerId == w ==> step.health.Draining?
    requires !IsDraining(db, w)
    requires multiset(order) == multiset(WholeLog(log)) && IsRun(EMPTY, order) && DrainSucceeds(EMPTY, order, w)
    ensures After(EMPTY, order) != db
  {
    forall step | step in order ensures OnlyDrains(step, w) {
      assert step in multiset(WholeLog(log));
      var i :| 0 <= i < |log| && WholeLog(log)[i] == step;
      assert log[i] in log;
    }
    SucceededDrainLasts(EMPTY, order, w);
  }

  // ----- single moves

  ghost predicate Reachable(c: Config) {
    exists events :: IsInterleaving(START, events) && Reached(START, events) == c
  }

  lemma OneMove(c: Config, e: Event)
    requires Reachable(c) && Can(c, e)
    ensures Sound(c) && Reachable(Fire(c, e))
  {
    var events :| IsInterleaving(START, events) && Reached(START, events) == c;
    InterleavingKeepsSound(START, events);
    AnyEventExtends(START, events, e);
  }

  lemma OpenMove(c: Config, t: TxId, tx: Tx)
    requires Reachable(c) && t !in c.open && Fresh(tx)
    ensures Reachable(Keep(c, t, tx))
  {
    OneMove(c, Begin(t, tx));
  }

  /** A read that finds no worker does not wait. */
  lemma MissMove(c: Config, t: TxId)
    requires Reachable(c) && t in c.open && c.open[t].ClaimTx? && c.open[t].phase < 2
    requires c.open[t].query.workerId !in c.db.workers
    ensures Reachable(Keep(c, t, c.open[t].(phase := c.open[t].phase + 1)))
  {
    assert Wants(c.db, c.open[t]).None?;
    OneMove(c, Advance(t));
  }

  /** A claim takes its worker when nobody holds it. */
  lemma TakeMove(c: Config, t: TxId, missed: bool)
    requires Reachable(c) && t in c.open && c.open[t].ClaimTx?
    requires if missed then c.open[t].phase == 1 && c.open[t].query.workerId in c.db.workers
             else c.open[t].phase == 2 && c.open[t].query.workerId !in c.db.workers
    requires forall u | u in c.open && u != t :: WorkerRow(c.open[t].query.workerId) !in Held(c.open[u])
    ensures Reachable(TakeWorker(c, t, missed))
  {
    OneMove(c, Advance(t));
  }

  lemma AnswerMove(c: Config, t: TxId, answer: seq<Id>) returns (c': Config)
    requires Reachable(c) && t in c.open && c.open[t].ClaimTx? && c.open[t].phase == 3
    requires IsAnswer(c.db.jobs, c.open[t].query, LockedByOthers(c, t), answer)
    ensures Reachable(c') && t in c'.open && c'.open[t].ClaimTx? && c'.open[t].phase == 4
    ensures var tx := c.open[t]; ClaimStep(c'.open[t]) == StepClaim(tx.query, tx.ids, answer, tx.now, tx.missed)
    ensures c'.db == c.db && c'.log == c.log && c'.open - {t} == c.open - {t}
  {
    OneMove(c, Select(t, answer));
    c' := Fire(c, Select(t, answer));
  }

  lemma CommitMove(c: Config, t: TxId)
    requires Reachable(c) && t in c.open && c.open[t].ClaimTx? && c.open[t].phase == 4
    ensures Enabled(c.db, ClaimStep(c.open[t]))
    ensures Reachable(Commit(c, t, Next(c.db, ClaimStep(c.open[t])), ClaimStep(c.open[t])))
  {
    OneMove(c, Advance(t));
    ClaimCommitsStep(c.db, c.open[t]);
  }

  /** A health change locks the row of its worker. */
  lemma LockMove(c: Config, t: TxId)
    requires Reachable(c) && t in c.open && c.open[t].HealthTx? && c.open[t].worker.None?
    requires c.open[t].workerId in c.db.workers
    requires forall u | u in c.open && u != t :: WorkerRow(c.open[t].workerId) !in Held(c.open[u])
    ensures Reachable(Keep(c, t, c.open[t].(worker := Some(c.db.workers[c.open[t].workerId]))))
  {
    OneMove(c, Advance(t));
  }

  lemma HealthMove(c: Config, t: TxId)
    requires Reachable(c) && t in c.open && c.open[t].HealthTx? && c.open[t].worker.Some?
    ensures Reachable(Commit(c, t, Next(c.db, OtherStep(c.open[t])), OtherStep(c.open[t])))
  {
    OneMove(c, Advance(t));
    OtherCommitsStep(c, t);
  }

  // ----- an interleaving that loses a drain

  const WORKER := "w"

  const QUERY := ClaimRequest(WORKER, [], None, None, 2, None, 3)

  const SLOW := ClaimTx(QUERY, ClaimIds("token-a", "attempt-a", "lease-a"), 3, 0, false, None, [], map[])

  const QUICK := ClaimTx(QUERY, ClaimIds("token-b", "attempt-b", "lease-b"), 1, 0, false, None, [], map[])

  const DRAIN := HealthTx(WORKER, Draining, 2, None)

  const SPEC := JobSpec(true, 0, 0, "default", None, [], 300)

  const NEW_ROW := Worker([], Healthy, 0, 2, 1, None, None)

  const DRAINED_ROW := NEW_ROW.(health := Draining, lastSeenAt := 2, drainingAt := Some(2))

  const QUICK_STEP := StepClaim(QUERY, QUICK.ids, [], 1, false)

  const DRAIN_STEP := StepHealth(WORKER, Draining, 2)

  const QUEUE_STEP := StepCreate("j", SPEC)

  const SLOW_STEP := StepClaim(QUERY, SLOW.ids, ["j"], 3, true)

  const REGISTERED := Config(EMPTY.(workers := map[WORKER := NEW_ROW]), map[0 := SLOW.(phase := 1)], [QUICK_STEP])

  const DRAINED := Config(EMPTY.(workers := map[WORKER := DRAINED_ROW]), REGISTERED.open, [QUICK_STEP, DRAIN_STEP])

  const QUEUED := Config(CreateJob(DRAINED.db, "j", SPEC).state, REGISTERED.open,
                         [QUICK_STEP, DRAIN_STEP, QUEUE_STEP])

  /** Two claims of a worker nobody knows; one registers it while the other is between its reads. */
  lemma QuickRegisters()
    ensures Reachable(REGISTERED)
  {
    assert Reachable(START) by {
      assert IsInterleaving(START, []) && Reached(START, []) == START;
    }
    OpenMove(START, 0, SLOW);
    var c1 := Keep(START, 0, SLOW);
    OpenMove(c1, 1, QUICK);
    BothMiss(Keep(c1, 1, QUICK));
    QuickCommits(Config(EMPTY, map[0 := SLOW.(phase := 1), 1 := QUICK.(phase := 2)], []));
  }

  lemma BothMiss(c: Config)
    requires Reachable(c) && c == Config(EMPTY, map[0 := SLOW, 1 := QUICK], [])
    ensures Reachable(Config(EMPTY, map[0 := SLOW.(phase := 1), 1 := QUICK.(phase := 2)], []))
  {
    MissMove(c, 0);
    var c1 := Keep(c, 0, SLOW.(phase := 1));
    MissMove(c1, 1);
    var c2 := Keep(c1, 1, QUICK.(phase := 1));
    MissMove(c2, 1);
    assert Keep(c2, 1, QUICK.(phase := 2)).open == map[0 := SLOW.(phase := 1), 1 := QUICK.(phase := 2)];
  }

  lemma QuickCommits(c: Config)
    requires Reachable(c) && c == Config(EMPTY, map[0 := SLOW.(phase := 1), 1 := QUICK.(phase := 2)], [])
    ensures Reachable(REGISTERED)
  {
    TakeMove(c, 1, false);
    var c1 := TakeWorker(c, 1, false);
    assert c1 == Keep(c, 1, QUICK.(phase := 3));
    var c2 := AnswerMove(c1, 1, []);
    CommitMove(c2, 1);
    assert Next(EMPTY, QUICK_STEP) == REGISTERED.db;
    assert c2.open - {1} == REGISTERED.open;
  }

  lemma DrainStarts() returns (c: Config)
    requires Reachable(REGISTERED)
    ensures Reachable(c) && c.db == REGISTERED.db && c.log == REGISTERED.log
    ensures c.open == REGISTERED.open[2 := DRAIN.(worker := Some(NEW_ROW))]
  {
    OpenMove(REGISTERED, 2, DRAIN);
    var c1 := Keep(REGISTERED, 2, DRAIN);
    assert Held(c1.open[0]) == {};
    assert c1.open[2] == DRAIN && c1.db.workers[WORKER] == NEW_ROW;
    LockMove(c1, 2);
    c := Keep(c1, 2, DRAIN.(worker := Some(NEW_ROW)));
  }

  lemma DrainCommits()
    requires Reachable(REGISTERED)
    ensures Reachable(DRAINED)
  {
    var c := DrainStarts();
    HealthMove(c, 2);
    assert Next(c.db, DRAIN_STEP) == DRAINED.db;
    assert c.open - {2} == DRAINED.open;
    assert Commit(c, 2, DRAINED.db, DRAIN_STEP) == DRAINED;
  }

  lemma JobArrives()
    requires Reachable(DRAINED)
    ensures Reachable(QUEUED)
  {
    OneMove(DRAINED, Insert("j", SPEC));
  }

  /** The slow claim reads again, finds the drained row, takes its worker for a new one and claims the job. */
  lemma SlowClaims() returns (c: Config)
    requires Reachable(QUEUED)
    ensures Reachable(c) && c.log == QUEUED.log + [SLOW_STEP]
    ensures WORKER in c.db.workers && c.db.workers[WORKER].health.Healthy? && IsActive(c.db, "token-a")
  {
    TakeMove(QUEUED, 0, true);
    var c1 := TakeWorker(QUEUED, 0, true);
    assert c1 == Keep(QUEUED, 0, SLOW.(phase := 3, missed := true, existing := Some(DRAINED_ROW)));
    assert LockedByOthers(c1, 0) == {};
    var c2 := AnswerMove(c1, 0, ["j"]);
    CommitMove(c2, 0);
    c := Commit(c2, 0, Next(c2.db, SLOW_STEP), SLOW_STEP);
  }

  /** The drain of the worker succeeded and yet it ended up healthy, which happens in no order of the same
      transactions, each run in one piece, in which the drain succeeds. */
  ghost predicate LostDrain(c: Config, w: Id) {
    && IsRun(EMPTY, c.log) && DrainSucceeds(EMPTY, c.log, w)
    && w in c.db.workers && c.db.workers[w].health.Healthy?
    && forall order | multiset(order) == multiset(WholeLog(c.log)) && IsRun(EMPTY, order)
                      && DrainSucceeds(EMPTY, order, w) :: After(EMPTY, order) != c.db
  }

  lemma NothingExplains(c: Config, w: Id)
    requires IsRun(EMPTY, c.log) && DrainSucceeds(EMPTY, c.log, w)
    requires w in c.db.workers && c.db.workers[w].health.Healthy?
    requires forall step | step in c.log :: step.StepHealth? && step.workerId == w ==> step.health.Draining?
    ensures LostDrain(c, w)
  {
    forall order | multiset(order) == multiset(WholeLog(c.log)) && IsRun(EMPTY, order)
                   && DrainSucceeds(EMPTY, order, w)
      ensures After(EMPTY, order) != c.db
    {
      NoOrderExplains(c.log, c.db, w, order);
    }
  }

  /** Not every interleaving is serializable: in this one a drain is lost to a claim that missed its worker. */
  lemma DrainIsLost() returns (events: seq<Event>)
    ensures IsInterleaving(START, events)
    ensures LostDrain(Reached(START, events), WORKER) && IsActive(Reached(START, events).db, "token-a")
  {
    QuickRegisters();
    DrainCommits();
    JobArrives();
    var c := SlowClaims();
    LostInTheEnd(c);
    events :| IsInterleaving(START, events) && Reached(START, events) == c;
  }

  lemma LostInTheEnd(c: Config)
    requires Reachable(c) && c.log == QUEUED.log + [SLOW_STEP]
    requires WORKER in c.db.workers && c.db.workers[WORKER].health.Healthy?
    ensures LostDrain(c, WORKER)
  {
    ReachedInOrder(c);
    DrainSucceeded(c.log);
    NothingExplains(c, WORKER);
  }

  lemma ReachedInOrder(c: Config)
    requires Reachable(c)
    ensures IsRun(EMPTY, c.log) && After(EMPTY, c.log) == c.db
  {
    var events :| IsInterleaving(START, events) && Reached(START, events) == c;
    CommittedInOrder(events);
  }

  lemma DrainSucceeded(log: seq<Step>)
    requires IsRun(EMPTY, log) && log == QUEUED.log + [SLOW_STEP]
    ensures DrainSucceeds(EMPTY, log, WORKER)
    ensures forall step | step in log :: step.StepHealth? && step.workerId == WORKER ==> step.health.Draining?
  {
    var s := Next(EMPTY, QUICK_STEP);
    assert WORKER in s.workers;
    assert log[0] == QUICK_STEP && log[1..][0] == DRAIN_STEP;
    assert DrainSucceeds(s, log[1..], WORKER);
  }
}
