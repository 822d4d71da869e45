/** What becomes of a transaction that is run as single row locks: it ends as the whole transaction would at the moment
    of its end, commits exactly when that is accepted, and run alone it comes to that end. */
module LockEffects {
  import opened Options
  import opened RuntimeTables
  import opened LeaseProtocol
  import opened LeaseInvariant
  import opened LeaseSteps
  import opened LeaseRuns
  import opened ClaimSelection
  import opened LockProtocol

  /** The move only carries the transaction on. */
  ghost predicate OnlyReads(c: Config, c': Config, t: TxId)
    requires t in c.open
  {
    && c'.db == c.db && c'.log == c.log
    && t in c'.open && c'.open == c.open[t := c'.open[t]]
    && Remaining(c'.open[t]) < Remaining(c.open[t])
  }

  /** The move ends the transaction with the result of a whole one: the state it leaves is the committed one, and the
      step is logged when it was carried out. */
  ghost predicate EndsAs(c: Config, c': Config, t: TxId, step: Step, result: Result) {
    && c'.open == c.open - {t}
    && c'.db == result.state
    && c'.log == if result.outcome.Refused? then c.log else c.log + [step]
  }

  /** A heartbeat, completion or failure reads on, or ends as the whole transaction: it commits exactly when that is
      accepted at this moment. */
  lemma LeaseEndsAsWhole(c: Config, t: TxId)
    requires Sound(c) && t in c.open && c.open[t].LeaseTx? && Can(c, Advance(t))
    ensures var c', tx := Fire(c, Advance(t)), c.open[t];
      && (c.open[t].stage == 4 ==> t !in c'.open)
      && if t in c'.open then
           OnlyReads(c, c', t) && c'.open[t] == tx.(stage := tx.stage + 1, rows := c'.open[t].rows)
         else
           EndsAs(c, c', t, StepLease(tx.request, tx.now), UseLease(c.db, tx.request, tx.now))
  {
    var tx := c.open[t];
    assert TxOk(c.db, tx);
    if tx.stage == 4 {
      LeaseCommitsStep(c.db, tx);
    } else if StageCheck(c.db, tx).Some? {
      EarlyRefusalIsRefusal(c, t);
    }
  }

  /** A cancellation or a health change that has its row commits; without a row it is refused as the whole
      transaction is. */
  lemma OtherEndsAsWhole(c: Config, t: TxId)
    requires Sound(c) && t in c.open && (c.open[t].CancelTx? || c.open[t].HealthTx?) && Can(c, Advance(t))
    ensures var c', tx := Fire(c, Advance(t)), c.open[t];
      && (ReadyOther(tx) ==> t !in c'.open)
      && if t in c'.open then OnlyReads(c, c', t) && Purpose(c'.open[t]) == Purpose(tx)
         else EndsAs(c, c', t, Purpose(tx), Perform(c.db, Purpose(tx)))
  {
    var tx := c.open[t];
    assert TxOk(c.db, tx);
    if ReadyOther(tx) {
      OtherCommitsStep(c, t);
    }
  }

  /** The step a transaction that makes no claim is about. */
  function Purpose(tx: Tx): Step
    requires !tx.ClaimTx?
  {
    match tx
    case LeaseTx(request, now, _, _) => StepLease(request, now)
    case CancelTx(jobId, now, _) => StepCancel(jobId, now)
    case HealthTx(workerId, health, now, _) => StepHealth(workerId, health, now)
  }

  /** A claim that has its candidates commits what the whole claim does with them, refused by a constraint or not;
      before, it ends only when its worker may not claim, or was inserted by somebody else meanwhile. */
  lemma ClaimEndsAsWhole(c: Config, t: TxId)
    requires Sound(c) && t in c.open && c.open[t].ClaimTx? && Can(c, Advance(t))
    ensures var c', tx := Fire(c, Advance(t)), c.open[t];
      if tx.phase == 4 then
        c' == Config(Claim(c.db, tx.query, tx.ids, tx.candidates, tx.now, tx.missed).state, c.open - {t},
                     c.log + [StepClaim(tx.query, tx.ids, tx.candidates, tx.now, tx.missed)])
      else if t in c'.open then
        && OnlyReads(c, c', t)
        && c'.open[t] == tx.(phase := c'.open[t].phase, missed := c'.open[t].missed, existing := c'.open[t].existing)
        && (c'.open[t].missed <==> tx.phase == 1 && tx.query.workerId in c.db.workers)
      else
        && c' == c.(open := c.open - {t})
        && (|| (tx.phase == 2 && tx.query.workerId in c.db.workers)
            || Claim(c.db, tx.query, tx.ids, [], tx.now, tx.phase == 1).outcome.Refused?)
  {
    var tx := c.open[t];
    assert TxOk(c.db, tx);
    if tx.phase == 4 {
      ClaimCommitsStep(c.db, tx);
    }
  }

  /** The claim's query hands it the rows of its answer, as they are committed, and nothing else changes. */
  lemma SelectHandsOver(c: Config, t: TxId, answer: seq<Id>)
    requires Sound(c) && Can(c, Select(t, answer))
    ensures var c', tx := Fire(c, Select(t, answer)), c.open[t];
      && c'.db == c.db && c'.log == c.log && t in c'.open && c'.open == c.open[t := c'.open[t]]
      && c'.open[t] == tx.(phase := 4, candidates := answer, read := c'.open[t].read)
      && forall j :: j in c'.open[t].read <==> j in answer
  {
    assert TxOk(c.db, c.open[t]);
    assert forall j | j in answer :: Visible(c.db.jobs, c.open[t].query, LockedByOthers(c, t), j);
  }

  // ----- a transaction alone

  lemma AloneIsFree(c: Config, t: TxId)
    requires c.open.Keys == {t}
    ensures !Blocked(c, t) && LockedByOthers(c, t) == {} && c.open - {t} == map[]
  {
  }

  /** Cut into row locks and run alone, a heartbeat, completion, failure, cancellation or health change does what it
      does in one piece. */
  lemma {:induction false} AloneIsWhole(c: Config, t: TxId) returns (events: seq<Event>)
    requires Sound(c) && c.open.Keys == {t} && !c.open[t].ClaimTx?
    ensures IsInterleaving(c, events) && forall e | e in events :: e == Advance(t)
    ensures EndsAs(c, Reached(c, events), t, Purpose(c.open[t]), Perform(c.db, Purpose(c.open[t])))
    decreases Remaining(c.open[t])
  {
    AloneIsFree(c, t);
    var c' := Fire(c, Advance(t));
    MoveKeepsSound(c, Advance(t));
    if c.open[t].LeaseTx? {
      LeaseEndsAsWhole(c, t);
    } else {
      OtherEndsAsWhole(c, t);
    }
    events := [Advance(t)];
    if t in c'.open {
      var rest := AloneIsWhole(c', t);
      events := events + rest;
      assert events[1..] == rest;
      assert c'.open - {t} == c.open - {t};
    } else {
      assert events[1..] == [];
    }
  }

  /** How far a claim alone has come. */
  predicate OnItsWay(c: Config, tx: Tx, answer: seq<Id>) {
    && tx.ClaimTx? && !tx.missed
    && (tx.phase in {1, 2} ==> tx.query.workerId !in c.db.workers)
    && (tx.phase == 4 ==> tx.candidates == answer)
  }

  /** And so does a claim, given the answer of its query: it registers its worker by one read or by insertion, and
      never misses it. */
  lemma {:induction false} ClaimAloneIsWhole(c: Config, t: TxId, answer: seq<Id>) returns (events: seq<Event>)
    requires Sound(c) && c.open.Keys == {t} && OnItsWay(c, c.open[t], answer)
    requires IsAnswer(c.db.jobs, c.open[t].query, {}, answer)
    ensures IsInterleaving(c, events) && forall e | e in events :: e == Advance(t) || e == Select(t, answer)
    ensures var tx := c.open[t];
      var result := Claim(c.db, tx.query, tx.ids, answer, tx.now, false);
      && Reached(c, events).open == map[] && Reached(c, events).db == result.state
      && Reached(c, events).log ==
           if CheckClaimant(Claimant(Find(c.db.workers, tx.query.workerId), tx.query, false, tx.now)).Some?
           then c.log else c.log + [StepClaim(tx.query, tx.ids, answer, tx.now, false)]
    decreases Remaining(c.open[t])
  {
    AloneIsFree(c, t);
    var tx := c.open[t];
    assert TxOk(c.db, tx);
    var e := if tx.phase == 3 then Select(t, answer) else Advance(t);
    var c' := Fire(c, e);
    MoveKeepsSound(c, e);
    if tx.phase == 3 {
      SelectHandsOver(c, t, answer);
    } else {
      ClaimEndsAsWhole(c, t);
    }
    events := [e];
    if t in c'.open {
      var rest := ClaimAloneIsWhole(c', t, answer);
      events := events + rest;
      assert events[1..] == rest;
    } else {
      assert events[1..] == [];
    }
  }
}
