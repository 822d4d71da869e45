/** The runs of the worker seen from one runtime row: each is a run of status transactions over the jobs of
    that runtime, so what holds of those holds of the worker. */
module RuntimeHistory {
  import opened Options
  import opened AssetWorker
  import opened AssetRuns
  import R = RuntimeStatus

  /** The rows of one runtime: its jobs, oldest first, and its own row. */
  function View(s: Persisted, key: RuntimeKey): R.State
    requires key in s.runtimes
  {
    R.State(JobsOf(s.items, s.order, key), s.runtimes[key])
  }

  /** Every job is listed once. */
  ghost predicate Listed(s: Persisted) {
    && (forall i, k | 0 <= i < k < |s.order| :: s.order[i] != s.order[k])
    && (forall id :: id in s.order <==> id in s.items)
  }

  /** The task names the runtime its job belongs to, as the dispatcher makes it. */
  predicate WellAddressed(s: Persisted, t: Task) {
    t.jobId in s.items ==> s.items[t.jobId].key == KeyOf(t)
  }

  function AsJob(item: WorkItem): R.Job {
    R.Job(item.status, item.attemptCount, item.errorCode)
  }

  /** Seen from the runtime row, the steps lead from the first state to the second. */
  ghost predicate Shows(s: Persisted, s': Persisted, key: RuntimeKey, steps: seq<R.Step>) {
    && key in s.runtimes && key in s'.runtimes
    && R.IsRun(View(s, key), steps) && R.After(View(s, key), steps) == View(s', key)
  }

  lemma ShowsOn(s: Persisted, s1: Persisted, s2: Persisted, key: RuntimeKey, steps: seq<R.Step>, more: seq<R.Step>)
    requires Shows(s, s1, key, steps) && Shows(s1, s2, key, more)
    ensures Shows(s, s2, key, steps + more)
  {
    R.JoinRuns(View(s, key), steps, more);
  }

  // ----- one transaction

  lemma {:induction false} OtherJobsStay(
    items: map<Id, WorkItem>, order: seq<Id>, key: RuntimeKey, id: Id, item: WorkItem)
    requires id in items && item.key == items[id].key
    requires id !in order || item.key != key
    ensures JobsOf(items[id := item], order, key) == JobsOf(items, order, key)
  {
    if order != [] {
      OtherJobsStay(items, order[..|order| - 1], key, id, item);
    }
  }

  /** The position of a job among the jobs of its runtime. */
  function Position(items: map<Id, WorkItem>, order: seq<Id>, key: RuntimeKey, id: Id): nat {
    if order == [] then 0
    else if order[|order| - 1] == id then |JobsOf(items, order[..|order| - 1], key)|
    else Position(items, order[..|order| - 1], key, id)
  }

  lemma {:induction false} OneJobChanges(
    items: map<Id, WorkItem>, order: seq<Id>, key: RuntimeKey, id: Id, item: WorkItem)
    requires forall i, k | 0 <= i < k < |order| :: order[i] != order[k]
    requires id in order && id in items && items[id].key == item.key == key
    ensures var p, jobs := Position(items, order, key, id), JobsOf(items, order, key);
      && p < |jobs| && jobs[p] == AsJob(items[id])
      && JobsOf(items[id := item], order, key) == jobs[p := AsJob(item)]
  {
    var init, last := order[..|order| - 1], order[|order| - 1];
    assert order == init + [last];
    if last == id {
      assert id !in init;
      OtherJobsStay(items, init, key, id, item);
    } else {
      OneJobChanges(items, init, key, id, item);
    }
  }

  /** The status transaction a change of the job row amounts to. */
  predicate IsStep(before: R.Job, after: R.Job, mark: R.Mark) {
    || (mark.MarkRunning? && after == R.Job(R.Running, before.attemptCount + 1, None))
    || (mark.MarkNothing? && after == before.(status := R.Succeeded))
    || (mark.MarkFailed? && after == before.(status := R.Failed, errorCode := Some(mark.code)))
  }

  function StepFor(mark: R.Mark, p: nat): R.Step {
    match mark
    case MarkRunning => R.Start(p)
    case MarkNothing => R.Succeed(p)
    case MarkFailed(code, message) => R.Fail(p, code, message)
  }

  lemma StepMatches(jobs: seq<R.Job>, p: nat, after: R.Job, mark: R.Mark)
    requires p < |jobs| && IsStep(jobs[p], after, mark)
    ensures R.NewJobs(jobs, StepFor(mark, p)) == jobs[p := after] && R.MarkOf(StepFor(mark, p)) == mark
  {
  }

  lemma JobChangeKeepsList(s: Persisted, t: Task, item: WorkItem, mark: R.Mark)
    requires Listed(s) && t.jobId in s.items
    ensures Listed(WithJob(s, t, item, mark))
  {
  }

  lemma JobChangeIsStep(s: Persisted, t: Task, item: WorkItem, mark: R.Mark) returns (steps: seq<R.Step>)
    requires Listed(s) && t.jobId in s.items && KeyOf(t) in s.runtimes
    requires s.items[t.jobId].key == item.key == KeyOf(t)
    requires IsStep(AsJob(s.items[t.jobId]), AsJob(item), mark)
    ensures Listed(WithJob(s, t, item, mark))
    ensures steps != [] && Shows(s, WithJob(s, t, item, mark), KeyOf(t), steps)
  {
    var key, p := KeyOf(t), Position(s.items, s.order, KeyOf(t), t.jobId);
    JobChangeKeepsList(s, t, item, mark);
    OneJobChanges(s.items, s.order, key, t.jobId, item);
    steps := [StepFor(mark, p)];
    StepMatches(View(s, key).jobs, p, AsJob(item), mark);
    assert R.Next(View(s, key), steps[0]) == View(WithJob(s, t, item, mark), key);
  }

  // ----- one run

  /** The two states show the same jobs and runtimes. */
  predicate SameRows(s: Persisted, s': Persisted) {
    s'.items == s.items && s'.order == s.order && s'.runtimes == s.runtimes
  }

  function Ended(s: Persisted, t: Task): Persisted
    requires t.jobId in s.items
  {
    WithJob(Begun(s, t), t, Started(s.items[t.jobId]).(status := R.Succeeded), R.MarkNothing)
  }

  /** The body of a run has committed no transaction, the first, or both. */
  lemma AttemptRows(s: Persisted, t: Task, w: World)
    ensures var (s1, ending) := Attempt(s, t, w);
      || (SameRows(s, s1) && !ending.Completed?)
      || (t.jobId in s.items && SameRows(Begun(s, t), s1) && !ending.Completed?)
      || (t.jobId in s.items && SameRows(Ended(s, t), s1))
  {
    if t.jobId in s.items && w.provided.Returned? {
      DeliverRows(Begun(s, t), t, Started(s.items[t.jobId]), w.provided.execution, w);
    }
  }

  lemma DeliverRows(s: Persisted, t: Task, item: WorkItem, e: Execution, w: World)
    ensures var (s1, ending) := Deliver(s, t, item, e, w);
      || (SameRows(s, s1) && !ending.Completed?)
      || SameRows(WithJob(s, t, item.(status := R.Succeeded), R.MarkNothing), s1)
  {
    var prepared := Prepare(s, t, item, e, w);
    if prepared.None? || Stop(w, BeforeWrite, Some(e)).Some? {
      assert Deliver(s, t, item, e, w).0 == s;
    }
  }

  lemma AttemptIsStatusRun(s: Persisted, t: Task, w: World) returns (steps: seq<R.Step>)
    requires Listed(s) && KeyOf(t) in s.runtimes && WellAddressed(s, t)
    ensures var (s1, ending) := Attempt(s, t, w);
      && Listed(s1) && WellAddressed(s1, t)
      && Shows(s, s1, KeyOf(t), steps)
      && (ending.Completed? ==> steps != [])
  {
    var s1 := Attempt(s, t, w).0;
    AttemptRows(s, t, w);
    steps := [];
    if !SameRows(s, s1) {
      steps := JobChangeIsStep(s, t, Started(s.items[t.jobId]), R.MarkRunning);
      if !SameRows(Begun(s, t), s1) {
        var end := JobChangeIsStep(Begun(s, t), t, Started(s.items[t.jobId]).(status := R.Succeeded), R.MarkNothing);
        ShowsOn(s, Begun(s, t), Ended(s, t), KeyOf(t), steps, end);
        steps := steps + end;
      }
    }
  }

  lemma RecoverRows(s: Persisted, t: Task, code: string, execution: Option<Execution>, w: World)
    requires t.jobId in s.items
    ensures var (s', outcome) := Recover(s, t, code, execution, w);
      var failed := s.items[t.jobId].(status := R.Failed, errorCode := Some(code));
      && !outcome.Finished? && !outcome.Crashed?
      && (outcome.Unrecorded? ==> s' == s)
      && (outcome.Recorded? ==> SameRows(WithJob(s, t, failed, R.MarkFailed(code, w.errorMessage)), s'))
  {
  }

  lemma RecoverIsStatusRun(s: Persisted, t: Task, code: string, execution: Option<Execution>, w: World)
    returns (steps: seq<R.Step>)
    requires Listed(s) && KeyOf(t) in s.runtimes && WellAddressed(s, t)
    ensures var (s', outcome) := Recover(s, t, code, execution, w);
      Listed(s') && Shows(s, s', KeyOf(t), steps) && (outcome.Recorded? ==> steps != [])
  {
    var (s', outcome) := Recover(s, t, code, execution, w);
    if t.jobId in s.items {
      RecoverRows(s, t, code, execution, w);
      steps := [];
      if outcome.Recorded? {
        var failed := s.items[t.jobId].(status := R.Failed, errorCode := Some(code));
        steps := JobChangeIsStep(s, t, failed, R.MarkFailed(code, w.errorMessage));
      }
    } else if outcome.Unrecorded? {
      steps := [];
    } else {
      steps := [R.FailUnknownJob(code, w.errorMessage)];
      assert R.Next(View(s, KeyOf(t)), steps[0]) == View(s', KeyOf(t));
    }
  }

  /** Seen from the row of its runtime, a run of the worker is a run of status transactions, at least one
      of them when it finishes or records its failure. */
  lemma RunIsStatusRun(s: Persisted, t: Task, w: World) returns (steps: seq<R.Step>)
    requires Listed(s) && KeyOf(t) in s.runtimes && WellAddressed(s, t)
    ensures var (s', outcome) := RunJob(s, t, w);
      && Listed(s') && Shows(s, s', KeyOf(t), steps)
      && (outcome.Finished? || outcome.Recorded? ==> steps != [])
  {
    var (s1, ending) := Attempt(s, t, w);
    steps := AttemptIsStatusRun(s, t, w);
    if ending.Broken? {
      var more := RecoverIsStatusRun(s1, t, ending.code, ending.execution, w);
      ShowsOn(s, s1, RunJob(s, t, w).0, KeyOf(t), steps, more);
      steps := steps + more;
    }
  }

  /** After a run that finished or recorded its failure the row of the runtime says exactly what its jobs
      call for, in the same commit as the job and the asset. */
  lemma CommitMakesCurrent(s: Persisted, t: Task, w: World)
    requires Listed(s) && KeyOf(t) in s.runtimes && WellAddressed(s, t)
    requires View(s, KeyOf(t)).jobs != [] && R.Known(View(s, KeyOf(t)).jobs)
    requires RunJob(s, t, w).1.Finished? || RunJob(s, t, w).1.Recorded?
    ensures KeyOf(t) in RunJob(s, t, w).0.runtimes && R.Current(View(RunJob(s, t, w).0, KeyOf(t)))
  {
    var steps := RunIsStatusRun(s, t, w);
    R.RunIsCurrent(View(s, KeyOf(t)), steps);
  }

  // ----- other runtimes

  /** The run leaves every other runtime, and the runtimes of all jobs, as they are. */
  predicate SparesOthers(s: Persisted, s': Persisted, t: Task) {
    && s'.order == s.order && s'.items.Keys == s.items.Keys && s'.runtimes.Keys == s.runtimes.Keys
    && (forall id | id in s.items :: s'.items[id].key == s.items[id].key)
    && (forall id | id in s.items && id != t.jobId :: s'.items[id] == s.items[id])
    && (forall key | key in s.runtimes && key != KeyOf(t) :: s'.runtimes[key] == s.runtimes[key])
  }

  lemma RunSparesOthers(s: Persisted, t: Task, w: World)
    ensures SparesOthers(s, RunJob(s, t, w).0, t)
  {
    AttemptRows(s, t, w);
    var (s1, ending) := Attempt(s, t, w);
    assert SparesOthers(s, s1, t);
    if ending.Broken? {
      RecoverSparesOthers(s1, t, ending.code, ending.execution, w);
    }
  }

  lemma RecoverSparesOthers(s: Persisted, t: Task, code: string, execution: Option<Execution>, w: World)
    ensures SparesOthers(s, Recover(s, t, code, execution, w).0, t)
  {
  }

  lemma {:induction false} SameJobsOf(
    items: map<Id, WorkItem>, items': map<Id, WorkItem>, order: seq<Id>, key: RuntimeKey)
    requires forall id | id in order :: id in items <==> id in items'
    requires forall id | id in order && id in items :: items'[id].key == items[id].key
    requires forall id | id in order && id in items && items[id].key == key :: items'[id] == items[id]
    ensures JobsOf(items', order, key) == JobsOf(items, order, key)
  {
    if order != [] {
      var init := order[..|order| - 1];
      assert order == init + [order[|order| - 1]];
      SameJobsOf(items, items', init, key);
    }
  }

  lemma OtherViewStays(s: Persisted, t: Task, w: World, key: RuntimeKey)
    requires WellAddressed(s, t) && key in s.runtimes && key != KeyOf(t)
    ensures Shows(s, RunJob(s, t, w).0, key, [])
  {
    RunSparesOthers(s, t, w);
    SameJobsOf(s.items, RunJob(s, t, w).0.items, s.order, key);
  }

  // ----- histories of runs

  /** A history of well-addressed runs over a fixed set of jobs. */
  predicate OnlyRuns(s: Persisted, history: seq<Event>) {
    forall event | event in history :: event.Work? && WellAddressed(s, event.task)
  }

  /** Seen from any runtime row, any history of worker runs, with all their failures and crashes, is a run
      of status transactions. */
  lemma {:induction false} HistoryIsStatusRun(s: Persisted, history: seq<Event>, key: RuntimeKey)
    returns (steps: seq<R.Step>)
    requires Listed(s) && key in s.runtimes && OnlyRuns(s, history)
    ensures Listed(After(s, history)) && Shows(s, After(s, history), key, steps)
    ensures forall id :: id in s.items <==> id in After(s, history).items
    ensures forall id | id in s.items :: After(s, history).items[id].key == s.items[id].key
  {
    if history == [] {
      steps := [];
    } else {
      var before, last := history[..|history| - 1], history[|history| - 1];
      assert last in history;
      steps := HistoryIsStatusRun(s, before, key);
      var s1 := After(s, before);
      assert WellAddressed(s1, last.task);
      RunSparesOthers(s1, last.task, last.world);
      var more := OneRun(s1, last.task, last.world, key);
      ShowsOn(s, s1, After(s, history), key, steps, more);
      steps := steps + more;
    }
  }

  lemma OneRun(s: Persisted, t: Task, w: World, key: RuntimeKey) returns (steps: seq<R.Step>)
    requires Listed(s) && key in s.runtimes && WellAddressed(s, t)
    ensures Listed(RunJob(s, t, w).0) && Shows(s, RunJob(s, t, w).0, key, steps)
  {
    if key == KeyOf(t) {
      steps := RunIsStatusRun(s, t, w);
    } else {
      OtherViewStays(s, t, w, key);
      RunSparesOthers(s, t, w);
      steps := [];
    }
  }

  /** No history of worker runs over a fixed set of jobs moves the dispatch status of a runtime backwards
      or leaves a current row out of date. */
  lemma HistoryKeepsStatus(s: Persisted, history: seq<Event>, key: RuntimeKey)
    requires Listed(s) && key in s.runtimes && OnlyRuns(s, history)
    requires var view := View(s, key); view.jobs != [] && R.Known(view.jobs) && R.Current(view)
    ensures var s' := After(s, history);
      && key in s'.runtimes && R.Current(View(s', key))
      && R.Rank(s.runtimes[key].dispatchStatus) <= R.Rank(s'.runtimes[key].dispatchStatus)
  {
    var steps := HistoryIsStatusRun(s, history, key);
    R.DispatchNeverRegresses(View(s, key), steps);
    if steps != [] {
      R.RunIsCurrent(View(s, key), steps);
    }
  }
}
