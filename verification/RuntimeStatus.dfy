/** The aggregate status of a compiled runtime, derived from the statuses of its jobs each time a
    worker transaction changes one. */
module RuntimeStatus {
  import opened Options

  datatype JobStatus = Queued | Dispatched | Running | Succeeded | Failed | Other(text: string)

  datatype Job = Job(status: JobStatus, attemptCount: int, errorCode: Option<string>)

  datatype Summary = Summary(
    jobCount: int, queued: int, dispatched: int, running: int, succeeded: int, failed: int)

  /** The stored row of a compiled runtime. */
  datatype Runtime = Runtime(
    compileStatus: string, dispatchStatus: string, summary: Summary,
    lastErrorCode: Option<string>, lastErrorMessage: Option<string>)

  function Count(jobs: seq<Job>, status: JobStatus): nat {
    if jobs == [] then 0 else (if jobs[0].status == status then 1 else 0) + Count(jobs[1..], status)
  }

  function BuildSummary(jobs: seq<Job>): Summary {
    Summary(|jobs|, Count(jobs, Queued), Count(jobs, Dispatched), Count(jobs, Running),
            Count(jobs, Succeeded), Count(jobs, Failed))
  }

  function DeriveCompileStatus(s: Summary, current: string): string {
    if s.jobCount == 0 then current
    else if s.failed > 0 then "failed"
    else if s.succeeded == s.jobCount then "succeeded"
    else if s.queued + s.dispatched + s.running > 0 then "running"
    else current
  }

  function DispatchedOrBeyond(s: Summary): int {
    s.dispatched + s.running + s.succeeded + s.failed
  }

  function DeriveDispatchStatus(s: Summary, current: string): string {
    if s.jobCount == 0 then current
    else if DispatchedOrBeyond(s) == 0 then "not_dispatched"
    else if DispatchedOrBeyond(s) < s.jobCount then "partially_dispatched"
    else "fully_dispatched"
  }

  // ----- what the counters say

  predicate Known(jobs: seq<Job>) {
    forall job | job in jobs :: !job.status.Other?
  }

  function OtherCount(jobs: seq<Job>): nat {
    if jobs == [] then 0 else (if jobs[0].status.Other? then 1 else 0) + OtherCount(jobs[1..])
  }

  /** The five counters and the jobs in any other status partition the job list. */
  lemma {:induction false} CountersPartition(jobs: seq<Job>)
    ensures var s := BuildSummary(jobs);
      s.queued + s.dispatched + s.running + s.succeeded + s.failed + OtherCount(jobs) == |jobs|
    ensures OtherCount(jobs) == 0 <==> Known(jobs)
  {
    if jobs != [] {
      CountersPartition(jobs[1..]);
      assert jobs == [jobs[0]] + jobs[1..];
    }
  }

  lemma {:induction false} CountMeans(jobs: seq<Job>, status: JobStatus)
    ensures Count(jobs, status) <= |jobs|
    ensures Count(jobs, status) > 0 <==> exists job | job in jobs :: job.status == status
    ensures Count(jobs, status) == |jobs| <==> forall job | job in jobs :: job.status == status
  {
    if jobs != [] {
      CountMeans(jobs[1..], status);
      assert jobs == [jobs[0]] + jobs[1..];
      if forall job | job in jobs :: job.status == status {
        assert jobs[0] in jobs;
      }
    }
  }

  /** The compile status the jobs call for. */
  ghost function CompileStatusOf(jobs: seq<Job>): string {
    if exists job | job in jobs :: job.status.Failed? then "failed"
    else if forall job | job in jobs :: job.status.Succeeded? then "succeeded"
    else "running"
  }

  /** With known jobs the derived status is the one they call for, whatever is stored. */
  lemma CompileStatusExact(jobs: seq<Job>, current: string)
    requires jobs != [] && Known(jobs)
    ensures DeriveCompileStatus(BuildSummary(jobs), current) == CompileStatusOf(jobs)
  {
    CountersPartition(jobs);
    CountMeans(jobs, Failed);
    CountMeans(jobs, Succeeded);
  }

  /** The stored value plays no role exactly when there are jobs and, unless one failed, they all
      succeeded or one is queued, dispatched or running. */
  lemma StoredStatusIgnored(jobs: seq<Job>, current: string)
    ensures var s := BuildSummary(jobs);
      (forall other :: DeriveCompileStatus(s, other) == DeriveCompileStatus(s, current))
      <==> jobs != [] && (s.failed > 0 || s.succeeded == |jobs| || s.queued + s.dispatched + s.running > 0)
  {
    var s := BuildSummary(jobs);
    if jobs == [] || (s.failed == 0 && s.succeeded != |jobs| && s.queued + s.dispatched + s.running == 0) {
      assert DeriveCompileStatus(s, current + "?") == current + "?" && DeriveCompileStatus(s, current) == current;
      assert |current + "?"| != |current|;
    }
  }

  // ----- refreshing

  function LastFailed(jobs: seq<Job>): Option<Job> {
    if jobs == [] then None
    else if jobs[|jobs| - 1].status.Failed? then Some(jobs[|jobs| - 1])
    else LastFailed(jobs[..|jobs| - 1])
  }

  function Refreshed(r: Runtime, jobs: seq<Job>): Runtime {
    var summary := BuildSummary(jobs);
    var compileStatus := DeriveCompileStatus(summary, r.compileStatus);
    var refreshed := r.(summary := summary, compileStatus := compileStatus,
                        dispatchStatus := DeriveDispatchStatus(summary, r.dispatchStatus));
    var failed := LastFailed(jobs);
    if failed.Some? then
      refreshed.(lastErrorCode :=
        if failed.value.errorCode.Some? && failed.value.errorCode.value != "" then failed.value.errorCode
        else r.lastErrorCode)
    else if compileStatus != "failed" then
      refreshed.(lastErrorCode := None, lastErrorMessage := None)
    else
      refreshed
  }

  // ----- what a refresh stores

  /** The job is the newest of those that failed; the list is in creation order. */
  predicate NewestFailed(jobs: seq<Job>, i: nat) {
    i < |jobs| && jobs[i].status.Failed? && forall k | i < k < |jobs| :: !jobs[k].status.Failed?
  }

  lemma {:induction false} LastFailedIsNewest(jobs: seq<Job>)
    ensures LastFailed(jobs).None? <==> forall job | job in jobs :: !job.status.Failed?
    ensures forall i: nat | NewestFailed(jobs, i) :: LastFailed(jobs) == Some(jobs[i])
  {
    if jobs != [] && !jobs[|jobs| - 1].status.Failed? {
      var last := |jobs| - 1;
      LastFailedIsNewest(jobs[..last]);
      assert jobs == jobs[..last] + [jobs[last]];
      forall i: nat | NewestFailed(jobs, i) ensures LastFailed(jobs) == Some(jobs[i]) {
        assert NewestFailed(jobs[..last], i);
      }
    }
  }

  /** When a job failed, the stored error code is that of the newest one that did, unless it has none, and the
      stored message stays. */
  lemma ErrorIsNewestFailure(r: Runtime, jobs: seq<Job>, i: nat)
    requires NewestFailed(jobs, i)
    ensures var r' := Refreshed(r, jobs);
      && r'.compileStatus == "failed"
      && (jobs[i].errorCode == None || jobs[i].errorCode == Some("") ==> r'.lastErrorCode == r.lastErrorCode)
      && (forall code | code != "" && jobs[i].errorCode == Some(code) :: r'.lastErrorCode == Some(code))
      && r'.lastErrorMessage == r.lastErrorMessage
  {
    LastFailedIsNewest(jobs);
    CountMeans(jobs, Failed);
    assert jobs[i] in jobs;
  }

  /** When none failed, the error is cleared, but for a row that was failed already and whose jobs, if it has any,
      neither all succeeded nor are under way. */
  lemma ErrorIsCleared(r: Runtime, jobs: seq<Job>)
    requires forall job | job in jobs :: !job.status.Failed?
    ensures var r' := Refreshed(r, jobs);
      if r.compileStatus == "failed"
         && (forall job | job in jobs :: job.status.Succeeded? || job.status.Other?)
         && (jobs == [] || exists job | job in jobs :: job.status.Other?)
      then r'.lastErrorCode == r.lastErrorCode && r'.lastErrorMessage == r.lastErrorMessage
      else r'.lastErrorCode == None && r'.lastErrorMessage == None
  {
    LastFailedIsNewest(jobs);
    CountMeans(jobs, Failed);
    CountMeans(jobs, Succeeded);
    CountMeans(jobs, Queued);
    CountMeans(jobs, Dispatched);
    CountMeans(jobs, Running);
  }

  /** Each counter is the number of places with that status. */
  lemma CountersCount(jobs: seq<Job>)
    ensures var s := BuildSummary(jobs);
      && s.jobCount == |jobs|
      && s.queued == |set i | 0 <= i < |jobs| && jobs[i].status == Queued|
      && s.dispatched == |set i | 0 <= i < |jobs| && jobs[i].status == Dispatched|
      && s.running == |set i | 0 <= i < |jobs| && jobs[i].status == Running|
      && s.succeeded == |set i | 0 <= i < |jobs| && jobs[i].status == Succeeded|
      && s.failed == |set i | 0 <= i < |jobs| && jobs[i].status == Failed|
  {
    CountsPlaces(jobs, Queued);
    CountsPlaces(jobs, Dispatched);
    CountsPlaces(jobs, Running);
    CountsPlaces(jobs, Succeeded);
    CountsPlaces(jobs, Failed);
  }

  lemma {:induction false} CountGrows(jobs: seq<Job>, job: Job, status: JobStatus)
    ensures Count(jobs + [job], status) == Count(jobs, status) + if job.status == status then 1 else 0
  {
    if jobs != [] {
      CountGrows(jobs[1..], job, status);
      assert (jobs + [job])[1..] == jobs[1..] + [job];
    }
  }

  function PlacesWith(jobs: seq<Job>, status: JobStatus): set<int> {
    set i | 0 <= i < |jobs| && jobs[i].status == status
  }

  lemma PlacesGrow(jobs: seq<Job>, job: Job, status: JobStatus)
    ensures PlacesWith(jobs + [job], status) ==
      PlacesWith(jobs, status) + if job.status == status then {|jobs|} else {}
  {
    var all := jobs + [job];
    assert forall i | 0 <= i < |jobs| :: all[i] == jobs[i];
    assert all[|jobs|] == job;
  }

  lemma {:induction false} CountsPlaces(jobs: seq<Job>, status: JobStatus)
    ensures Count(jobs, status) == |PlacesWith(jobs, status)|
  {
    if jobs != [] {
      var init, last := jobs[..|jobs| - 1], jobs[|jobs| - 1];
      CountsPlaces(init, status);
      CountGrows(init, last, status);
      PlacesGrow(init, last, status);
      assert jobs == init + [last];
    }
  }

  /** What a worker transaction writes to the runtime row before it refreshes it. */
  datatype Mark = MarkRunning | MarkNothing | MarkFailed(code: string, message: string)

  function Marked(r: Runtime, mark: Mark): Runtime {
    match mark
    case MarkRunning => r.(compileStatus := "running")
    case MarkNothing => r
    case MarkFailed(code, message) =>
      r.(compileStatus := "failed", lastErrorCode := Some(code), lastErrorMessage := Some(message))
  }

  /** The compile status a worker transaction stores, whatever was stored before: that of the jobs, where a failed one
      or all succeeded or one under way tell, and the one the transaction marks otherwise. */
  lemma MarkDecidesOtherwise(r: Runtime, jobs: seq<Job>, mark: Mark)
    ensures var status := Refreshed(Marked(r, mark), jobs).compileStatus;
      if exists job | job in jobs :: job.status.Failed? then status == "failed"
      else if jobs != [] && forall job | job in jobs :: job.status.Succeeded? then status == "succeeded"
      else if exists job | job in jobs :: job.status.Queued? || job.status.Dispatched? || job.status.Running?
      then status == "running"
      else
        && (mark.MarkRunning? ==> status == "running")
        && (mark.MarkFailed? ==> status == "failed")
        && (mark.MarkNothing? ==> status == r.compileStatus)
  {
    CountMeans(jobs, Failed);
    CountMeans(jobs, Succeeded);
    CountMeans(jobs, Queued);
    CountMeans(jobs, Dispatched);
    CountMeans(jobs, Running);
  }

  // ----- worker transactions

  /** The jobs of one runtime, in creation order, and the runtime row. */
  datatype State = State(jobs: seq<Job>, runtime: Runtime)

  datatype Step =
    | Start(job: nat)
    | Succeed(job: nat)
    | Fail(job: nat, code: string, message: string)
    | FailUnknownJob(code: string, message: string)

  predicate Enabled(s: State, step: Step) {
    step.FailUnknownJob? || step.job < |s.jobs|
  }

  function NewJobs(jobs: seq<Job>, step: Step): seq<Job>
    requires step.FailUnknownJob? || step.job < |jobs|
  {
    match step
    case Start(i) => jobs[i := Job(Running, jobs[i].attemptCount + 1, None)]
    case Succeed(i) => jobs[i := jobs[i].(status := Succeeded)]
    case Fail(i, code, _) => jobs[i := jobs[i].(status := Failed, errorCode := Some(code))]
    case FailUnknownJob(_, _) => jobs
  }

  function MarkOf(step: Step): Mark {
    match step
    case Start(_) => MarkRunning
    case Succeed(_) => MarkNothing
    case Fail(_, code, message) => MarkFailed(code, message)
    case FailUnknownJob(code, message) => MarkFailed(code, message)
  }

  function Next(s: State, step: Step): State
    requires Enabled(s, step)
  {
    var jobs := NewJobs(s.jobs, step);
    State(jobs, Refreshed(Marked(s.runtime, MarkOf(step)), jobs))
  }

  ghost predicate IsRun(s: State, steps: seq<Step>)
    decreases |steps|
  {
    steps == [] || (Enabled(s, steps[0]) && IsRun(Next(s, steps[0]), steps[1..]))
  }

  ghost function After(s: State, steps: seq<Step>): State
    requires IsRun(s, steps)
    decreases |steps|
  {
    if steps == [] then s else After(Next(s, steps[0]), steps[1..])
  }

  /** Runs can be joined. */
  lemma {:induction false} JoinRuns(s: State, steps: seq<Step>, more: seq<Step>)
    requires IsRun(s, steps) && IsRun(After(s, steps), more)
    ensures IsRun(s, steps + more) && After(s, steps + more) == After(After(s, steps), more)
    decreases |steps|
  {
    if steps == [] {
      assert steps + more == more;
    } else {
      var all, next := steps + more, Next(s, steps[0]);
      assert all[0] == steps[0] && all[1..] == steps[1..] + more;
      JoinRuns(next, steps[1..], more);
      assert IsRun(s, all) && After(s, all) == After(next, all[1..]);
    }
  }

  /** A job's failure leaves its message in the runtime row, but its code only when no newer job failed with
      another one: the row may pair this message with the code of a newer failure. */
  lemma FailureIsShown(s: State, i: nat, code: string, message: string, newest: nat)
    requires i < |s.jobs| && code != "" && NewestFailed(s.jobs[i := s.jobs[i].(status := Failed)], newest)
    ensures var r' := Next(s, Fail(i, code, message)).runtime;
      && r'.lastErrorMessage == Some(message)
      && (r'.lastErrorCode == Some(code) <==> newest == i || !Given(s.jobs[newest].errorCode)
                                              || s.jobs[newest].errorCode == Some(code))
      && (newest != i && Given(s.jobs[newest].errorCode) ==> r'.lastErrorCode == s.jobs[newest].errorCode)
  {
    var jobs := NewJobs(s.jobs, Fail(i, code, message));
    assert NewestFailed(jobs, newest) by {
      assert forall k | 0 <= k < |jobs| :: jobs[k].status == s.jobs[i := s.jobs[i].(status := Failed)][k].status;
    }
    ErrorIsNewestFailure(Marked(s.runtime, MarkFailed(code, message)), jobs, newest);
  }

  // ----- what the counters of dispatched jobs say

  predicate Beyond(status: JobStatus) {
    status.Dispatched? || status.Running? || status.Succeeded? || status.Failed?
  }

  function BeyondCount(jobs: seq<Job>): nat {
    if jobs == [] then 0 else (if Beyond(jobs[0].status) then 1 else 0) + BeyondCount(jobs[1..])
  }

  lemma {:induction false} BeyondIsCounted(jobs: seq<Job>)
    ensures DispatchedOrBeyond(BuildSummary(jobs)) == BeyondCount(jobs) <= |jobs|
  {
    if jobs != [] {
      BeyondIsCounted(jobs[1..]);
    }
  }

  lemma {:induction false} BeyondMeans(jobs: seq<Job>)
    ensures BeyondCount(jobs) <= |jobs|
    ensures BeyondCount(jobs) == 0 <==> forall job | job in jobs :: !Beyond(job.status)
    ensures BeyondCount(jobs) == |jobs| <==> forall job | job in jobs :: Beyond(job.status)
  {
    if jobs != [] {
      var first, rest := jobs[0], jobs[1..];
      BeyondMeans(rest);
      assert forall job :: job in jobs <==> job == first || job in rest;
    }
  }

  /** The dispatch status the jobs call for. */
  ghost function DispatchStatusOf(jobs: seq<Job>): string {
    if forall job | job in jobs :: !Beyond(job.status) then "not_dispatched"
    else if forall job | job in jobs :: Beyond(job.status) then "fully_dispatched"
    else "partially_dispatched"
  }

  /** With a job in the runtime the derived dispatch status is the one the jobs call for, whatever
      is stored. */
  lemma DispatchStatusExact(jobs: seq<Job>, current: string)
    requires jobs != []
    ensures DeriveDispatchStatus(BuildSummary(jobs), current) == DispatchStatusOf(jobs)
  {
    BeyondIsCounted(jobs);
    BeyondMeans(jobs);
  }

  // ----- whole runs of worker transactions

  /** The stored statuses are the ones the jobs call for. */
  ghost predicate IsCurrent(r: Runtime, jobs: seq<Job>) {
    && r.summary == BuildSummary(jobs)
    && r.compileStatus == CompileStatusOf(jobs)
    && r.dispatchStatus == DispatchStatusOf(jobs)
  }

  ghost predicate Current(s: State) {
    IsCurrent(s.runtime, s.jobs)
  }

  lemma RefreshMakesCurrent(r: Runtime, jobs: seq<Job>)
    requires jobs != [] && Known(jobs)
    ensures IsCurrent(Refreshed(r, jobs), jobs)
  {
    CompileStatusExact(jobs, r.compileStatus);
    DispatchStatusExact(jobs, r.dispatchStatus);
  }

  lemma StepKeepsKnown(s: State, step: Step)
    requires Enabled(s, step) && Known(s.jobs)
    ensures Known(Next(s, step).jobs) && |Next(s, step).jobs| == |s.jobs|
  {
    var jobs := NewJobs(s.jobs, step);
    forall job | job in jobs ensures !job.status.Other? {
      var i :| 0 <= i < |jobs| && jobs[i] == job;
      assert s.jobs[i] in s.jobs;
    }
  }

  lemma StepMakesCurrent(s: State, step: Step)
    requires Enabled(s, step) && s.jobs != [] && Known(s.jobs)
    ensures var s' := Next(s, step);
      Current(s') && Known(s'.jobs) && |s'.jobs| == |s.jobs|
  {
    StepKeepsKnown(s, step);
    RefreshMakesCurrent(Marked(s.runtime, MarkOf(step)), NewJobs(s.jobs, step));
  }

  /** After any run of at least one worker transaction over the jobs of a runtime, the stored
      summary and statuses are those the jobs call for, whatever was stored before. */
  lemma {:induction false} RunIsCurrent(s: State, steps: seq<Step>)
    requires IsRun(s, steps) && steps != [] && s.jobs != [] && Known(s.jobs)
    ensures Current(After(s, steps)) && |After(s, steps).jobs| == |s.jobs|
    decreases |steps|
  {
    StepMakesCurrent(s, steps[0]);
    if |steps| > 1 {
      RunIsCurrent(Next(s, steps[0]), steps[1..]);
    }
  }

  lemma {:induction false} BeyondGrows(jobs: seq<Job>, jobs': seq<Job>)
    requires |jobs| == |jobs'|
    requires forall i | 0 <= i < |jobs| :: Beyond(jobs[i].status) ==> Beyond(jobs'[i].status)
    ensures BeyondCount(jobs) <= BeyondCount(jobs')
  {
    if jobs != [] {
      BeyondGrows(jobs[1..], jobs'[1..]);
    }
  }

  function Rank(dispatchStatus: string): int {
    if dispatchStatus == "not_dispatched" then 0
    else if dispatchStatus == "partially_dispatched" then 1
    else 2
  }

  lemma {:induction false} RunKeepsBeyond(s: State, steps: seq<Step>)
    requires IsRun(s, steps)
    ensures |After(s, steps).jobs| == |s.jobs| && BeyondCount(s.jobs) <= BeyondCount(After(s, steps).jobs)
    decreases |steps|
  {
    if steps != [] {
      BeyondGrows(s.jobs, NewJobs(s.jobs, steps[0]));
      RunKeepsBeyond(Next(s, steps[0]), steps[1..]);
    }
  }

  /** Over a fixed set of jobs no run of worker transactions moves the dispatch status backwards. */
  lemma DispatchNeverRegresses(s: State, steps: seq<Step>)
    requires IsRun(s, steps) && s.jobs != [] && Known(s.jobs) && Current(s)
    ensures Rank(s.runtime.dispatchStatus) <= Rank(After(s, steps).runtime.dispatchStatus)
  {
    if steps != [] {
      RunIsCurrent(s, steps);
      RunKeepsBeyond(s, steps);
      BeyondMeans(s.jobs);
      BeyondMeans(After(s, steps).jobs);
    }
  }

  // ----- when a settled compile status stays

  predicate FailedElsewhere(jobs: seq<Job>, step: Step) {
    exists k | 0 <= k < |jobs| :: jobs[k].status.Failed? && (step.FailUnknownJob? || k != step.job)
  }

  /** A worker transaction leaves a settled runtime as it is: after success it only repeats a success
      or fails to find its job; after a failure it fails again or another job stays failed. */
  predicate KeepsSettled(jobs: seq<Job>, step: Step) {
    && ((forall job | job in jobs :: job.status.Succeeded?) ==> step.Succeed? || step.FailUnknownJob?)
    && ((exists job | job in jobs :: job.status.Failed?) ==>
          step.Fail? || step.FailUnknownJob? || FailedElsewhere(jobs, step))
  }

  predicate StaysSettled(before: string, after: string) {
    before != "running" ==> after == before
  }

  lemma SucceededStays(s: State, step: Step)
    requires Enabled(s, step) && s.jobs != [] && Known(s.jobs) && Current(s)
    requires s.runtime.compileStatus == "succeeded"
    ensures Next(s, step).runtime.compileStatus == "succeeded" <==> step.Succeed? || step.FailUnknownJob?
  {
    StepMakesCurrent(s, step);
    var jobs := NewJobs(s.jobs, step);
    if step.Succeed? {
      forall job | job in jobs ensures job.status.Succeeded? {
        assert forall i | 0 <= i < |s.jobs| :: s.jobs[i] in s.jobs;
      }
    } else if !step.FailUnknownJob? {
      assert jobs[step.job] in jobs;
    }
  }

  lemma FailedStays(s: State, step: Step)
    requires Enabled(s, step) && s.jobs != [] && Known(s.jobs) && Current(s)
    requires s.runtime.compileStatus == "failed"
    ensures Next(s, step).runtime.compileStatus == "failed" <==>
      step.Fail? || step.FailUnknownJob? || FailedElsewhere(s.jobs, step)
  {
    StepMakesCurrent(s, step);
    var jobs := NewJobs(s.jobs, step);
    if step.Fail? {
      assert jobs[step.job] in jobs;
    } else if FailedElsewhere(s.jobs, step) {
      var k :| 0 <= k < |s.jobs| && s.jobs[k].status.Failed? && (step.FailUnknownJob? || k != step.job);
      assert jobs[k] in jobs;
    }
  }

  /** One worker transaction changes a settled compile status, from a current row, exactly when it does
      not meet the condition on the jobs. */
  lemma SettledExactly(s: State, step: Step)
    requires Enabled(s, step) && s.jobs != [] && Known(s.jobs) && Current(s)
    ensures StaysSettled(s.runtime.compileStatus, Next(s, step).runtime.compileStatus) <==> KeepsSettled(s.jobs, step)
  {
    assert s.jobs[0] in s.jobs;
    if s.runtime.compileStatus == "succeeded" {
      SucceededStays(s, step);
    } else if s.runtime.compileStatus == "failed" {
      FailedStays(s, step);
    }
  }

  /** Every transaction of the list meets the condition on the jobs it finds. */
  predicate AllKeepSettled(jobs: seq<Job>, steps: seq<Step>)
    requires forall step | step in steps :: step.FailUnknownJob? || step.job < |jobs|
    decreases |steps|
  {
    steps == [] || (KeepsSettled(jobs, steps[0]) && AllKeepSettled(NewJobs(jobs, steps[0]), steps[1..]))
  }

  ghost predicate NeverUnsettled(s: State, steps: seq<Step>)
    requires IsRun(s, steps)
    decreases |steps|
  {
    steps == [] ||
    (var s' := Next(s, steps[0]);
     StaysSettled(s.runtime.compileStatus, s'.runtime.compileStatus) && NeverUnsettled(s', steps[1..]))
  }

  lemma {:induction false} RunEnables(s: State, steps: seq<Step>)
    requires IsRun(s, steps)
    ensures forall step | step in steps :: step.FailUnknownJob? || step.job < |s.jobs|
    decreases |steps|
  {
    if steps != [] {
      RunEnables(Next(s, steps[0]), steps[1..]);
      assert steps == [steps[0]] + steps[1..];
    }
  }

  /** A run of worker transactions never changes a settled compile status exactly when each of its
      transactions meets the condition, which speaks of the jobs and the transactions only. */
  lemma {:induction false} RunSettledExactly(s: State, steps: seq<Step>)
    requires IsRun(s, steps) && s.jobs != [] && Known(s.jobs) && Current(s)
    ensures forall step | step in steps :: step.FailUnknownJob? || step.job < |s.jobs|
    ensures NeverUnsettled(s, steps) <==> AllKeepSettled(s.jobs, steps)
    decreases |steps|
  {
    RunEnables(s, steps);
    if steps != [] {
      SettledExactly(s, steps[0]);
      StepMakesCurrent(s, steps[0]);
      RunSettledExactly(Next(s, steps[0]), steps[1..]);
    }
  }

  /** The condition can fail: a worker that starts a finished job again takes the runtime from
      "succeeded" to "running". */
  lemma CompileStatusRegresses(r: Runtime)
    ensures var s := State([Job(Succeeded, 1, None)], Refreshed(r, [Job(Succeeded, 1, None)]));
      s.runtime.compileStatus == "succeeded" && Next(s, Start(0)).runtime.compileStatus == "running"
  {
  }

  // ----- the updates as the worker makes them

  class Session {
    var jobs: seq<Job>
    var runtime: Runtime

    constructor (jobs: seq<Job>, runtime: Runtime)
      ensures Snapshot() == State(jobs, runtime)
    {
      this.jobs, this.runtime := jobs, runtime;
    }

    function Snapshot(): State
      reads this
    {
      State(jobs, runtime)
    }

    method RefreshRuntimeStatus()
      modifies this`runtime
      ensures runtime == Refreshed(old(runtime), jobs)
    {
      var summary := BuildSummary(jobs);
      runtime := runtime.(summary := summary);
      runtime := runtime.(dispatchStatus := DeriveDispatchStatus(summary, runtime.dispatchStatus));
      runtime := runtime.(compileStatus := DeriveCompileStatus(summary, runtime.compileStatus));
      var failed := LastFailed(jobs);
      if failed.Some? {
        if failed.value.errorCode.Some? && failed.value.errorCode.value != "" {
          runtime := runtime.(lastErrorCode := failed.value.errorCode);
        }
      } else if runtime.compileStatus != "failed" {
        runtime := runtime.(lastErrorCode := None);
        runtime := runtime.(lastErrorMessage := None);
      }
    }
  }
}
