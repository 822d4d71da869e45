/** Which job a claim picks: the candidate window the database answers with, and the first
    fitting candidate inside it. */
module ClaimSelection {
  import opened Options
  import opened RuntimeTables
  import opened LeaseProtocol
  import opened LeaseInvariant
  import opened LeaseSteps

  const CANDIDATE_WINDOW := 25

  /** Higher priority first, then older first. */
  predicate NotAfter(a: Job, b: Job) {
    a.priority > b.priority || (a.priority == b.priority && a.createdAt <= b.createdAt)
  }

  /** A job the query can see: it meets the WHERE clause and no other transaction has it locked. */
  predicate Visible(jobs: map<Id, Job>, q: ClaimRequest, locked: set<Id>, jobId: Id) {
    jobId in jobs && jobId !in locked && Eligible(jobs[jobId], q)
  }

  predicate Ordered(jobs: map<Id, Job>, w: seq<Id>)
    requires forall j | j in w :: j in jobs
  {
    forall i, k | 0 <= i < k < |w| :: w[i] != w[k] && NotAfter(jobs[w[i]], jobs[w[k]])
  }

  /** An answer to the ordered, limited, lock-skipping query. */
  ghost predicate IsWindow(jobs: map<Id, Job>, q: ClaimRequest, locked: set<Id>, w: seq<Id>) {
    && |w| <= CANDIDATE_WINDOW
    && (forall j | j in w :: Visible(jobs, q, locked, j))
    && Ordered(jobs, w)
    && (forall j | Visible(jobs, q, locked, j) && j !in w ::
          |w| == CANDIDATE_WINDOW && forall i | i in w :: NotAfter(jobs[i], jobs[j]))
  }

  /** The claim takes a fitting candidate that no other fitting candidate precedes; when the window
      is not full, none of all visible jobs does. It takes nothing exactly when nothing fits. */
  lemma {:induction false} PicksBestFit(jobs: map<Id, Job>, q: ClaimRequest, locked: set<Id>, w: seq<Id>)
    requires IsWindow(jobs, q, locked, w)
    ensures var choice := FirstFit(jobs, w, q.tags);
      && (choice.Some? ==>
            && Visible(jobs, q, locked, choice.value) && Fits(jobs[choice.value], q.tags)
            && forall j | Visible(jobs, q, locked, j) && Fits(jobs[j], q.tags) ::
                 NotAfter(jobs[choice.value], jobs[j]))
      && (choice.None? <==> forall j | j in w :: !Fits(jobs[j], q.tags))
      && (|w| < CANDIDATE_WINDOW ==>
            (choice.None? <==> forall j | Visible(jobs, q, locked, j) :: !Fits(jobs[j], q.tags)))
  {
    FirstFitPrecedes(jobs, w, q.tags);
  }

  lemma {:induction false} FirstFitPrecedes(jobs: map<Id, Job>, w: seq<Id>, tags: seq<string>)
    requires (forall j | j in w :: j in jobs) && Ordered(jobs, w)
    ensures var choice := FirstFit(jobs, w, tags);
      choice.Some? ==> forall j | j in w && Fits(jobs[j], tags) :: NotAfter(jobs[choice.value], jobs[j])
  {
    if w != [] && !Fits(jobs[w[0]], tags) {
      forall i, k | 0 <= i < k < |w[1..]| ensures NotAfter(jobs[w[1..][i]], jobs[w[1..][k]]) {
        assert w[1..][i] == w[i + 1] && w[1..][k] == w[k + 1];
      }
      FirstFitPrecedes(jobs, w[1..], tags);
    }
  }

  /** A worker that declares no tags gets the head of the window whatever tags that job requires,
      so the claimed job's tags are covered exactly when the worker declares some tag or the head
      requires none. */
  lemma TagsCovered(jobs: map<Id, Job>, q: ClaimRequest, locked: set<Id>, w: seq<Id>)
    requires IsWindow(jobs, q, locked, w) && FirstFit(jobs, w, q.tags).Some?
    ensures q.tags == [] ==> FirstFit(jobs, w, q.tags) == Some(w[0])
    ensures (forall tag | tag in jobs[FirstFit(jobs, w, q.tags).value].requiredTags :: tag in q.tags)
       <==> q.tags != [] || jobs[w[0]].requiredTags == []
  {
    if q.tags == [] && jobs[w[0]].requiredTags != [] {
      assert jobs[w[0]].requiredTags[0] in jobs[w[0]].requiredTags;
    }
  }

  /** The columns of a job a claim may have: it waits for its first run or a retry, in the queue and under the
      routing key asked for if any is, and its cancellation was not requested. */
  predicate Waits(job: Job, q: ClaimRequest) {
    && job.status in {JobStatus.Queued, JobStatus.WaitingRetry}
    && job.cancelRequestedAt == None
    && (q.queueName == None || q.queueName == Some("") || q.queueName == Some(job.queueName))
    && (q.routingKey == None || q.routingKey == Some("") || q.routingKey == job.routingKey)
  }

  lemma WaitingIsEligible(job: Job, q: ClaimRequest)
    ensures Waits(job, q) <==> Eligible(job, q)
  {
  }

  /** The same in the columns' own terms. The claimed job waits in the queue and under the routing key asked for,
      is not cancelled and asks for no tag the worker lacks, unless the worker declares none; and no such job that
      nobody has locked is more urgent, or as urgent and older. */
  lemma ChosenIsMostUrgent(jobs: map<Id, Job>, q: ClaimRequest, locked: set<Id>, w: seq<Id>, chosen: Id)
    requires IsWindow(jobs, q, locked, w) && FirstFit(jobs, w, q.tags) == Some(chosen)
    ensures chosen in jobs && chosen !in locked && chosen in w
    ensures Waits(jobs[chosen], q)
    ensures q.tags != [] ==> forall tag | tag in jobs[chosen].requiredTags :: tag in q.tags
    ensures forall j |
      && j in jobs && j !in locked
      && Waits(jobs[j], q)
      && (q.tags == [] || forall tag | tag in jobs[j].requiredTags :: tag in q.tags) ::
        && jobs[chosen].priority >= jobs[j].priority
        && (jobs[chosen].priority == jobs[j].priority ==> jobs[chosen].createdAt <= jobs[j].createdAt)
  {
    PicksBestFit(jobs, q, locked, w);
    forall j | j in jobs ensures Waits(jobs[j], q) <==> Eligible(jobs[j], q) { WaitingIsEligible(jobs[j], q); }
  }

  /** At most twenty-five candidates are read, and when fewer are, they are all there are: every waiting job of the
      queue and routing key that is not cancelled and nobody has locked. */
  lemma ShortWindowIsComplete(jobs: map<Id, Job>, q: ClaimRequest, locked: set<Id>, w: seq<Id>)
    requires IsWindow(jobs, q, locked, w)
    ensures |w| <= 25
    ensures |w| < 25 ==> forall j :: j in w <==>
      && j in jobs && j !in locked
      && Waits(jobs[j], q)
  {
    forall j | j in jobs ensures Waits(jobs[j], q) <==> Eligible(jobs[j], q) { WaitingIsEligible(jobs[j], q); }
  }

  // ----- the query always has an answer

  lemma {:induction false} FirstOf(jobs: map<Id, Job>, ids: set<Id>) returns (first: Id)
    requires ids != {} && ids <= jobs.Keys
    ensures first in ids && forall j | j in ids :: NotAfter(jobs[first], jobs[j])
    decreases |ids|
  {
    first :| first in ids;
    var rest := ids - {first};
    if rest != {} {
      var other := FirstOf(jobs, rest);
      if !NotAfter(jobs[first], jobs[other]) {
        first := other;
      }
    }
  }

  lemma {:induction false} OrderedListing(jobs: map<Id, Job>, ids: set<Id>) returns (w: seq<Id>)
    requires ids <= jobs.Keys
    ensures forall j :: j in w <==> j in ids
    ensures Ordered(jobs, w)
    decreases |ids|
  {
    if ids == {} {
      w := [];
    } else {
      var first := FirstOf(jobs, ids);
      var rest := OrderedListing(jobs, ids - {first});
      w := [first] + rest;
    }
  }

  /** A listing of all visible jobs, cut at the window's size, is an answer. */
  lemma CutIsWindow(jobs: map<Id, Job>, q: ClaimRequest, locked: set<Id>, all: seq<Id>) returns (w: seq<Id>)
    requires forall j | j in all :: j in jobs && Visible(jobs, q, locked, j)
    requires forall j | Visible(jobs, q, locked, j) :: j in all
    requires Ordered(jobs, all)
    ensures IsWindow(jobs, q, locked, w) && w <= all
    ensures |w| == if |all| < CANDIDATE_WINDOW then |all| else CANDIDATE_WINDOW
  {
    w := if |all| < CANDIDATE_WINDOW then all else all[..CANDIDATE_WINDOW];
    forall j | Visible(jobs, q, locked, j) && j !in w
      ensures |w| == CANDIDATE_WINDOW && forall i | i in w :: NotAfter(jobs[i], jobs[j])
    {
      var k :| 0 <= k < |all| && all[k] == j;
      assert k >= |w|;
    }
  }

  function AllVisible(jobs: map<Id, Job>, q: ClaimRequest, locked: set<Id>): set<Id> {
    set j | j in jobs && Visible(jobs, q, locked, j)
  }

  lemma WindowExists(jobs: map<Id, Job>, q: ClaimRequest, locked: set<Id>) returns (w: seq<Id>)
    ensures IsWindow(jobs, q, locked, w)
  {
    var all := OrderedListing(jobs, AllVisible(jobs, q, locked));
    w := CutIsWindow(jobs, q, locked, all);
  }

  /** A window that lists some jobs before all other visible ones. */
  lemma WindowFrom(jobs: map<Id, Job>, q: ClaimRequest, locked: set<Id>, front: set<Id>) returns (w: seq<Id>)
    requires front <= AllVisible(jobs, q, locked)
    requires forall j, k | j in front && Visible(jobs, q, locked, k) && k !in front :: NotAfter(jobs[j], jobs[k])
    ensures IsWindow(jobs, q, locked, w)
    ensures |front| >= CANDIDATE_WINDOW ==> forall j | j in w :: j in front
    ensures |front| <= CANDIDATE_WINDOW ==> forall j | j in front :: j in w
  {
    var first := OrderedListing(jobs, front);
    var second := OrderedListing(jobs, AllVisible(jobs, q, locked) - front);
    ListingSize(first, front);
    w := CutIsWindow(jobs, q, locked, first + second);
    assert w <= first + second;
    if |front| <= CANDIDATE_WINDOW {
      assert first <= w;
    } else {
      assert w <= first;
    }
  }

  // ----- when a full window hides every fitting job

  predicate VisibleFit(jobs: map<Id, Job>, q: ClaimRequest, locked: set<Id>, jobId: Id) {
    Visible(jobs, q, locked, jobId) && Fits(jobs[jobId], q.tags)
  }

  predicate VisibleMisfit(jobs: map<Id, Job>, q: ClaimRequest, locked: set<Id>, jobId: Id) {
    Visible(jobs, q, locked, jobId) && !Fits(jobs[jobId], q.tags)
  }

  /** The visible jobs that do not fit and come no later than any that does. */
  ghost function Ahead(jobs: map<Id, Job>, q: ClaimRequest, locked: set<Id>): set<Id> {
    set j | j in jobs && VisibleMisfit(jobs, q, locked, j)
            && forall k | VisibleFit(jobs, q, locked, k) :: NotAfter(jobs[j], jobs[k])
  }

  /** The visible jobs that do not fit and come before all that do. */
  ghost function StrictlyAhead(jobs: map<Id, Job>, q: ClaimRequest, locked: set<Id>): set<Id> {
    set j | j in jobs && VisibleMisfit(jobs, q, locked, j)
            && forall k | VisibleFit(jobs, q, locked, k) :: !NotAfter(jobs[k], jobs[j])
  }

  ghost predicate Hides(jobs: map<Id, Job>, q: ClaimRequest, locked: set<Id>, w: seq<Id>) {
    IsWindow(jobs, q, locked, w) && FirstFit(jobs, w, q.tags).None?
  }

  lemma HidingWindowIsAhead(jobs: map<Id, Job>, q: ClaimRequest, locked: set<Id>, fit: Id, w: seq<Id>)
    requires VisibleFit(jobs, q, locked, fit) && Hides(jobs, q, locked, w)
    ensures |Ahead(jobs, q, locked)| >= CANDIDATE_WINDOW
  {
    var members := set j | j in w;
    assert fit !in w;
    ListingSize(w, members);
    SubsetSize(members, Ahead(jobs, q, locked));
  }

  /** Some answer of the query leaves the claim without a job although a visible one fits, exactly when
      at least a window's worth of jobs that do not fit come no later than every one that does. */
  lemma MayHideExactly(jobs: map<Id, Job>, q: ClaimRequest, locked: set<Id>, fit: Id)
    requires VisibleFit(jobs, q, locked, fit)
    ensures (exists w :: Hides(jobs, q, locked, w)) <==> |Ahead(jobs, q, locked)| >= CANDIDATE_WINDOW
  {
    var ahead := Ahead(jobs, q, locked);
    if |ahead| >= CANDIDATE_WINDOW {
      var w := WindowFrom(jobs, q, locked, ahead);
      assert Hides(jobs, q, locked, w);
    }
    if w :| Hides(jobs, q, locked, w) {
      HidingWindowIsAhead(jobs, q, locked, fit, w);
    }
  }

  lemma StrictWindowHides(jobs: map<Id, Job>, q: ClaimRequest, locked: set<Id>, w: seq<Id>)
    requires IsWindow(jobs, q, locked, w) && |StrictlyAhead(jobs, q, locked)| >= CANDIDATE_WINDOW
    ensures Hides(jobs, q, locked, w)
  {
    var choice, strict := FirstFit(jobs, w, q.tags), StrictlyAhead(jobs, q, locked);
    if choice.Some? {
      var members := set j | j in w;
      forall j | j in strict + {choice.value} ensures j in members {
        var answered := NotAfter(jobs[choice.value], jobs[j]);
      }
      ListingSize(w, members);
      SubsetSize(strict + {choice.value}, members);
    }
  }

  lemma FirstVisibleFit(jobs: map<Id, Job>, q: ClaimRequest, locked: set<Id>, fit: Id) returns (first: Id)
    requires VisibleFit(jobs, q, locked, fit)
    ensures VisibleFit(jobs, q, locked, first)
    ensures forall k | VisibleFit(jobs, q, locked, k) :: NotAfter(jobs[first], jobs[k])
  {
    var fits := set k | k in jobs && VisibleFit(jobs, q, locked, k);
    assert fit in fits;
    first := FirstOf(jobs, fits);
  }

  /** Every answer does so exactly when at least a window's worth of jobs that do not fit come before
      every one that does. */
  lemma MustHideExactly(jobs: map<Id, Job>, q: ClaimRequest, locked: set<Id>, fit: Id)
    requires VisibleFit(jobs, q, locked, fit)
    ensures (forall w | IsWindow(jobs, q, locked, w) :: Hides(jobs, q, locked, w))
       <==> |StrictlyAhead(jobs, q, locked)| >= CANDIDATE_WINDOW
  {
    var strict := StrictlyAhead(jobs, q, locked);
    if |strict| >= CANDIDATE_WINDOW {
      forall w | IsWindow(jobs, q, locked, w) ensures Hides(jobs, q, locked, w) {
        StrictWindowHides(jobs, q, locked, w);
      }
    } else {
      var first := FirstVisibleFit(jobs, q, locked, fit);
      var w := WindowFrom(jobs, q, locked, strict + {first});
      assert first in w && !Hides(jobs, q, locked, w);
    }
  }

  // ----- a queue that hides a fitting job, and one whose job is given away

  function Name(n: nat): string {
    seq(n, _ => 'j')
  }

  ghost function Names(k: nat): set<Id> {
    set n: nat | n < k :: Name(n)
  }

  function BusyJob(n: nat): Job {
    Job(JobStatus.Queued, if n < CANDIDATE_WINDOW then 2 else 1, 0, "default", None,
        if n < CANDIDATE_WINDOW then ["gpu"] else [], None, None, 0, 300, None, None, None, None, None)
  }

  ghost function BusyQueue(): map<Id, Job> {
    map name | name in Names(CANDIDATE_WINDOW + 1) :: BusyJob(|name|)
  }

  const CPU_CLAIM := ClaimRequest("w", ["cpu"], None, None, 1, None, 0)

  const ANY_CLAIM := CPU_CLAIM.(tags := [])

  /** It is not so that a claim finds a job whenever a visible job fits: here twenty-five urgent
      jobs that need another worker fill the window. */
  lemma WindowHidesFit()
    ensures var jobs, hidden := BusyQueue(), Name(CANDIDATE_WINDOW);
      && VisibleFit(jobs, CPU_CLAIM, {}, hidden)
      && forall w | IsWindow(jobs, CPU_CLAIM, {}, w) :: FirstFit(jobs, w, CPU_CLAIM.tags).None?
  {
    var jobs, hidden := BusyQueue(), Name(CANDIDATE_WINDOW);
    assert |hidden| == CANDIDATE_WINDOW && hidden in Names(CANDIDATE_WINDOW + 1);
    forall name | name in Names(CANDIDATE_WINDOW) ensures name in StrictlyAhead(jobs, CPU_CLAIM, {}) {
      UrgentJob(name);
    }
    NamesCount(CANDIDATE_WINDOW);
    SubsetSize(Names(CANDIDATE_WINDOW), StrictlyAhead(jobs, CPU_CLAIM, {}));
    MustHideExactly(jobs, CPU_CLAIM, {}, hidden);
  }

  lemma UrgentJob(name: Id)
    requires name in Names(CANDIDATE_WINDOW)
    ensures name in BusyQueue() && BusyQueue()[name].priority == 2 && BusyQueue()[name].requiredTags == ["gpu"]
    ensures name in StrictlyAhead(BusyQueue(), CPU_CLAIM, {})
  {
    var jobs := BusyQueue();
    var n: nat :| n < CANDIDATE_WINDOW && name == Name(n);
    assert |name| == n && Name(n) in Names(CANDIDATE_WINDOW + 1);
    assert "gpu" in jobs[name].requiredTags;
    forall k | k in jobs && |k| < CANDIDATE_WINDOW ensures !Fits(jobs[k], CPU_CLAIM.tags) {
      assert "gpu" in jobs[k].requiredTags;
    }
  }

  /** A worker that declares no tags is given a job that needs a "gpu", whatever the window. */
  lemma TagsIgnored(w: seq<Id>)
    requires IsWindow(BusyQueue(), ANY_CLAIM, {}, w)
    ensures var choice := FirstFit(BusyQueue(), w, ANY_CLAIM.tags);
      choice.Some? && BusyQueue()[choice.value].requiredTags == ["gpu"]
  {
    var jobs, urgent := BusyQueue(), Name(0);
    assert urgent in Names(CANDIDATE_WINDOW);
    UrgentJob(urgent);
    assert Visible(jobs, ANY_CLAIM, {}, urgent);
    assert w != [] by {
      assert urgent in w || |w| == CANDIDATE_WINDOW;
    }
    assert w[0] in w && w[0] in jobs;
    assert NotAfter(jobs[w[0]], jobs[urgent]);
  }

  lemma {:induction false} NamesCount(k: nat)
    ensures |Names(k)| == k
  {
    if k > 0 {
      NamesCount(k - 1);
      assert Names(k) == Names(k - 1) + {Name(k - 1)};
      forall n: nat | n < k - 1 ensures Name(n) != Name(k - 1) {
        assert |Name(n)| == n && |Name(k - 1)| == k - 1;
      }
    }
  }

  lemma {:induction false} ListingSize(w: seq<Id>, members: set<Id>)
    requires forall j :: j in w <==> j in members
    requires forall i, k | 0 <= i < k < |w| :: w[i] != w[k]
    ensures |w| == |members|
  {
    if w == [] {
      assert members == {};
    } else {
      assert w == [w[0]] + w[1..];
      ListingSize(w[1..], members - {w[0]});
    }
  }

  lemma {:induction false} SubsetSize(a: set<Id>, b: set<Id>)
    requires a <= b
    ensures |a| <= |b|
  {
    if a != {} {
      var x :| x in a;
      SubsetSize(a - {x}, b - {x});
    }
  }

  // ----- when a claim succeeds

  /** Under the invariant a claim issues a job exactly when the worker is healthy enough, as far as the first
      read saw it, and has a free slot, a candidate fits, and the generated ids are new; the constraint that
      numbers the attempts of a job never refuses it. */
  lemma ClaimAcceptance(s: State, q: ClaimRequest, ids: ClaimIds, candidates: seq<Id>, now: Time, missed: bool)
    requires Inv(s) && Enabled(s, StepClaim(q, ids, candidates, now, missed))
    ensures Claim(s, q, ids, candidates, now, missed).outcome.JobClaimed? <==>
      && q.maxConcurrency > |ActiveTokens(s.leases, q.workerId)|
      && (q.workerId in s.workers && !missed ==>
            !s.workers[q.workerId].health.Draining? && !s.workers[q.workerId].health.Offline?)
      && FirstFit(s.jobs, candidates, q.tags).Some?
      && ids.token !in s.leases && ids.attemptId !in s.attempts
      && (forall t | t in s.leases :: s.leases[t].leaseId != ids.leaseId)
      && q.maxExtensions >= 0
  {
    if q.workerId !in s.workers {
      UnknownWorkerIsFree(s, q.workerId);
    }
    var choice := FirstFit(s.jobs, candidates, q.tags);
    if choice.Some? {
      assert JobConsistent(s, choice.value);
      forall a | a in s.attempts
        ensures !(s.attempts[a].jobId == choice.value && s.attempts[a].index == s.jobs[choice.value].attemptCount + 1)
      {
        assert AttemptConsistent(s, a);
      }
    }
  }
}
