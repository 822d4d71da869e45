/** What every sequence of worker runs keeps between the asset table and the object store, through
    provider failures, storage failures and crashes. One worker at a time handles an object key, and
    nothing else writes the store. */
module AssetRuns {
  import opened Options
  import opened AssetWorker
  import R = RuntimeStatus

  ghost predicate OneRowPerPlace(assets: seq<Asset>) {
    forall i, k | 0 <= i < k < |assets| :: assets[i].place != assets[k].place
  }

  /** A materialized row has its object, and its size and content type are the object's. */
  predicate Agrees(row: Asset, objects: map<Place, Object>) {
    row.status == Materialized ==>
      && row.place in objects
      && row.fileSize == Some(|objects[row.place].data|)
      && (objects[row.place].contentType != "" ==> row.contentType == objects[row.place].contentType)
  }

  ghost predicate Consistent(assets: seq<Asset>, objects: map<Place, Object>) {
    OneRowPerPlace(assets) && forall row | row in assets :: Agrees(row, objects)
  }

  ghost predicate Inv(s: Persisted) {
    Consistent(s.assets, s.objects)
  }

  /** Every object of the first store is in the second, byte for byte. */
  ghost predicate Extends(objects': map<Place, Object>, objects: map<Place, Object>) {
    forall p | p in objects :: p in objects' && objects'[p] == objects[p]
  }

  /** The tables have the same rows at every place but the given one. */
  ghost predicate SameElsewhere(assets: seq<Asset>, assets': seq<Asset>, place: Place) {
    forall row: Asset | row.place != place :: row in assets <==> row in assets'
  }

  /** The row at the place is materialized with the size of the object there. */
  ghost predicate IsBacked(assets: seq<Asset>, objects: map<Place, Object>, place: Place) {
    place in objects
    && exists row :: row in assets && row.place == place && row.status == Materialized
                     && row.fileSize == Some(|objects[place].data|)
  }

  // ----- the asset table

  lemma IndexOfRow(assets: seq<Asset>, row: Asset)
    requires OneRowPerPlace(assets) && row in assets
    ensures var i := IndexOf(assets, row.place); i < |assets| && assets[i] == row
  {
    var i :| 0 <= i < |assets| && assets[i] == row;
    FirstAt(assets, row.place, i);
  }

  lemma RegisterSparesOthers(assets: seq<Asset>, row: Asset, r: Asset)
    requires r.place != row.place
    ensures r in assets <==> r in Register(assets, row)
  {
    var i, after := IndexOf(assets, row.place), Register(assets, row);
    if r in assets {
      var k :| 0 <= k < |assets| && assets[k] == r;
      assert after[k] == r;
    }
    if r in after {
      var k :| 0 <= k < |after| && after[k] == r;
      assert k != i;
    }
  }

  lemma RegisterKeepsPlaces(assets: seq<Asset>, row: Asset)
    requires OneRowPerPlace(assets)
    ensures OneRowPerPlace(Register(assets, row))
  {
  }

  /** Registering touches the row at its place and no other, and adds a row only for a new place. */
  lemma RegisterTouchesOne(assets: seq<Asset>, row: Asset)
    requires OneRowPerPlace(assets)
    ensures OneRowPerPlace(Register(assets, row))
    ensures SameElsewhere(assets, Register(assets, row), row.place)
    ensures forall r | r in Register(assets, row) && r.place == row.place :: r == row.(fileSize := r.fileSize)
  {
    var after := Register(assets, row);
    RegisterKeepsPlaces(assets, row);
    forall r: Asset | r.place != row.place
      ensures r in assets <==> r in after
    {
      RegisterSparesOthers(assets, row, r);
    }
    RegisterFinds(assets, row);
    forall r | r in after && r.place == row.place
      ensures r == row.(fileSize := r.fileSize)
    {
      IndexOfRow(after, r);
    }
  }

  /** Overwriting the row found at a place leaves the other places alone. */
  lemma OverwriteTouchesOne(assets: seq<Asset>, i: nat, row: Asset)
    requires i < |assets| && row.place == assets[i].place && OneRowPerPlace(assets)
    ensures OneRowPerPlace(assets[i := row])
    ensures SameElsewhere(assets, assets[i := row], row.place)
    ensures forall r | r in assets[i := row] && r.place == row.place :: r == row
  {
    var after := assets[i := row];
    forall r: Asset | r.place != row.place
      ensures r in assets <==> r in after
    {
      if r in assets {
        var k :| 0 <= k < |assets| && assets[k] == r;
        assert after[k] == r;
      }
    }
    assert after[i] == row;
  }

  // ----- one run

  /** The place a run materializes, when its result and its sequence are good enough to name one. */
  function Target(s: Persisted, t: Task, e: Execution, w: World): Option<Place> {
    if t.plan.None? || t.jobId !in s.items then None
    else
      var item := s.items[t.jobId];
      var sequenceId := ResolveSequence(item, Some(e), w);
      if sequenceId.None? then None
      else Some(PlaceOf(s.buckets, t, t.plan.value, item.jobType, sequenceId.value, ResolveFilename(e, t.plan.value)))
  }

  /** The asset at the target is backed by the object that was there before, or else by one made of the
      payload, and nothing else in the table or the store differs. */
  ghost predicate Delivered(assets: seq<Asset>, objects: map<Place, Object>,
                            assets': seq<Asset>, objects': map<Place, Object>,
                            target: Place, payload: Option<Bytes>, how: Option<Idempotency>)
  {
    && IsBacked(assets', objects', target)
    && SameElsewhere(assets, assets', target)
    && objects'.Keys == objects.Keys + {target}
    && Extends(objects', objects)
    && how == Some(if target in objects then ObjectStoreShortCircuit else FreshWrite)
    && (target !in objects ==> Some(objects'[target].data) == payload)
  }

  /** A deposit keeps the agreement, touches one place and writes at most that one object. */
  lemma DepositKeeps(assets: seq<Asset>, objects: map<Place, Object>, row: Asset, payload: Option<Bytes>)
    requires Consistent(assets, objects) && row.status == Registered
    requires Deposit(assets, objects, row, payload).Some?
    ensures var p := Deposit(assets, objects, row, payload).value;
      && Consistent(p.assets, p.objects)
      && Delivered(assets, objects, p.assets, p.objects, row.place, payload, p.how)
  {
    var p := Deposit(assets, objects, row, payload).value;
    var registered := Register(assets, row);
    var i := IndexOf(registered, row.place);
    RegisterFinds(assets, row);
    RegisterTouchesOne(assets, row);
    var backed := Backed(registered[i], p.objects[row.place]);
    OverwriteTouchesOne(registered, i, backed);
    assert p.assets == registered[i := backed];
    assert p.assets[i] == backed;
  }

  lemma PrepareKeeps(s: Persisted, t: Task, item: WorkItem, e: Execution, w: World)
    requires Inv(s) && t.jobId in s.items && s.items[t.jobId] == item
    requires Prepare(s, t, item, e, w).Some?
    ensures var p := Prepare(s, t, item, e, w).value;
      && Consistent(p.assets, p.objects)
      && Extends(p.objects, s.objects)
      && (t.plan.None? ==> p.assets == s.assets && p.objects == s.objects && p.how.None?)
      && (t.plan.Some? ==>
        var target := Target(s, t, e, w);
        && target.Some?
        && Delivered(s.assets, s.objects, p.assets, p.objects, target.value, ResolvePayload(e, t.plan.value), p.how))
  {
    if t.plan.Some? {
      var sequenceId := ResolveSequence(item, Some(e), w).value;
      DepositKeeps(s.assets, s.objects,
                   NewRow(s.buckets, t, t.plan.value, item.jobType, sequenceId, ResolveFilename(e, t.plan.value),
                          ResolveContentType(e, t.plan.value), Registered),
                   ResolvePayload(e, t.plan.value));
    }
  }

  /** The failure handler marks one row failed and touches no other. */
  lemma RecoverKeeps(s: Persisted, t: Task, code: string, execution: Option<Execution>, w: World)
    requires Inv(s)
    ensures Inv(Recover(s, t, code, execution, w).0)
    ensures Recover(s, t, code, execution, w).0.objects == s.objects
  {
    if w.handlerCommits && t.jobId in s.items && t.plan.Some? {
      var item := s.items[t.jobId];
      var sequenceId := ResolveSequence(item, execution, w);
      if sequenceId.Some? {
        RegisterTouchesOne(s.assets, NewRow(s.buckets, t, t.plan.value, item.jobType, sequenceId.value,
                                            t.plan.value.filename, t.plan.value.contentType, Failed));
      }
    }
  }

  /** An object more in the store, with or without a row, does not disturb the rows. */
  lemma ObjectsMayGrow(assets: seq<Asset>, objects: map<Place, Object>, objects': map<Place, Object>)
    requires Consistent(assets, objects) && Extends(objects', objects)
    ensures Consistent(assets, objects')
  {
  }

  lemma DeliverKeeps(s: Persisted, t: Task, item: WorkItem, e: Execution, w: World)
    requires Inv(s) && t.jobId in s.items && s.items[t.jobId] == item
    ensures Inv(Deliver(s, t, item, e, w).0)
    ensures Extends(Deliver(s, t, item, e, w).0.objects, s.objects)
  {
    var prepared, s' := Prepare(s, t, item, e, w), Deliver(s, t, item, e, w).0;
    if prepared.None? || Stop(w, BeforeWrite, Some(e)).Some? {
      assert s' == s;
    } else {
      PrepareKeeps(s, t, item, e, w);
      assert s'.objects == prepared.value.objects;
      if Stop(w, BeforeCommit, Some(e)).Some? {
        assert s'.assets == s.assets;
        ObjectsMayGrow(s.assets, s.objects, s'.objects);
      } else {
        assert s'.assets == prepared.value.assets;
      }
    }
  }

  lemma AttemptKeeps(s: Persisted, t: Task, w: World)
    requires Inv(s)
    ensures var s' := Attempt(s, t, w).0; Inv(s') && Extends(s'.objects, s.objects)
  {
    if t.jobId in s.items && w.provided.Returned? {
      DeliverKeeps(Begun(s, t), t, Started(s.items[t.jobId]), w.provided.execution, w);
    }
  }

  lemma RunKeeps(s: Persisted, t: Task, w: World)
    requires Inv(s)
    ensures var s' := RunJob(s, t, w).0; Inv(s') && Extends(s'.objects, s.objects)
  {
    AttemptKeeps(s, t, w);
    var (s', ending) := Attempt(s, t, w);
    if ending.Broken? {
      RecoverKeeps(s', t, ending.code, ending.execution, w);
    }
  }

  // ----- whole histories

  datatype Event = Queue(jobId: Id, item: WorkItem) | Work(task: Task, world: World)

  function Next(s: Persisted, event: Event): Persisted {
    match event
    case Queue(id, item) =>
      if id in s.items then s else s.(items := s.items[id := item], order := s.order + [id])
    case Work(t, w) => RunJob(s, t, w).0
  }

  function After(s: Persisted, history: seq<Event>): Persisted {
    if history == [] then s else Next(After(s, history[..|history| - 1]), history[|history| - 1])
  }

  lemma NextKeeps(s: Persisted, event: Event)
    requires Inv(s)
    ensures Inv(Next(s, event)) && Extends(Next(s, event).objects, s.objects)
  {
    match event
    case Queue(_, _) =>
    case Work(t, w) => RunKeeps(s, t, w);
  }

  /** After any sequence of runs, however they end, a place has at most one row and every materialized
      row has its object with the recorded size and content type. */
  lemma {:induction false} HistoryKeeps(s: Persisted, history: seq<Event>)
    requires Inv(s)
    ensures Inv(After(s, history))
  {
    if history != [] {
      var before := history[..|history| - 1];
      HistoryKeeps(s, before);
      NextKeeps(After(s, before), history[|history| - 1]);
    }
  }

  /** Bytes seen in the store at one moment of a history are there at every later one. */
  lemma {:induction false} BytesNeverChange(s: Persisted, first: seq<Event>, rest: seq<Event>)
    requires Inv(s)
    ensures Extends(After(s, first + rest).objects, After(s, first).objects)
  {
    var all := first + rest;
    if rest == [] {
      assert all == first;
    } else {
      var before := rest[..|rest| - 1];
      assert all[..|all| - 1] == first + before;
      BytesNeverChange(s, first, before);
      HistoryKeeps(s, first + before);
      NextKeeps(After(s, first + before), all[|all| - 1]);
    }
  }

  // ----- what a run reports

  lemma DepositedAnew(assets: seq<Asset>, objects: map<Place, Object>, row: Asset, payload: Option<Bytes>)
    requires row.status == Registered && Deposit(assets, objects, row, payload).Some?
    ensures Deposit(assets, objects, row, payload).value.how != Some(AlreadyMaterialized)
  {
    RegisterFinds(assets, row);
  }

  lemma DeliveredAnew(s: Persisted, t: Task, item: WorkItem, e: Execution, w: World)
    requires t.jobId in s.items
    ensures Deliver(s, t, item, e, w).1 != Completed(Some(AlreadyMaterialized))
  {
    if Prepare(s, t, item, e, w).Some? && t.plan.Some? {
      DepositedAnew(s.assets, s.objects,
                    NewRow(s.buckets, t, t.plan.value, item.jobType, ResolveSequence(item, Some(e), w).value,
                           ResolveFilename(e, t.plan.value), ResolveContentType(e, t.plan.value), Registered),
                    ResolvePayload(e, t.plan.value));
    }
  }

  /** Registering resets the status first, so no run takes the branch for a row already materialized. */
  lemma NeverAlreadyMaterialized(s: Persisted, t: Task, w: World)
    ensures RunJob(s, t, w).1 != Finished(Some(AlreadyMaterialized))
  {
    if t.jobId in s.items && w.provided.Returned? {
      DeliveredAnew(Begun(s, t), t, Started(s.items[t.jobId]), w.provided.execution, w);
    }
  }

  /** When the payload of an accepted result can be written: always for media, and for other assets
      unless the result carries no text at all or a value that is neither bytes nor text. */
  lemma AcceptedPayload(e: Execution, plan: Plan)
    requires Validate(e, Some(plan)).None?
    ensures ResolvePayload(e, plan).Some? <==>
      RequiresBinary(plan) || (!e.binary.Unsupported? && (e.binary.Absent? ==> e.text.Some?))
    ensures RequiresBinary(plan) ==> ResolvePayload(e, plan) == Some(e.binary.data) && e.binary.data != []
  {
  }

  /** A started item aims at the same place. */
  lemma StartKeepsTarget(s: Persisted, t: Task, e: Execution, w: World)
    requires t.jobId in s.items
    ensures Target(Begun(s, t), t, e, w) == Target(s, t, e, w)
  {
  }

  lemma PreparesExactly(s: Persisted, t: Task, item: WorkItem, e: Execution, w: World)
    requires t.jobId in s.items && s.items[t.jobId] == item
    ensures Prepare(s, t, item, e, w).Some? <==>
      (t.plan.Some? ==>
        var target := Target(s, t, e, w);
        target.Some? && (target.value in s.objects || ResolvePayload(e, t.plan.value).Some?))
  {
  }

  /** The job exists, nothing interrupts the run, the provider returns an acceptable result and, for a
      planned asset, its sequence resolves and there is an object already or a payload to write. */
  predicate CanFinish(s: Persisted, t: Task, w: World) {
    && t.jobId in s.items
    && w.interruption.Never?
    && w.provided.Returned?
    && Validate(w.provided.execution, t.plan).None?
    && (t.plan.Some? ==>
      var target := Target(s, t, w.provided.execution, w);
      target.Some? && (target.value in s.objects || ResolvePayload(w.provided.execution, t.plan.value).Some?))
  }

  /** A run finishes if and only if it can. */
  lemma FinishesExactly(s: Persisted, t: Task, w: World)
    ensures RunJob(s, t, w).1.Finished? <==> CanFinish(s, t, w)
  {
    if t.jobId in s.items && w.interruption.Never? && w.provided.Returned? {
      var e, item := w.provided.execution, Started(s.items[t.jobId]);
      var started := Begun(s, t);
      StartKeepsTarget(s, t, e, w);
      PreparesExactly(started, t, item, e, w);
      assert Deliver(started, t, item, e, w).1.Completed? <==> Prepare(started, t, item, e, w).Some?;
    }
  }

  /** A finished run commits what it prepared. */
  lemma FinishedCommits(s: Persisted, t: Task, w: World)
    requires RunJob(s, t, w).1.Finished?
    ensures t.jobId in s.items && w.provided.Returned?
    ensures var item := Started(s.items[t.jobId]);
      var p := Prepare(Begun(s, t), t, item, w.provided.execution, w);
      && p.Some?
      && var written := Begun(s, t).(assets := p.value.assets, objects := p.value.objects);
        RunJob(s, t, w) == (WithJob(written, t, item.(status := R.Succeeded), R.MarkNothing), Finished(p.value.how))
  {
  }

  /** A finished run leaves its job succeeded and its asset backed: by the bytes already in the store if
      there were any, whatever this provider returned, and otherwise by the bytes it returned. */
  lemma FinishedIsBacked(s: Persisted, t: Task, w: World)
    requires Inv(s) && RunJob(s, t, w).1.Finished?
    ensures var (s', outcome) := RunJob(s, t, w);
      && t.jobId in s.items && s'.items == s.items[t.jobId := Started(s.items[t.jobId]).(status := R.Succeeded)]
      && (t.plan.None? ==> s'.assets == s.assets && s'.objects == s.objects)
      && (t.plan.Some? ==>
        var target := Target(s, t, w.provided.execution, w);
        && target.Some?
        && Delivered(s.assets, s.objects, s'.assets, s'.objects, target.value,
                     ResolvePayload(w.provided.execution, t.plan.value), outcome.how))
  {
    FinishedCommits(s, t, w);
    StartKeepsTarget(s, t, w.provided.execution, w);
    var item := Started(s.items[t.jobId]);
    assert s.items[t.jobId := item][t.jobId := item.(status := R.Succeeded)]
        == s.items[t.jobId := item.(status := R.Succeeded)];
    PrepareKeeps(Begun(s, t), t, item, w.provided.execution, w);
  }

  lemma DeliveredMedia(s: Persisted, t: Task, item: WorkItem, e: Execution, w: World, place: Place)
    requires Inv(s) && t.jobId in s.items && s.items[t.jobId] == item
    requires t.plan.Some? && RequiresBinary(t.plan.value) && Validate(e, t.plan).None?
    requires place in Deliver(s, t, item, e, w).0.objects && place !in s.objects
    ensures Deliver(s, t, item, e, w).0.objects[place].data != []
  {
    AcceptedPayload(e, t.plan.value);
    PrepareKeeps(s, t, item, e, w);
  }

  lemma AttemptWrites(s: Persisted, t: Task, w: World)
    requires Attempt(s, t, w).0.objects != s.objects
    ensures t.jobId in s.items && w.provided.Returned? && Validate(w.provided.execution, t.plan).None?
    ensures Attempt(s, t, w) == Deliver(Begun(s, t), t, Started(s.items[t.jobId]), w.provided.execution, w)
  {
  }

  lemma RecoverSparesObjects(s: Persisted, t: Task, code: string, execution: Option<Execution>, w: World)
    ensures Recover(s, t, code, execution, w).0.objects == s.objects
  {
  }

  /** Only the delivery of an accepted result changes the store. */
  lemma RunWrites(s: Persisted, t: Task, w: World)
    requires RunJob(s, t, w).0.objects != s.objects
    ensures t.jobId in s.items && w.provided.Returned? && Validate(w.provided.execution, t.plan).None?
    ensures RunJob(s, t, w).0.objects
         == Deliver(Begun(s, t), t, Started(s.items[t.jobId]), w.provided.execution, w).0.objects
  {
    var (s1, ending) := Attempt(s, t, w);
    if ending.Broken? {
      RecoverSparesObjects(s1, t, ending.code, ending.execution, w);
    }
    AttemptWrites(s, t, w);
  }

  /** Media assets are never written empty: whatever a run adds to the store for a plan with an image,
      video or audio content type has bytes in it, also when the run then fails or crashes. */
  lemma MediaNeverEmpty(s: Persisted, t: Task, w: World, place: Place)
    requires Inv(s) && t.plan.Some? && RequiresBinary(t.plan.value)
    requires place in RunJob(s, t, w).0.objects && place !in s.objects
    ensures RunJob(s, t, w).0.objects[place].data != []
  {
    RunWrites(s, t, w);
    var item := Started(s.items[t.jobId]);
    DeliveredMedia(Begun(s, t), t, item, w.provided.execution, w, place);
  }

  // ----- crashes and failures

  lemma DeliveryCut(s: Persisted, t: Task, item: WorkItem, e: Execution, w: World)
    requires Inv(s) && t.jobId in s.items && s.items[t.jobId] == item && t.plan.Some?
    requires w.interruption == Crashes(BeforeCommit) && Deliver(s, t, item, e, w).1.Cut?
    ensures var s', target := Deliver(s, t, item, e, w).0, Target(s, t, e, w);
      && s'.assets == s.assets && s'.items == s.items
      && target.Some? && target.value in s'.objects && Extends(s'.objects, s.objects)
      && (target.value !in s.objects ==> Some(s'.objects[target.value].data) == ResolvePayload(e, t.plan.value))
  {
    PrepareKeeps(s, t, item, e, w);
  }

  /** A crash between the object write and the commit loses the row but not the bytes, and leaves the
      job running. */
  lemma CrashKeepsBytes(s: Persisted, t: Task, w: World)
    requires Inv(s) && t.plan.Some?
    requires w.interruption == Crashes(BeforeCommit) && RunJob(s, t, w).1.Crashed?
    ensures w.provided.Returned? && t.jobId in s.items
    ensures var s', target := RunJob(s, t, w).0, Target(s, t, w.provided.execution, w);
      && s'.assets == s.assets && s'.items == s.items[t.jobId := Started(s.items[t.jobId])]
      && target.Some? && target.value in s'.objects && Extends(s'.objects, s.objects)
      && (target.value !in s.objects ==>
            Some(s'.objects[target.value].data) == ResolvePayload(w.provided.execution, t.plan.value))
  {
    StartKeepsTarget(s, t, w.provided.execution, w);
    var item := Started(s.items[t.jobId]);
    DeliveryCut(Begun(s, t), t, item, w.provided.execution, w);
  }

  /** Bytes once in the store, committed or not, are the ones every later finished run at that place
      adopts, after any history in between and whatever its own provider returned. */
  lemma FirstBytesWin(s: Persisted, history: seq<Event>, t: Task, w: World, place: Place)
    requires Inv(s) && place in s.objects
    requires RunJob(After(s, history), t, w).1.Finished? && t.plan.Some?
    requires Target(After(s, history), t, w.provided.execution, w) == Some(place)
    ensures var (s', outcome) := RunJob(After(s, history), t, w);
      && outcome == Finished(Some(ObjectStoreShortCircuit))
      && IsBacked(s'.assets, s'.objects, place)
      && s'.objects[place] == s.objects[place]
  {
    assert [] + history == history;
    HistoryKeeps(s, history);
    BytesNeverChange(s, [], history);
    FinishedIsBacked(After(s, history), t, w);
  }

  /** The place a failure is recorded at: the planned file name, never the provider's. */
  function FailurePlace(s: Persisted, t: Task, execution: Option<Execution>, w: World): Option<Place> {
    if !w.handlerCommits || t.plan.None? || t.jobId !in s.items then None
    else
      var item := s.items[t.jobId];
      var sequenceId := ResolveSequence(item, execution, w);
      if sequenceId.None? then None
      else Some(PlaceOf(s.buckets, t, t.plan.value, item.jobType, sequenceId.value, t.plan.value.filename))
  }

  /** The handler records a failure exactly when it can name a place for it, or needs none: then the job
      and the row at that place are failed. Otherwise it changes nothing. */
  lemma RecordedExactly(s: Persisted, t: Task, code: string, execution: Option<Execution>, w: World)
    ensures var (s', outcome) := Recover(s, t, code, execution, w);
      && (outcome == Recorded(code) <==>
            w.handlerCommits && (t.jobId in s.items && t.plan.Some? ==> FailurePlace(s, t, execution, w).Some?))
      && (outcome != Recorded(code) ==> s' == s && outcome == Unrecorded(code))
      && (outcome == Recorded(code) && t.jobId in s.items ==>
            && s'.items[t.jobId] == s.items[t.jobId].(status := R.Failed, errorCode := Some(code))
            && (t.plan.Some? ==>
                  exists row :: row in s'.assets && row.place == FailurePlace(s, t, execution, w).value
                                && row.status == Failed))
  {
    if FailurePlace(s, t, execution, w).Some? {
      var item := s.items[t.jobId];
      var failed := NewRow(s.buckets, t, t.plan.value, item.jobType, ResolveSequence(item, execution, w).value,
                           t.plan.value.filename, t.plan.value.contentType, Failed);
      RegisterFinds(s.assets, failed);
      assert Register(s.assets, failed)[IndexOf(s.assets, failed.place)] in Register(s.assets, failed);
    }
  }

  /** What the provider returned, if it returned. */
  function ExecutionOf(w: World): Option<Execution> {
    if w.provided.Returned? then Some(w.provided.execution) else None
  }

  lemma BrokenWithSequence(s: Persisted, t: Task, w: World)
    requires t.jobId in s.items && w.interruption.Never?
    ensures var (s', ending) := Attempt(s, t, w);
      && !ending.Cut?
      && (ending.Broken? ==>
            ending.execution == ExecutionOf(w) && s' == Begun(s, t))
      && (t.plan.Some? && ResolveSequence(s.items[t.jobId], ExecutionOf(w), w).None? ==> ending.Broken?)
  {
  }

  /** A planned run that nothing interrupts leaves its job running exactly when the sequence id
      it has to use is malformed or names no sequence: the failure handler then fails as well. */
  lemma LeftRunningExactly(s: Persisted, t: Task, w: World)
    requires t.jobId in s.items && w.interruption.Never? && w.handlerCommits
    ensures var (s', outcome) := RunJob(s, t, w);
      && (s'.items[t.jobId].status.Running? <==>
            t.plan.Some? && ResolveSequence(s.items[t.jobId], ExecutionOf(w), w).None?)
      && (s'.items[t.jobId].status.Running? <==> outcome.Unrecorded?)
      && (s'.items[t.jobId].status.Succeeded? <==> outcome.Finished?)
      && (s'.items[t.jobId].status.Failed? <==> outcome.Recorded?)
  {
    BrokenWithSequence(s, t, w);
    var (s', ending) := Attempt(s, t, w);
    if ending.Broken? {
      RecordedExactly(s', t, ending.code, ending.execution, w);
    } else {
      FinishedCommits(s, t, w);
    }
  }

  ghost predicate HasMaterialized(assets: seq<Asset>, place: Place, size: Option<nat>) {
    exists row :: row in assets && row.place == place && row.status == Materialized && row.fileSize == size
  }

  ghost predicate HasSize(assets: seq<Asset>, place: Place, size: Option<nat>) {
    exists row :: row in assets && row.place == place && row.fileSize == size
  }

  /** The failure handler leaves a materialized row as it is exactly when it does not record the failure
      at its place; there the row becomes failed and keeps its size. */
  lemma HandlerDemotes(s: Persisted, t: Task, code: string, execution: Option<Execution>, w: World,
                       place: Place, size: Option<nat>)
    requires Inv(s) && HasMaterialized(s.assets, place, size)
    ensures var assets := Recover(s, t, code, execution, w).0.assets;
      && HasSize(assets, place, size)
      && (HasMaterialized(assets, place, size) <==> FailurePlace(s, t, execution, w) != Some(place))
      && (FailurePlace(s, t, execution, w) == Some(place) ==>
            forall row | row in assets && row.place == place :: row.status == Failed)
  {
    var row :| row in s.assets && row.place == place && row.status == Materialized && row.fileSize == size;
    var assets := Recover(s, t, code, execution, w).0.assets;
    if FailurePlace(s, t, execution, w).Some? {
      var item := s.items[t.jobId];
      var sequenceId := ResolveSequence(item, execution, w).value;
      var failed := NewRow(s.buckets, t, t.plan.value, item.jobType, sequenceId, t.plan.value.filename,
                           t.plan.value.contentType, Failed);
      RegisterTouchesOne(s.assets, failed);
      assert assets == Register(s.assets, failed);
      if failed.place == place {
        IndexOfRow(s.assets, row);
        assert assets[IndexOf(s.assets, place)] == failed.(fileSize := size);
      } else {
        assert row in assets;
      }
    } else {
      assert assets == s.assets;
    }
  }

  lemma PrepareKeepsRow(s: Persisted, t: Task, item: WorkItem, e: Execution, w: World, row: Asset)
    requires Inv(s) && t.jobId in s.items && s.items[t.jobId] == item
    requires row in s.assets && row.status == Materialized && Prepare(s, t, item, e, w).Some?
    ensures HasMaterialized(Prepare(s, t, item, e, w).value.assets, row.place, row.fileSize)
  {
    PrepareKeeps(s, t, item, e, w);
    assert Agrees(row, s.objects);
    if t.plan.None? || Target(s, t, e, w) != Some(row.place) {
      assert row in Prepare(s, t, item, e, w).value.assets;
    }
  }

  lemma DeliverKeepsRow(s: Persisted, t: Task, item: WorkItem, e: Execution, w: World, row: Asset)
    requires Inv(s) && t.jobId in s.items && s.items[t.jobId] == item
    requires row in s.assets && row.status == Materialized
    ensures HasMaterialized(Deliver(s, t, item, e, w).0.assets, row.place, row.fileSize)
  {
    var assets := Deliver(s, t, item, e, w).0.assets;
    if assets != s.assets {
      PrepareKeepsRow(s, t, item, e, w, row);
      assert assets == Prepare(s, t, item, e, w).value.assets;
    }
  }

  lemma AttemptKeepsRow(s: Persisted, t: Task, w: World, row: Asset)
    requires Inv(s) && row in s.assets && row.status == Materialized
    ensures HasMaterialized(Attempt(s, t, w).0.assets, row.place, row.fileSize)
  {
    if t.jobId in s.items && w.provided.Returned? {
      DeliverKeepsRow(Begun(s, t), t, Started(s.items[t.jobId]), w.provided.execution, w, row);
    }
  }

  /** A materialized row stays materialized through a run exactly when the run does not fail with a
      failure recorded at the place of the row; there it becomes failed although its object and its size
      are still the same. */
  lemma DemotedExactly(s: Persisted, t: Task, w: World, row: Asset)
    requires Inv(s) && row in s.assets && row.status == Materialized
    ensures var (s1, ending), s' := Attempt(s, t, w), RunJob(s, t, w).0;
      && row.place in s.objects && row.place in s'.objects && s'.objects[row.place] == s.objects[row.place]
      && HasSize(s'.assets, row.place, row.fileSize)
      && (HasMaterialized(s'.assets, row.place, row.fileSize) <==>
            !(ending.Broken? && FailurePlace(s1, t, ending.execution, w) == Some(row.place)))
      && (ending.Broken? && FailurePlace(s1, t, ending.execution, w) == Some(row.place) ==>
            forall r | r in s'.assets && r.place == row.place :: r.status == Failed)
  {
    assert Agrees(row, s.objects);
    RunKeeps(s, t, w);
    AttemptKeeps(s, t, w);
    AttemptKeepsRow(s, t, w, row);
    var (s1, ending) := Attempt(s, t, w);
    if ending.Broken? {
      HandlerDemotes(s1, t, ending.code, ending.execution, w, row.place, row.fileSize);
    }
  }

  /** For a run that nothing interrupts the condition can be read off its inputs: the job exists, the run
      cannot finish, and the planned place, with the sequence the result or the payload names, is the row's. */
  lemma DemotedOnInputs(s: Persisted, t: Task, w: World, row: Asset)
    requires Inv(s) && row in s.assets && row.status == Materialized && w.interruption.Never?
    ensures HasMaterialized(RunJob(s, t, w).0.assets, row.place, row.fileSize) <==>
      !(t.jobId in s.items && !CanFinish(s, t, w)
        && FailurePlace(Begun(s, t), t, ExecutionOf(w), w) == Some(row.place))
  {
    DemotedExactly(s, t, w, row);
    FinishesExactly(s, t, w);
    if t.jobId in s.items {
      BrokenWithSequence(s, t, w);
    }
  }

  // ----- two runs that show it

  const PLAN := Plan("generated_image", "render_output", "job.png", "image/png")

  const TASK := Task("job", "project", "v1", Some(PLAN))

  function Fresh(selector: Reference): Persisted {
    var item := WorkItem("render_image", KeyOf(TASK), R.Dispatched, 0, None, selector, Unset);
    Persisted(Buckets("r", "i", "v", "a", "t", "e"), map[TASK.jobId := item], [TASK.jobId], map[], [], map[])
  }

  const IMAGE := Execution("succeeded", "", "", Unset, Blob([1]), None)

  const GOOD := World(Returned(IMAGE), {}, None, Never, "", true)

  const BAD := GOOD.(provided := Raised("quota"))

  function FreshPlace(): Place {
    PlaceOf(Fresh(Unset).buckets, TASK, PLAN, "render_image", None, PLAN.filename)
  }

  lemma FreshRunFinishes()
    ensures var s1 := RunJob(Fresh(Unset), TASK, GOOD).0;
      && Inv(s1) && HasMaterialized(s1.assets, FreshPlace(), Some(1))
      && FreshPlace() in s1.objects && s1.objects[FreshPlace()].data == [1]
      && TASK.jobId in s1.items && s1.items[TASK.jobId].jobType == "render_image"
      && s1.items[TASK.jobId].selector.Unset? && s1.items[TASK.jobId].direct.Unset?
      && s1.buckets == Fresh(Unset).buckets
  {
    var s := Fresh(Unset);
    assert Validate(IMAGE, TASK.plan).None?;
    assert Target(s, TASK, IMAGE, GOOD) == Some(FreshPlace());
    FinishesExactly(s, TASK, GOOD);
    FinishedCommits(s, TASK, GOOD);
    FinishedIsBacked(s, TASK, GOOD);
    RunKeeps(s, TASK, GOOD);
  }

  /** A job that finished and is run again while its provider is out of quota has a failed asset with its
      object in place. */
  lemma DemotionHappens()
    ensures var s1 := RunJob(Fresh(Unset), TASK, GOOD).0; var s2 := RunJob(s1, TASK, BAD).0;
      && HasMaterialized(s1.assets, FreshPlace(), Some(1))
      && FreshPlace() in s2.objects && s2.objects[FreshPlace()].data == [1]
      && HasSize(s2.assets, FreshPlace(), Some(1))
      && forall row | row in s2.assets && row.place == FreshPlace() :: row.status == Failed
  {
    FreshRunFinishes();
    var s1 := RunJob(Fresh(Unset), TASK, GOOD).0;
    var row :| row in s1.assets && row.place == FreshPlace() && row.status == Materialized && row.fileSize == Some(1);
    DemotedExactly(s1, TASK, BAD, row);
    BrokenWithSequence(s1, TASK, BAD);
    assert FailurePlace(Begun(s1, TASK), TASK, None, BAD) == Some(FreshPlace());
  }

  /** A job whose payload names its sequence by a malformed id is left running. */
  lemma LeftRunningHappens()
    ensures var (s', outcome) := RunJob(Fresh(Malformed), TASK, GOOD);
      outcome.Unrecorded? && s'.items[TASK.jobId].status.Running? && s'.assets == []
  {
    LeftRunningExactly(Fresh(Malformed), TASK, GOOD);
    BrokenWithSequence(Fresh(Malformed), TASK, GOOD);
  }

  // ----- object keys

  /** A file name the policy keeps as it is. */
  predicate Plain(filename: string) {
    filename != "" && filename != "." && '/' !in filename && ' ' !in filename
  }

  lemma PlainIsKept(filename: string)
    requires Plain(filename)
    ensures SafeName(filename) == filename
  {
  }

  lemma {:induction false} SlashBeforeTail(p: string, n: string)
    requires '/' !in n
    ensures LastSlash(p + "/" + n) == |p| + 1
  {
    var s := p + "/" + n;
    if n == "" {
      assert s[|p|] == '/';
    } else {
      assert s[|s| - 1] == n[|n| - 1];
      assert s[..|s| - 1] == p + "/" + n[..|n| - 1];
      SlashBeforeTail(p, n[..|n| - 1]);
    }
  }

  /** Whatever project, version, sequence and job type they belong to, two planned files share an object
      key only when they have the same name; planned names carry the job id, so two jobs never do. */
  lemma PlannedFilesNeverCollide(t: Task, sequenceId: Option<Id>, jobType: string, filename: string,
                                 t': Task, sequenceId': Option<Id>, jobType': string, filename': string)
    requires Plain(filename) && Plain(filename') && filename != filename'
    ensures ObjectKey(t, sequenceId, jobType, filename) != ObjectKey(t', sequenceId', jobType', filename')
  {
    PlainIsKept(filename);
    PlainIsKept(filename');
    var p, p' := Folder(t, sequenceId, jobType), Folder(t', sequenceId', jobType');
    var k, k' := p + "/" + filename, p' + "/" + filename';
    SlashBeforeTail(p, filename);
    SlashBeforeTail(p', filename');
    assert k[|p| + 1..] == filename && k'[|p'| + 1..] == filename';
  }
}
