/** The worker that runs one job: it marks the job, calls the provider, registers the generated asset,
    writes the bytes to the object store and records the outcome. Each of its transactions also refreshes
    the row of the runtime the job belongs to. The tables commit or roll back; the object store does
    neither. */
module AssetWorker {
  import opened Options
  import R = RuntimeStatus

  type Id = string

  newtype Byte = x: int | 0 <= x < 256

  type Bytes = seq<Byte>

  datatype Place = Place(bucket: string, key: string)

  datatype Object = Object(data: Bytes, contentType: string)

  datatype AssetStatus = Registered | Materialized | Failed | Unmanaged(text: string)

  datatype Asset = Asset(
    place: Place, projectId: Id, sequenceId: Option<Id>, assetType: string, assetRole: string,
    filename: string, contentType: string, fileSize: Option<nat>, status: AssetStatus)

  /** A sequence id as some payload gives it. */
  datatype Reference = Unset | Malformed | Sequence(id: Id)

  /** What a job row and a runtime row have in common. */
  datatype RuntimeKey = RuntimeKey(projectId: Id, version: string)

  /** The queued job; its payload is reduced to its runtime version and the two places a sequence id is
      looked for. */
  datatype WorkItem = WorkItem(
    jobType: string, key: RuntimeKey, status: R.JobStatus, attemptCount: int, errorCode: Option<string>,
    selector: Reference, direct: Reference)

  datatype Buckets = Buckets(
    reference: string, generatedImages: string, generatedVideos: string, audio: string, runtime: string,
    exports: string)

  /** What survives a crash: the committed tables and the object store. The order lists the jobs from the
      oldest on; a runtime is the row the lookup by project and version finds. */
  datatype Persisted = Persisted(
    buckets: Buckets, items: map<Id, WorkItem>, order: seq<Id>, runtimes: map<RuntimeKey, R.Runtime>,
    assets: seq<Asset>, objects: map<Place, Object>)

  datatype Plan = Plan(assetType: string, assetRole: string, filename: string, contentType: string)

  datatype Task = Task(jobId: Id, projectId: Id, runtimeVersion: string, plan: Option<Plan>)

  /** A value under "binary_payload"; a text carries its UTF-8 encoding. */
  datatype Binary = Absent | Blob(data: Bytes) | Text(encoded: Bytes) | Unsupported

  datatype Execution = Execution(
    status: string, outputFilename: string, contentType: string, selection: Reference,
    binary: Binary, text: Option<Bytes>)

  datatype Provided = Returned(execution: Execution) | Raised(code: string)

  /** The places a run can be cut short at, in the order they are passed. */
  datatype Point = BeforeStart | BeforeExecution | BeforeWrite | BeforeCommit | AfterCommit

  /** Storage and database errors raise, so the failure handler runs; a crash skips it. */
  datatype Interruption = Never | Raises(at: Point) | Crashes(at: Point)

  /** Everything a run meets and does not decide. */
  datatype World = World(
    provided: Provided, sequences: set<Id>, firstSequence: Option<Id>, interruption: Interruption,
    errorMessage: string, handlerCommits: bool)

  datatype Idempotency = AlreadyMaterialized | ObjectStoreShortCircuit | FreshWrite

  datatype Outcome =
    | Finished(how: Option<Idempotency>)
    | Recorded(code: string)
    | Unrecorded(code: string)
    | Crashed

  const DEFAULT_ERROR := "worker_execution_failed"

  // ----- strings

  predicate IsSpace(c: char) {
    c in {' ', '\t', '\n', '\r', '\U{0B}', '\U{0C}'}
  }

  function Strip(s: string): string {
    if s == "" then ""
    else if IsSpace(s[0]) then Strip(s[1..])
    else if IsSpace(s[|s| - 1]) then Strip(s[..|s| - 1])
    else s
  }

  function Lower(s: string): string {
    seq(|s|, i requires 0 <= i < |s| => if 'A' <= s[i] <= 'Z' then (s[i] as int + 32) as char else s[i])
  }

  function OrElse(s: string, other: string): string {
    if s == "" then other else s
  }

  /** The last component of a path; empty and "." components do not count. */
  function BaseName(path: string): (name: string)
    ensures '/' !in name
  {
    var n := LastSlash(path);
    if path[n..] != "" && path[n..] != "." then path[n..]
    else if n == 0 then ""
    else BaseName(path[..n - 1])
  }

  /** The number of characters up to and including the last slash. */
  function LastSlash(path: string): (n: nat)
    ensures n <= |path| && '/' !in path[n..] && (n > 0 ==> path[n - 1] == '/')
  {
    if path == "" || path[|path| - 1] == '/' then |path|
    else
      var n := LastSlash(path[..|path| - 1]);
      assert path[n..] == path[..|path| - 1][n..] + [path[|path| - 1]];
      n
  }

  function Underscored(name: string): string {
    seq(|name|, i requires 0 <= i < |name| => if name[i] == ' ' then '_' else name[i])
  }

  function SafeName(filename: string): string {
    if filename == "" then "asset.bin" else Underscored(BaseName(filename))
  }

  // ----- where an asset goes

  function ResolveBucket(b: Buckets, assetType: string): string {
    if assetType == "reference_video" || assetType == "reference_image" then b.reference
    else if assetType == "generated_image" then b.generatedImages
    else if assetType == "generated_video" then b.generatedVideos
    else if assetType == "audio" then b.audio
    else if assetType == "runtime" then b.runtime
    else if assetType == "export" then b.exports
    else b.reference
  }

  function Folder(t: Task, sequenceId: Option<Id>, jobType: string): string {
    "projects/" + t.projectId + "/runtime/" + t.runtimeVersion + "/"
    + (if sequenceId.Some? then "sequences/" + sequenceId.value + "/" else "") + jobType
  }

  function ObjectKey(t: Task, sequenceId: Option<Id>, jobType: string, filename: string): string {
    Folder(t, sequenceId, jobType) + "/" + SafeName(filename)
  }

  /** The sequence the asset belongs to, or nothing when the id is malformed or names no sequence. */
  function ResolveSequence(item: WorkItem, execution: Option<Execution>, w: World): Option<Option<Id>> {
    var selection := if execution.Some? then execution.value.selection else Unset;
    var chosen :=
      if selection != Unset then selection
      else if item.selector != Unset then item.selector
      else item.direct;
    match chosen
    case Malformed => None
    case Sequence(id) => if id in w.sequences then Some(Some(id)) else None
    case Unset => Some(w.firstSequence)
  }

  function PlaceOf(b: Buckets, t: Task, plan: Plan, jobType: string, sequenceId: Option<Id>, filename: string): Place {
    Place(ResolveBucket(b, plan.assetType), ObjectKey(t, sequenceId, jobType, filename))
  }

  // ----- the provider's result

  predicate RequiresBinary(plan: Plan) {
    var contentType := Lower(Strip(plan.contentType));
    "image/" <= contentType || "video/" <= contentType || "audio/" <= contentType
  }

  /** The error code, or nothing for an acceptable result. */
  function Validate(e: Execution, plan: Option<Plan>): Option<string> {
    var status := Strip(e.status);
    if status == "succeeded_stub" then Some("provider_stub_result_disallowed")
    else if status != "succeeded" then Some("provider_execution_not_succeeded")
    else if plan.None? || !RequiresBinary(plan.value) then None
    else match e.binary
      case Absent => Some("binary_payload_required")
      case Text(_) => Some("binary_payload_invalid_type")
      case Unsupported => Some("binary_payload_invalid_type")
      case Blob(data) => if data == [] then Some("binary_payload_empty") else None
  }

  function ResolvePayload(e: Execution, plan: Plan): Option<Bytes> {
    match e.binary
    case Blob(data) => Some(data)
    case Text(encoded) => if RequiresBinary(plan) then None else Some(encoded)
    case Unsupported => None
    case Absent => if RequiresBinary(plan) then None else e.text
  }

  function ResolveFilename(e: Execution, plan: Plan): string {
    OrElse(e.outputFilename, plan.filename)
  }

  function ResolveContentType(e: Execution, plan: Plan): string {
    OrElse(Strip(OrElse(e.contentType, plan.contentType)), plan.contentType)
  }

  // ----- the asset table

  /** The position of the row at the place, or the length of the table. */
  function IndexOf(assets: seq<Asset>, place: Place): (i: nat)
    ensures i <= |assets|
    ensures i < |assets| ==> assets[i].place == place
    ensures forall k | 0 <= k < i :: assets[k].place != place
  {
    if assets == [] || assets[0].place == place then 0 else 1 + IndexOf(assets[1..], place)
  }

  /** The row at the place takes the new values but keeps its size; a new row has none. */
  function Register(assets: seq<Asset>, row: Asset): seq<Asset> {
    var i := IndexOf(assets, row.place);
    if i < |assets| then assets[i := row.(fileSize := assets[i].fileSize)] else assets + [row.(fileSize := None)]
  }

  lemma {:induction false} FirstAt(assets: seq<Asset>, place: Place, i: nat)
    requires i < |assets| && assets[i].place == place && forall k | 0 <= k < i :: assets[k].place != place
    ensures IndexOf(assets, place) == i
  {
  }

  lemma {:induction false} RegisterFinds(assets: seq<Asset>, row: Asset)
    ensures var i := IndexOf(assets, row.place); var after := Register(assets, row);
      IndexOf(after, row.place) == i < |after| && after[i] == row.(fileSize := after[i].fileSize)
  {
    var i, after := IndexOf(assets, row.place), Register(assets, row);
    assert forall k | 0 <= k < i :: after[k] == assets[k];
    FirstAt(after, row.place, i);
  }

  function NewRow(b: Buckets, t: Task, plan: Plan, jobType: string, sequenceId: Option<Id>,
                  filename: string, contentType: string, status: AssetStatus): Asset
  {
    Asset(PlaceOf(b, t, plan, jobType, sequenceId, filename), t.projectId, sequenceId, plan.assetType,
          plan.assetRole, filename, contentType, None, status)
  }

  /** The row once its object is known to be there. */
  function Backed(row: Asset, stored: Object): Asset {
    row.(status := Materialized, fileSize := Some(|stored.data|),
         contentType := OrElse(stored.contentType, row.contentType))
  }

  function Decide(status: AssetStatus, present: bool): Idempotency {
    if !present then FreshWrite
    else if status == Materialized then AlreadyMaterialized
    else ObjectStoreShortCircuit
  }

  // ----- the runtime row

  function KeyOf(t: Task): RuntimeKey {
    RuntimeKey(t.projectId, t.runtimeVersion)
  }

  /** The jobs of one runtime, oldest first, as the aggregate reads them. */
  function JobsOf(items: map<Id, WorkItem>, order: seq<Id>, key: RuntimeKey): seq<R.Job> {
    if order == [] then []
    else
      var id := order[|order| - 1];
      JobsOf(items, order[..|order| - 1], key)
      + (if id in items && items[id].key == key
         then [R.Job(items[id].status, items[id].attemptCount, items[id].errorCode)] else [])
  }

  /** The runtime rows after a transaction marked and refreshed the one of the task, if there is one. */
  function Touched(runtimes: map<RuntimeKey, R.Runtime>, items: map<Id, WorkItem>, order: seq<Id>, t: Task,
                   mark: R.Mark): map<RuntimeKey, R.Runtime>
  {
    if KeyOf(t) !in runtimes then runtimes
    else runtimes[KeyOf(t) := R.Refreshed(R.Marked(runtimes[KeyOf(t)], mark), JobsOf(items, order, KeyOf(t)))]
  }

  /** A transaction that changes the row of the job, and with it the row of the runtime. */
  function WithJob(s: Persisted, t: Task, item: WorkItem, mark: R.Mark): Persisted {
    var items := s.items[t.jobId := item];
    s.(items := items, runtimes := Touched(s.runtimes, items, s.order, t, mark))
  }

  // ----- one run

  /** What the second transaction is about to commit and what it writes to the object store. */
  datatype Prepared = Prepared(assets: seq<Asset>, objects: map<Place, Object>, how: Option<Idempotency>)

  /** Registers the row and backs it by the object at its place, written from the payload if missing. */
  function Deposit(assets: seq<Asset>, objects: map<Place, Object>, row: Asset,
                   payload: Option<Bytes>): Option<Prepared>
  {
    var registered := Register(assets, row);
    var i := IndexOf(registered, row.place);
    RegisterFinds(assets, row);
    var how := Some(Decide(registered[i].status, row.place in objects));
    if row.place in objects then
      Some(Prepared(registered[i := Backed(registered[i], objects[row.place])], objects, how))
    else if payload.None? then None
    else
      var stored := Object(payload.value, row.contentType);
      Some(Prepared(registered[i := Backed(registered[i], stored)], objects[row.place := stored], how))
  }

  function Prepare(s: Persisted, t: Task, item: WorkItem, e: Execution, w: World): Option<Prepared> {
    if t.plan.None? then Some(Prepared(s.assets, s.objects, None))
    else
      var sequenceId := ResolveSequence(item, Some(e), w);
      if sequenceId.None? then None
      else
        var row := NewRow(s.buckets, t, t.plan.value, item.jobType, sequenceId.value,
                          ResolveFilename(e, t.plan.value), ResolveContentType(e, t.plan.value), Registered);
        Deposit(s.assets, s.objects, row, ResolvePayload(e, t.plan.value))
  }

  function Started(item: WorkItem): WorkItem {
    item.(status := R.Running, attemptCount := item.attemptCount + 1, errorCode := None)
  }

  /** What the first transaction commits. */
  function Begun(s: Persisted, t: Task): Persisted
    requires t.jobId in s.items
  {
    WithJob(s, t, Started(s.items[t.jobId]), R.MarkRunning)
  }

  /** How the body of the run ends; a raised error carries the result the provider had given. */
  datatype Ending = Completed(how: Option<Idempotency>) | Broken(code: string, execution: Option<Execution>) | Cut

  function Stop(w: World, at: Point, execution: Option<Execution>): Option<Ending> {
    match w.interruption
    case Never => None
    case Raises(p) => if p == at then Some(Broken(DEFAULT_ERROR, execution)) else None
    case Crashes(p) => if p == at then Some(Cut) else None
  }

  /** The body up to a raised error or a crash, with what is persistent then. */
  function Attempt(s: Persisted, t: Task, w: World): (Persisted, Ending) {
    if t.jobId !in s.items then
      (s, if w.interruption == Crashes(BeforeStart) then Cut else Broken(DEFAULT_ERROR, None))
    else
      var stop := Stop(w, BeforeStart, None);
      if stop.Some? then (s, stop.value)
      else Execute(Begun(s, t), t, Started(s.items[t.jobId]), w)
  }

  function Execute(s: Persisted, t: Task, item: WorkItem, w: World): (Persisted, Ending) {
    var stop := Stop(w, BeforeExecution, None);
    if stop.Some? then (s, stop.value)
    else match w.provided
      case Raised(code) => (s, Broken(if Strip(code) == "" then DEFAULT_ERROR else code, None))
      case Returned(e) =>
        var problem := Validate(e, t.plan);
        if problem.Some? then (s, Broken(problem.value, Some(e))) else Deliver(s, t, item, e, w)
  }

  function Deliver(s: Persisted, t: Task, item: WorkItem, e: Execution, w: World): (Persisted, Ending) {
    var prepared := Prepare(s, t, item, e, w);
    var early := Stop(w, BeforeWrite, Some(e));
    if prepared.None? then (s, Broken(DEFAULT_ERROR, Some(e)))
    else if early.Some? then (s, early.value)
    else
      var written := s.(objects := prepared.value.objects);
      var committed :=
        WithJob(written.(assets := prepared.value.assets), t, item.(status := R.Succeeded), R.MarkNothing);
      var late := Stop(w, BeforeCommit, Some(e));
      var after := Stop(w, AfterCommit, Some(e));
      if late.Some? then (written, late.value)
      else if after.Some? then (committed, after.value)
      else (committed, Completed(prepared.value.how))
  }

  /** The failure handler, in a transaction of its own. */
  function Recover(s: Persisted, t: Task, code: string, execution: Option<Execution>, w: World): (Persisted, Outcome) {
    var mark := R.MarkFailed(code, w.errorMessage);
    if !w.handlerCommits then (s, Unrecorded(code))
    else if t.jobId !in s.items then
      (s.(runtimes := Touched(s.runtimes, s.items, s.order, t, mark)), Recorded(code))
    else
      var item := s.items[t.jobId];
      var failed := WithJob(s, t, item.(status := R.Failed, errorCode := Some(code)), mark);
      if t.plan.None? then (failed, Recorded(code))
      else
        var sequenceId := ResolveSequence(item, execution, w);
        if sequenceId.None? then (s, Unrecorded(code))
        else
          var row := NewRow(s.buckets, t, t.plan.value, item.jobType, sequenceId.value,
                            t.plan.value.filename, t.plan.value.contentType, Failed);
          (failed.(assets := Register(s.assets, row)), Recorded(code))
  }

  function RunJob(s: Persisted, t: Task, w: World): (Persisted, Outcome) {
    var (s', ending) := Attempt(s, t, w);
    match ending
    case Completed(how) => (s', Finished(how))
    case Cut => (s', Crashed)
    case Broken(code, execution) => Recover(s', t, code, execution, w)
  }

  // ----- the run as the worker makes it

  /** A database session beside the object store. */
  class Session {
    const buckets: Buckets
    const order: seq<Id>
    var items: map<Id, WorkItem>
    var runtimes: map<RuntimeKey, R.Runtime>
    var assets: seq<Asset>
    var committedItems: map<Id, WorkItem>
    var committedRuntimes: map<RuntimeKey, R.Runtime>
    var committedAssets: seq<Asset>
    var objects: map<Place, Object>

    constructor (s: Persisted)
      ensures Clean() && Stored() == s
    {
      buckets, order := s.buckets, s.order;
      items, runtimes, assets := s.items, s.runtimes, s.assets;
      committedItems, committedRuntimes, committedAssets := s.items, s.runtimes, s.assets;
      objects := s.objects;
    }

    function Stored(): Persisted
      reads this
    {
      Persisted(buckets, committedItems, order, committedRuntimes, committedAssets, objects)
    }

    /** The tables as the open transaction sees them. */
    function Pending(): Persisted
      reads this
    {
      Persisted(buckets, items, order, runtimes, assets, objects)
    }

    /** No change is waiting for a commit. */
    predicate Clean()
      reads this
    {
      items == committedItems && runtimes == committedRuntimes && assets == committedAssets
    }

    method Commit()
      modifies this`committedItems, this`committedRuntimes, this`committedAssets
      ensures Clean() && Stored() == old(Pending())
    {
      committedItems, committedRuntimes, committedAssets := items, runtimes, assets;
    }

    method Rollback()
      modifies this`items, this`runtimes, this`assets
      ensures Clean() && Stored() == old(Stored())
    {
      items, runtimes, assets := committedItems, committedRuntimes, committedAssets;
    }

    method UpdateRuntimeStatus(t: Task, mark: R.Mark)
      modifies this`runtimes
      ensures runtimes ==
        if KeyOf(t) in old(runtimes)
        then old(runtimes)[KeyOf(t) := R.Marked(old(runtimes)[KeyOf(t)], mark)] else old(runtimes)
    {
      if KeyOf(t) in runtimes {
        var runtime := runtimes[KeyOf(t)];
        if mark.MarkRunning? {
          runtime := runtime.(compileStatus := "running");
        }
        if mark.MarkFailed? {
          runtime := runtime.(compileStatus := "failed");
          runtime := runtime.(lastErrorCode := Some(mark.code));
          runtime := runtime.(lastErrorMessage := Some(mark.message));
        }
        runtimes := runtimes[KeyOf(t) := runtime];
      }
    }

    method RefreshRuntimeAggregate(t: Task)
      modifies this`runtimes
      ensures runtimes == Touched(old(runtimes), items, order, t, R.MarkNothing)
    {
      if KeyOf(t) in runtimes {
        var status := new R.Session(JobsOf(items, order, KeyOf(t)), runtimes[KeyOf(t)]);
        status.RefreshRuntimeStatus();
        runtimes := runtimes[KeyOf(t) := status.runtime];
      }
    }

    /** The two updates of the runtime row that every transaction of the worker makes. */
    method TouchRuntime(t: Task, mark: R.Mark)
      modifies this`runtimes
      ensures runtimes == Touched(old(runtimes), items, order, t, mark)
    {
      UpdateRuntimeStatus(t, mark);
      RefreshRuntimeAggregate(t);
    }

    method BeginJob(t: Task)
      requires t.jobId in items
      modifies this`items, this`runtimes
      ensures Pending() == Begun(old(Pending()), t)
    {
      var item := items[t.jobId];
      item := item.(status := R.Running);
      item := item.(attemptCount := item.attemptCount + 1);
      item := item.(errorCode := None);
      items := items[t.jobId := item];
      TouchRuntime(t, R.MarkRunning);
    }

    method FailJob(t: Task, code: string)
      requires t.jobId in items
      modifies this`items
      ensures items == old(items)[t.jobId := old(items)[t.jobId].(status := R.Failed, errorCode := Some(code))]
    {
      items := items[t.jobId := items[t.jobId].(status := R.Failed)];
      items := items[t.jobId := items[t.jobId].(errorCode := Some(code))];
    }

    /** The position of the registered row, or nothing when its sequence cannot be resolved. */
    method RegisterGeneratedAsset(t: Task, plan: Plan, execution: Option<Execution>, filename: string,
                                  contentType: string, status: AssetStatus, w: World)
      returns (index: Option<nat>)
      requires t.jobId in items
      modifies this`assets
      ensures var sequenceId := ResolveSequence(items[t.jobId], execution, w);
        if sequenceId.None? then index == None && assets == old(assets)
        else
          var row := NewRow(buckets, t, plan, items[t.jobId].jobType, sequenceId.value, filename, contentType, status);
          && assets == Register(old(assets), row)
          && index == Some(IndexOf(assets, row.place)) && index.value < |assets|
          && assets[index.value] == row.(fileSize := assets[index.value].fileSize)
    {
      var sequenceId := ResolveSequence(items[t.jobId], execution, w);
      if sequenceId.None? {
        return None;
      }
      var place := PlaceOf(buckets, t, plan, items[t.jobId].jobType, sequenceId.value, filename);
      var row := Asset(place, t.projectId, sequenceId.value, plan.assetType, plan.assetRole, filename, contentType,
                       None, status);
      var i := IndexOf(assets, place);
      ghost var before := assets;
      if i < |assets| {
        var existing := assets[i];
        existing := existing.(projectId := row.projectId, sequenceId := row.sequenceId);
        existing := existing.(assetType := row.assetType, assetRole := row.assetRole);
        existing := existing.(filename := filename, contentType := contentType);
        existing := existing.(status := status);
        assets := assets[i := existing];
      } else {
        assets := assets + [row];
      }
      RegisterFinds(before, row);
      return Some(i);
    }

    /** An error or a crash on the way is returned as a broken ending; the object store is then untouched. */
    method MaterializeGeneratedAsset(t: Task, plan: Plan, e: Execution, w: World)
      returns (how: Option<Idempotency>, broken: Option<Ending>)
      requires t.jobId in items && t.plan == Some(plan)
      modifies this`assets, this`objects
      ensures var prepared := Prepare(old(Pending()), t, items[t.jobId], e, w);
        if prepared.None? then broken == Some(Broken(DEFAULT_ERROR, Some(e))) && objects == old(objects)
        else
          && broken == Stop(w, BeforeWrite, Some(e))
          && (if broken.Some? then objects == old(objects)
              else prepared == Some(Prepared(assets, objects, how)))
    {
      broken := Some(Broken(DEFAULT_ERROR, Some(e)));
      how := None;
      var index := RegisterGeneratedAsset(t, plan, Some(e), ResolveFilename(e, plan), ResolveContentType(e, plan),
                                          Registered, w);
      if index.None? {
        return;
      }
      var asset := assets[index.value];
      how := Some(Decide(asset.status, asset.place in objects));
      var present := asset.place in objects;
      var payload := ResolvePayload(e, plan);
      if !present && payload.None? {
        return;
      }
      broken := Stop(w, BeforeWrite, Some(e));
      if broken.Some? {
        return;
      }
      if !present {
        objects := objects[asset.place := Object(payload.value, asset.contentType)];
      }
      var stored := objects[asset.place];
      asset := asset.(status := Materialized);
      asset := asset.(fileSize := Some(|stored.data|));
      asset := asset.(contentType := OrElse(stored.contentType, asset.contentType));
      assets := assets[index.value := asset];
    }

    /** The body of the run; a broken or cut ending leaves the open transaction for the caller to drop. */
    method Try(t: Task, w: World) returns (ending: Ending)
      requires Clean()
      modifies this
      ensures (Stored(), ending) == Attempt(old(Stored()), t, w)
    {
      if t.jobId !in items {
        return if w.interruption == Crashes(BeforeStart) then Cut else Broken(DEFAULT_ERROR, None);
      }
      BeginJob(t);
      var stop := Stop(w, BeforeStart, None);
      if stop.Some? {
        return stop.value;
      }
      Commit();
      stop := Stop(w, BeforeExecution, None);
      if stop.Some? {
        return stop.value;
      }
      if w.provided.Raised? {
        return Broken(if Strip(w.provided.code) == "" then DEFAULT_ERROR else w.provided.code, None);
      }
      var e := w.provided.execution;
      var problem := Validate(e, t.plan);
      if problem.Some? {
        return Broken(problem.value, Some(e));
      }
      var how := None;
      if t.plan.Some? {
        how, stop := MaterializeGeneratedAsset(t, t.plan.value, e, w);
        if stop.Some? {
          return stop.value;
        }
      } else {
        stop := Stop(w, BeforeWrite, Some(e));
        if stop.Some? {
          return stop.value;
        }
      }
      items := items[t.jobId := items[t.jobId].(status := R.Succeeded)];
      RefreshRuntimeAggregate(t);
      stop := Stop(w, BeforeCommit, Some(e));
      if stop.Some? {
        return stop.value;
      }
      Commit();
      stop := Stop(w, AfterCommit, Some(e));
      ending := if stop.Some? then stop.value else Completed(how);
    }

    /** What the failure handler writes, up to its commit. */
    method RecordFailure(t: Task, code: string, execution: Option<Execution>, w: World) returns (recorded: bool)
      modifies this`items, this`runtimes, this`assets
      ensures var (s', outcome) := Recover(old(Pending()), t, code, execution, w.(handlerCommits := true));
        recorded == outcome.Recorded? && (recorded ==> Pending() == s')
    {
      recorded := false;
      if t.jobId in items {
        if t.plan.Some? {
          var plan := t.plan.value;
          var index := RegisterGeneratedAsset(t, plan, execution, plan.filename, plan.contentType, Failed, w);
          if index.None? {
            return;
          }
        }
        FailJob(t, code);
      }
      TouchRuntime(t, R.MarkFailed(code, w.errorMessage));
      recorded := true;
    }

    method Handle(t: Task, code: string, execution: Option<Execution>, w: World) returns (outcome: Outcome)
      requires Clean()
      modifies this
      ensures Clean() && (Stored(), outcome) == Recover(old(Stored()), t, code, execution, w)
    {
      var recorded := RecordFailure(t, code, execution, w);
      if !recorded || !w.handlerCommits {
        Rollback();
        return Unrecorded(code);
      }
      Commit();
      outcome := Recorded(code);
    }

    method Run(t: Task, w: World) returns (outcome: Outcome)
      requires Clean()
      modifies this
      ensures Clean() && (Stored(), outcome) == RunJob(old(Stored()), t, w)
    {
      var ending := Try(t, w);
      Rollback();
      match ending
      case Completed(how) => outcome := Finished(how);
      case Cut => outcome := Crashed;
      case Broken(code, execution) => outcome := Handle(t, code, execution, w);
    }
  }
}
