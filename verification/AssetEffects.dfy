/** What one worker run stores, in the terms of its inputs: the error code of a failed run, and the row, the object
    and the place of a finished one. */
module AssetEffects {
  import opened Options
  import opened AssetWorker
  import opened AssetRuns
  import R = RuntimeStatus
  import H = RuntimeHistory

  // ----- white space

  predicate AllSpace(s: string) {
    forall i | 0 <= i < |s| :: IsSpace(s[i])
  }

  /** The text between the white space around it. */
  ghost predicate IsCore(s: string, core: string) {
    && (exists lead, tail :: AllSpace(lead) && AllSpace(tail) && s == lead + core + tail)
    && (core != "" ==> !IsSpace(core[0]) && !IsSpace(core[|core| - 1]))
  }

  lemma CoreWith(s: string, lead: string, core: string, tail: string)
    requires AllSpace(lead) && AllSpace(tail) && s == lead + core + tail
    requires core != "" ==> !IsSpace(core[0]) && !IsSpace(core[|core| - 1])
    ensures IsCore(s, core)
  {
  }

  lemma SpaceBefore(s: string, core: string)
    requires s != "" && IsSpace(s[0]) && IsCore(s[1..], core)
    ensures IsCore(s, core)
  {
    var lead, tail :| AllSpace(lead) && AllSpace(tail) && s[1..] == lead + core + tail;
    assert s == ([s[0]] + lead) + core + tail;
    CoreWith(s, [s[0]] + lead, core, tail);
  }

  lemma SpaceBehind(s: string, core: string)
    requires s != "" && IsSpace(s[|s| - 1]) && IsCore(s[..|s| - 1], core)
    ensures IsCore(s, core)
  {
    var last := s[|s| - 1];
    var lead, tail :| AllSpace(lead) && AllSpace(tail) && s[..|s| - 1] == lead + core + tail;
    assert s == lead + core + (tail + [last]);
    CoreWith(s, lead, core, tail + [last]);
  }

  lemma {:induction false} StripIsCore(s: string)
    ensures IsCore(s, Strip(s))
  {
    if s == "" || (!IsSpace(s[0]) && !IsSpace(s[|s| - 1])) {
      assert s == [] + s + [];
      CoreWith(s, [], s, []);
    } else if IsSpace(s[0]) {
      StripIsCore(s[1..]);
      SpaceBefore(s, Strip(s[1..]));
    } else {
      StripIsCore(s[..|s| - 1]);
      SpaceBehind(s, Strip(s[..|s| - 1]));
    }
  }

  /** A text with a core that is not empty starts with white space up to where its core does, and no further. */
  lemma CoreStarts(s: string, lead: string, core: string, tail: string)
    requires s == lead + core + tail && AllSpace(lead) && core != "" && !IsSpace(core[0])
    ensures |lead| < |s| && !IsSpace(s[|lead|])
    ensures forall i | 0 <= i < |lead| :: IsSpace(s[i])
  {
    assert s[|lead|] == core[0];
  }

  lemma CoreEnds(s: string, lead: string, core: string, tail: string)
    requires s == lead + core + tail && AllSpace(tail) && core != "" && !IsSpace(core[|core| - 1])
    ensures |tail| < |s| && !IsSpace(s[|s| - 1 - |tail|])
    ensures forall i | |s| - |tail| <= i < |s| :: IsSpace(s[i])
  {
    assert s[|s| - 1 - |tail|] == core[|core| - 1];
    forall i | |s| - |tail| <= i < |s| ensures IsSpace(s[i]) {
      assert s[i] == tail[i - (|s| - |tail|)];
    }
  }

  lemma CoreOfBlank(s: string, core: string)
    requires IsCore(s, core)
    ensures core == "" <==> AllSpace(s)
  {
    var lead, tail :| AllSpace(lead) && AllSpace(tail) && s == lead + core + tail;
    if core == "" {
      assert s == lead + tail;
    } else {
      CoreStarts(s, lead, core, tail);
    }
  }

  lemma CoreIsUnique(s: string, a: string, b: string)
    requires IsCore(s, a) && IsCore(s, b)
    ensures a == b
  {
    CoreOfBlank(s, a);
    CoreOfBlank(s, b);
    if a != "" {
      var lead, tail :| AllSpace(lead) && AllSpace(tail) && s == lead + a + tail;
      var lead', tail' :| AllSpace(lead') && AllSpace(tail') && s == lead' + b + tail';
      CoreStarts(s, lead, a, tail);
      CoreStarts(s, lead', b, tail');
      CoreEnds(s, lead, a, tail);
      CoreEnds(s, lead', b, tail');
      assert |lead| == |lead'| && |tail| == |tail'|;
      assert a == s[|lead|..|s| - |tail|] && b == s[|lead'|..|s| - |tail'|];
    }
  }

  /** Trimming takes away the white space around the text, all of it and nothing else. */
  lemma StripExactly(s: string, core: string)
    ensures Strip(s) == core <==> IsCore(s, core)
    ensures Strip(s) == "" <==> AllSpace(s)
  {
    StripIsCore(s);
    CoreOfBlank(s, Strip(s));
    if IsCore(s, core) {
      CoreIsUnique(s, Strip(s), core);
    }
  }

  // ----- which error code a run records

  /** The run ends with this code. It is recorded exactly when the handler commits and, for a planned asset, finds a
      sequence: then the job failed with the code; otherwise it is left running, with none. */
  ghost predicate FailsWith(s: Persisted, t: Task, w: World, code: string)
    requires t.jobId in s.items
  {
    var (s', outcome) := RunJob(s, t, w);
    var item := s.items[t.jobId];
    if w.handlerCommits && (t.plan.Some? ==> ResolveSequence(item, ExecutionOf(w), w).Some?) then
      && outcome == Recorded(code)
      && s'.items == s.items[t.jobId :=
           item.(status := R.Failed, attemptCount := item.attemptCount + 1, errorCode := Some(code))]
    else
      && outcome == Unrecorded(code)
      && s'.items == s.items[t.jobId :=
           item.(status := R.Running, attemptCount := item.attemptCount + 1, errorCode := None)]
  }

  lemma BrokenFailsWith(s: Persisted, t: Task, w: World, code: string)
    requires t.jobId in s.items && Attempt(s, t, w) == (Begun(s, t), Broken(code, ExecutionOf(w)))
    ensures FailsWith(s, t, w, code)
  {
    var begun, item := Begun(s, t), Started(s.items[t.jobId]);
    RecordedExactly(begun, t, code, ExecutionOf(w), w);
    assert begun.items == s.items[t.jobId := item];
    var failed := item.(status := R.Failed, errorCode := Some(code));
    assert begun.items[t.jobId := failed] == s.items[t.jobId := failed];
  }

  /** Nothing cuts the run short before the provider has answered. */
  predicate Reached(w: World) {
    w.interruption.Never? || w.interruption.at !in {BeforeStart, BeforeExecution}
  }

  /** A provider's own code is the recorded one, and the default takes the place of a blank one only. */
  lemma RaisedCodeIsRecorded(s: Persisted, t: Task, w: World)
    requires t.jobId in s.items && Reached(w) && w.provided.Raised?
    ensures !AllSpace(w.provided.code) ==> FailsWith(s, t, w, w.provided.code)
    ensures AllSpace(w.provided.code) ==> FailsWith(s, t, w, "worker_execution_failed")
  {
    StripExactly(w.provided.code, "");
    BrokenFailsWith(s, t, w, if AllSpace(w.provided.code) then "worker_execution_failed" else w.provided.code);
  }

  /** Each way a result is refused has its code. */
  lemma RejectionCodeIsRecorded(s: Persisted, t: Task, w: World, e: Execution)
    requires t.jobId in s.items && Reached(w) && w.provided == Returned(e)
    ensures Strip(e.status) == "succeeded_stub" ==> FailsWith(s, t, w, "provider_stub_result_disallowed")
    ensures Strip(e.status) !in {"succeeded_stub", "succeeded"} ==>
      FailsWith(s, t, w, "provider_execution_not_succeeded")
    ensures Strip(e.status) == "succeeded" && t.plan.Some? && RequiresBinary(t.plan.value) ==>
      && (e.binary == Absent ==> FailsWith(s, t, w, "binary_payload_required"))
      && (e.binary.Text? || e.binary == Unsupported ==> FailsWith(s, t, w, "binary_payload_invalid_type"))
      && (e.binary == Blob([]) ==> FailsWith(s, t, w, "binary_payload_empty"))
  {
    var problem := Validate(e, t.plan);
    if problem.Some? {
      BrokenFailsWith(s, t, w, problem.value);
    }
  }

  /** Every other failure of a run that nothing interrupts has the default code: a planned asset's sequence does not
      resolve, or there is nothing to write. */
  lemma OtherwiseDefault(s: Persisted, t: Task, w: World)
    requires t.jobId in s.items && w.interruption.Never? && w.provided.Returned?
    requires Validate(w.provided.execution, t.plan).None? && !CanFinish(s, t, w)
    ensures FailsWith(s, t, w, "worker_execution_failed")
  {
    FinishesExactly(s, t, w);
    BrokenFailsWith(s, t, w, "worker_execution_failed");
  }

  /** A job that is not there changes no job and no asset, and is reported by the default code; so is its runtime,
      when it has no jobs at all. */
  lemma MissingJobIsDefault(s: Persisted, t: Task, w: World)
    requires t.jobId !in s.items && w.interruption.Never?
    ensures var (s', outcome) := RunJob(s, t, w);
      && s' == s.(runtimes := s'.runtimes)
      && outcome == (if w.handlerCommits then Recorded("worker_execution_failed")
                     else Unrecorded("worker_execution_failed"))
      && (!w.handlerCommits ==> s' == s)
      && (w.handlerCommits && KeyOf(t) in s.runtimes && JobsOf(s.items, s.order, KeyOf(t)) == [] ==>
            && KeyOf(t) in s'.runtimes
            && var runtime := s'.runtimes[KeyOf(t)];
            && runtime.compileStatus == "failed"
            && runtime.lastErrorCode == Some("worker_execution_failed")
            && runtime.lastErrorMessage == Some(w.errorMessage))
  {
  }

  /** An error raised by the storage or the database has the default code, wherever it strikes an otherwise good
      run. */
  lemma StorageErrorIsDefault(s: Persisted, t: Task, w: World)
    requires t.jobId in s.items && w.interruption.Raises?
    requires Reached(w) ==> w.provided.Returned? && Validate(w.provided.execution, t.plan).None?
    ensures RunJob(s, t, w).1 in {Recorded("worker_execution_failed"), Unrecorded("worker_execution_failed")}
  {
    var (s1, ending) := Attempt(s, t, w);
    RecordedExactly(s1, t, ending.code, ending.execution, w);
  }

  /** A crash records nothing: before the first commit everything is as it was, and after it the job is running. */
  lemma CrashRecordsNothing(s: Persisted, t: Task, w: World)
    requires t.jobId in s.items
    ensures w.interruption == Crashes(BeforeStart) ==> RunJob(s, t, w) == (s, Crashed)
    ensures w.interruption == Crashes(BeforeExecution) ==>
      var (s', outcome) := RunJob(s, t, w);
      var item := s.items[t.jobId];
      && outcome == Crashed && s' == s.(items := s'.items, runtimes := s'.runtimes)
      && s'.items == s.items[t.jobId :=
           item.(status := R.Running, attemptCount := item.attemptCount + 1, errorCode := None)]
  {
  }

  /** The text starts with the word, in small or capital letters. */
  predicate StartsWith(text: string, word: string) {
    && |word| <= |text|
    && forall i | 0 <= i < |word| ::
         text[i] == word[i] || ('a' <= word[i] <= 'z' && text[i] as int + 32 == word[i] as int)
  }

  lemma LowerStarts(text: string, word: string)
    requires forall c | c in word :: 'a' <= c <= 'z' || c == '/'
    ensures word <= Lower(text) <==> StartsWith(text, word)
  {
    var lower := Lower(text);
    if word <= lower {
      forall i | 0 <= i < |word|
        ensures text[i] == word[i] || ('a' <= word[i] <= 'z' && text[i] as int + 32 == word[i] as int)
      {
        assert word[i] == lower[i];
      }
    }
    if StartsWith(text, word) {
      forall i | 0 <= i < |word| ensures word[i] == lower[i] {
        assert word[i] in word;
      }
    }
  }

  /** The assets that need bytes are those whose trimmed content type starts with one of three words. */
  lemma MediaExactly(plan: Plan)
    ensures RequiresBinary(plan) <==>
      || StartsWith(Strip(plan.contentType), "image/")
      || StartsWith(Strip(plan.contentType), "video/")
      || StartsWith(Strip(plan.contentType), "audio/")
  {
    var contentType := Strip(plan.contentType);
    LowerStarts(contentType, "image/");
    LowerStarts(contentType, "video/");
    LowerStarts(contentType, "audio/");
  }

  // ----- what the runtime row says of a failure

  /** The job is listed, and no job of the runtime listed after it failed. */
  predicate IsNewestFailure(s: Persisted, n: nat, key: RuntimeKey) {
    && n < |s.order| && s.order[n] in s.items
    && s.items[s.order[n]].key == key && s.items[s.order[n]].status.Failed?
    && forall k | n < k < |s.order| && s.order[k] in s.items && s.items[s.order[k]].key == key ::
         !s.items[s.order[k]].status.Failed?
  }

  lemma {:induction false} NewestFailureIsLast(s: Persisted, order: seq<Id>, n: nat, key: RuntimeKey)
    requires order <= s.order && n < |order| && IsNewestFailure(s.(order := order), n, key)
    ensures var jobs, item := JobsOf(s.items, order, key), s.items[order[n]];
      R.LastFailed(jobs) == Some(R.Job(R.Failed, item.attemptCount, item.errorCode))
  {
    var last := |order| - 1;
    var jobs := JobsOf(s.items, order[..last], key);
    if n < last {
      NewestFailureIsLast(s, order[..last], n, key);
      assert jobs + [] == jobs;
      if order[last] in s.items && s.items[order[last]].key == key {
        var all := JobsOf(s.items, order, key);
        assert all[..|all| - 1] == jobs;
      }
    }
  }

  lemma RefreshShowsFailure(runtime: R.Runtime, jobs: seq<R.Job>, failed: R.Job)
    requires R.LastFailed(jobs) == Some(failed)
    ensures var r' := R.Refreshed(runtime, jobs);
      && r'.compileStatus == "failed" && r'.lastErrorMessage == runtime.lastErrorMessage
      && r'.lastErrorCode == if Given(failed.errorCode) then failed.errorCode else runtime.lastErrorCode
  {
    R.LastFailedIsNewest(jobs);
    R.CountMeans(jobs, R.Failed);
  }

  lemma RecordingTouches(s: Persisted, t: Task, code: string, execution: Option<Execution>, w: World)
    requires Recover(s, t, code, execution, w).1.Recorded?
    ensures var s' := Recover(s, t, code, execution, w).0;
      && s'.order == s.order
      && s'.runtimes == Touched(s.runtimes, s'.items, s.order, t, R.MarkFailed(code, w.errorMessage))
  {
  }

  /** The failure handler leaves its message in the runtime row, which is failed; the code there is the one of the
      newest failed job of the runtime, so this one's when no newer job failed. */
  lemma HandlerInRuntime(s: Persisted, t: Task, code: string, execution: Option<Execution>, w: World, n: nat)
    requires Recover(s, t, code, execution, w).1.Recorded?
    requires KeyOf(t) in s.runtimes && IsNewestFailure(Recover(s, t, code, execution, w).0, n, KeyOf(t))
    ensures KeyOf(t) in Recover(s, t, code, execution, w).0.runtimes
    ensures var s' := Recover(s, t, code, execution, w).0;
      var runtime, newest := s'.runtimes[KeyOf(t)], s'.items[s'.order[n]];
      && runtime.compileStatus == "failed" && runtime.lastErrorMessage == Some(w.errorMessage)
      && runtime.lastErrorCode == if Given(newest.errorCode) then newest.errorCode else Some(code)
  {
    var s' := Recover(s, t, code, execution, w).0;
    var newest := s'.items[s'.order[n]];
    RecordingTouches(s, t, code, execution, w);
    NewestFailureIsLast(s', s'.order, n, KeyOf(t));
    RefreshShowsFailure(R.Marked(s.runtimes[KeyOf(t)], R.MarkFailed(code, w.errorMessage)),
                        JobsOf(s'.items, s'.order, KeyOf(t)),
                        R.Job(R.Failed, newest.attemptCount, newest.errorCode));
  }

  lemma AttemptKeepsRuntime(s: Persisted, t: Task, w: World)
    ensures KeyOf(t) in s.runtimes <==> KeyOf(t) in Attempt(s, t, w).0.runtimes
  {
    H.AttemptRows(s, t, w);
  }

  /** The same of a whole run that records its failure, however far it came: the runtime row shows the message, and
      the code the outcome names when this job is the newest failed one. */
  lemma FailureInRuntime(s: Persisted, t: Task, w: World, n: nat)
    requires RunJob(s, t, w).1.Recorded?
    requires KeyOf(t) in s.runtimes && IsNewestFailure(RunJob(s, t, w).0, n, KeyOf(t))
    ensures KeyOf(t) in RunJob(s, t, w).0.runtimes
    ensures var (s', outcome) := RunJob(s, t, w);
      var runtime := s'.runtimes[KeyOf(t)];
      && runtime.compileStatus == "failed" && runtime.lastErrorMessage == Some(w.errorMessage)
      && (s'.order[n] == t.jobId && outcome.code != "" ==> runtime.lastErrorCode == Some(outcome.code))
  {
    var (s1, ending) := Attempt(s, t, w);
    AttemptKeepsRuntime(s, t, w);
    HandlerInRuntime(s1, t, ending.code, ending.execution, w, n);
    RecordedExactly(s1, t, ending.code, ending.execution, w);
  }

  // ----- where an asset goes

  /** The places a sequence id is looked for, first to last. */
  function References(item: WorkItem, execution: Option<Execution>): seq<Reference> {
    (if execution.Some? then [execution.value.selection] else []) + [item.selector, item.direct]
  }

  predicate AllUnset(references: seq<Reference>) {
    forall i | 0 <= i < |references| :: references[i] == Unset
  }

  /** The first reference that is set decides, also when it is malformed or names no sequence; only when none is set
      the project's first sequence is taken. */
  lemma FirstReferenceDecides(item: WorkItem, execution: Option<Execution>, w: World)
    ensures var references, resolved := References(item, execution), ResolveSequence(item, execution, w);
      && (forall k | 0 <= k < |references| && references[k] != Unset && AllUnset(references[..k]) ::
            match references[k]
            case Malformed => resolved == None
            case Sequence(id) => resolved == if id in w.sequences then Some(Some(id)) else None)
      && (AllUnset(references) ==> resolved == Some(w.firstSequence))
  {
    var references := References(item, execution);
    var n := |references|;
    assert references[n - 2] == item.selector && references[n - 1] == item.direct;
    assert execution.Some? ==> references[0] == execution.value.selection;
    forall k | 0 <= k < n && AllUnset(references[..k]) ensures forall j | 0 <= j < k :: references[j] == Unset {
      assert forall j | 0 <= j < k :: references[j] == references[..k][j];
    }
  }

  /** The bucket goes by the kind of the asset; an unknown kind goes with the reference material. */
  lemma BucketsByKind(b: Buckets, assetType: string)
    ensures assetType == "generated_image" ==> ResolveBucket(b, assetType) == b.generatedImages
    ensures assetType == "generated_video" ==> ResolveBucket(b, assetType) == b.generatedVideos
    ensures assetType == "audio" ==> ResolveBucket(b, assetType) == b.audio
    ensures assetType == "runtime" ==> ResolveBucket(b, assetType) == b.runtime
    ensures assetType == "export" ==> ResolveBucket(b, assetType) == b.exports
    ensures assetType !in {"generated_image", "generated_video", "audio", "runtime", "export"} ==>
      ResolveBucket(b, assetType) == b.reference
  {
  }

  /** Of a path only the last component is kept, with its spaces replaced; a slash or a dot at the end is not one. */
  lemma LastComponentIsKept(path: string, name: string)
    requires '/' !in name && name != "" && name != "."
    ensures |SafeName(name)| == |name|
    ensures forall i | 0 <= i < |name| :: SafeName(name)[i] == if name[i] == ' ' then '_' else name[i]
    ensures SafeName(path + "/" + name) == SafeName(name)
    ensures SafeName(name + "/") == SafeName(name) == SafeName(name + "/.")
  {
    NoSlash(name);
    SlashBeforeTail(path, name);
    assert (path + "/" + name)[|path| + 1..] == name;
    SlashBeforeTail(name, "");
    assert name + "/" + "" == name + "/";
    assert (name + "/")[|name| + 1..] == "" && (name + "/")[..|name|] == name;
    SlashBeforeTail(name, ".");
    assert (name + "/.")[|name| + 1..] == "." && (name + "/.")[..|name|] == name;
  }

  lemma NoSlash(name: string)
    requires '/' !in name
    ensures LastSlash(name) == 0
  {
  }

  // ----- what a finished run stores

  /** The row of a planned asset: the project of the run, the resolved sequence, the plan's kind and role, the file name
      and the place made of them. */
  predicate Describes(row: Asset, s: Persisted, t: Task, plan: Plan, sequenceId: Option<Id>, filename: string)
    requires t.jobId in s.items
  {
    && row.projectId == t.projectId && row.sequenceId == sequenceId
    && row.assetType == plan.assetType && row.assetRole == plan.assetRole && row.filename == filename
    && row.place.bucket == ResolveBucket(s.buckets, plan.assetType)
    && row.place.key == "projects/" + t.projectId + "/runtime/" + t.runtimeVersion + "/"
         + (if sequenceId == None then "" else "sequences/" + sequenceId.value + "/")
         + s.items[t.jobId].jobType + "/" + SafeName(filename)
  }

  lemma DepositStores(assets: seq<Asset>, objects: map<Place, Object>, row: Asset, payload: Option<Bytes>)
    requires Deposit(assets, objects, row, payload).Some?
    ensures var p := Deposit(assets, objects, row, payload).value;
      && row.place in p.objects
      && (row.place in objects ==> p.objects[row.place] == objects[row.place])
      && (row.place !in objects ==> Some(p.objects[row.place].data) == payload
                                    && p.objects[row.place].contentType == row.contentType)
      && Backed(row, p.objects[row.place]) in p.assets
  {
    var p, registered := Deposit(assets, objects, row, payload).value, Register(assets, row);
    var i := IndexOf(registered, row.place);
    RegisterFinds(assets, row);
    assert p.assets[i] == Backed(row, p.objects[row.place]);
  }

  /** A finished run of a planned asset leaves a materialized row that describes it: it bears the file name and the
      content type of the result, or the plan's where the result has none, and its object the result's bytes, unless
      the object was there before; then that one stays, and the content type is the object's. */
  lemma FinishedStores(s: Persisted, t: Task, w: World)
    requires RunJob(s, t, w).1.Finished? && t.plan.Some?
    ensures w.provided.Returned? && t.jobId in s.items
    ensures var plan, e, s' := t.plan.value, w.provided.execution, RunJob(s, t, w).0;
      var sequenceId := ResolveSequence(s.items[t.jobId], Some(e), w);
      var filename := if e.outputFilename != "" then e.outputFilename else plan.filename;
      && sequenceId.Some?
      && exists row | row in s'.assets ::
           && Describes(row, s, t, plan, sequenceId.value, filename)
           && row.status == Materialized && row.place in s'.objects
           && row.fileSize == Some(|s'.objects[row.place].data|)
           && (row.place in s.objects ==> s'.objects[row.place] == s.objects[row.place])
           && (row.place !in s.objects ==> HasContentType(s'.objects[row.place].contentType, e, plan)
                                           && HasBytes(s'.objects[row.place].data, e))
           && (row.contentType == s'.objects[row.place].contentType
               || (s'.objects[row.place].contentType == "" && HasContentType(row.contentType, e, plan)))
  {
    FinishedCommits(s, t, w);
    var plan, e := t.plan.value, w.provided.execution;
    var item := Started(s.items[t.jobId]);
    var sequenceId := ResolveSequence(item, Some(e), w).value;
    var row := NewRow(s.buckets, t, plan, item.jobType, sequenceId, ResolveFilename(e, plan),
                      ResolveContentType(e, plan), Registered);
    DepositStores(s.assets, s.objects, row, ResolvePayload(e, plan));
    RowDescribes(s, t, plan, sequenceId, ResolveFilename(e, plan), ResolveContentType(e, plan), Registered);
    ContentTypeResolved(e, plan);
    BytesResolved(e, plan);
    var backed := Backed(row, RunJob(s, t, w).0.objects[row.place]);
    assert backed in RunJob(s, t, w).0.assets;
    assert Describes(backed, s, t, plan, sequenceId, ResolveFilename(e, plan));
  }

  /** The content type of a result: its own or else the plan's, trimmed; the plan's as it is when that is blank. */
  predicate HasContentType(contentType: string, e: Execution, plan: Plan) {
    var given := if e.contentType != "" then e.contentType else plan.contentType;
    contentType == if AllSpace(given) then plan.contentType else Strip(given)
  }

  /** The bytes a result gives: its binary or text payload, or else its plain text. */
  predicate HasBytes(data: Bytes, e: Execution) {
    match e.binary
    case Blob(bytes) => data == bytes
    case Text(encoded) => data == encoded
    case Absent => e.text == Some(data)
    case Unsupported => false
  }

  lemma BytesResolved(e: Execution, plan: Plan)
    ensures ResolvePayload(e, plan).Some? ==> HasBytes(ResolvePayload(e, plan).value, e)
  {
  }

  lemma ContentTypeResolved(e: Execution, plan: Plan)
    ensures HasContentType(ResolveContentType(e, plan), e, plan)
  {
    StripExactly(if e.contentType != "" then e.contentType else plan.contentType, "");
  }

  lemma RowDescribes(s: Persisted, t: Task, plan: Plan, sequenceId: Option<Id>, filename: string,
                     contentType: string, status: AssetStatus)
    requires t.jobId in s.items
    ensures Describes(NewRow(s.buckets, t, plan, s.items[t.jobId].jobType, sequenceId, filename, contentType, status),
                      s, t, plan, sequenceId, filename)
  {
  }

  lemma HandlerStores(s: Persisted, t: Task, code: string, execution: Option<Execution>, w: World)
    requires t.jobId in s.items && t.plan.Some? && Recover(s, t, code, execution, w).1.Recorded?
    ensures var plan, sequenceId := t.plan.value, ResolveSequence(s.items[t.jobId], execution, w);
      && sequenceId.Some?
      && exists row | row in Recover(s, t, code, execution, w).0.assets ::
           && Describes(row, s, t, plan, sequenceId.value, plan.filename)
           && row.status == Failed && row.contentType == plan.contentType
  {
    var plan, item := t.plan.value, s.items[t.jobId];
    var sequenceId := ResolveSequence(item, execution, w).value;
    var failed := NewRow(s.buckets, t, plan, item.jobType, sequenceId, plan.filename, plan.contentType, Failed);
    var assets, i := Register(s.assets, failed), IndexOf(s.assets, failed.place);
    RegisterFinds(s.assets, failed);
    RowDescribes(s, t, plan, sequenceId, plan.filename, plan.contentType, Failed);
    assert assets[i] in assets && Describes(assets[i], s, t, plan, sequenceId, plan.filename);
  }

  /** A run that nothing interrupts and that records its failure leaves a failed row that describes the planned
      asset, under the planned name and content type whatever the provider's. */
  lemma FailureStores(s: Persisted, t: Task, w: World)
    requires t.jobId in s.items && t.plan.Some? && w.interruption.Never? && RunJob(s, t, w).1.Recorded?
    ensures var plan, s' := t.plan.value, RunJob(s, t, w).0;
      var sequenceId := ResolveSequence(s.items[t.jobId], ExecutionOf(w), w);
      && sequenceId.Some?
      && exists row | row in s'.assets ::
           && Describes(row, s, t, plan, sequenceId.value, plan.filename)
           && row.status == Failed && row.contentType == plan.contentType
  {
    BrokenWithSequence(s, t, w);
    HandlerStores(Begun(s, t), t, Attempt(s, t, w).1.code, ExecutionOf(w), w);
  }
}
