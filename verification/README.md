# Verified model of the video-replication runtime

The system turns video blueprints and projects into runtime packets and runs the resulting jobs on
workers. Workers claim jobs under leases in a shared database, keep the leases alive with heartbeats,
and report completion or failure; an asset worker calls a provider and places the generated bytes in an
object store. This project models these parts in Dafny and proves what they promise over every input,
every run and every interleaving.

`dafny verify dfyconfig.toml` checks everything.

## How the model is built

**The lease protocol.** `RuntimeTables` holds the four tables (jobs, attempts, leases, workers) as one
state. `LeaseProtocol` gives each service transaction as a function on states, with the guards in the
order of the code and the refusal each one raises. `RuntimeDatabase` is the imperative side: a class
whose repository methods change rows and whose services call them inside a transaction that an error
rolls back; every service is proved to have exactly the effect of its function. `LeaseInvariant` states
the invariant over the four tables and exact acceptance conditions, `LeaseSteps` proves that every
transaction keeps the invariant, and `LeaseRuns` draws the theorems about arbitrary finite runs.
`LeaseEffects` says column by column what accepted transactions store, in the terms of the request, why
requests are refused, and what a stored row means for the requests that follow.
`ClaimSelection` is about the candidate window of the claim query. Times are integers in microseconds;
the clock, the generated ids and the candidate rows are parameters of a step and otherwise arbitrary: no
order between the clocks of different steps is assumed, and no freshness of ids (a used id meets the
unique constraint).

**Interleavings.** `LockProtocol` splits the same transactions into single row locks, as PostgreSQL runs
them at READ COMMITTED, the level the engine is left at. Locks are held to the end, a blocking request
re-reads the committed row when it is granted, and the claim query skips locked rows. A transaction decides
and writes from the copies it has read; the proof shows that no locked copy is ever outdated and that no set
of open transactions can wait in a circle. One read is not locked: a claim reads its worker, and when there
is no row it reads again and may then find one that was committed in between. The claim goes on with the row
it found and the health status it chose without it. Such a missed claim is a move of its own here and a step
of its own in `LeaseProtocol`, so all theorems about runs cover it. `Serializability` proves exactly when it
makes a difference. `LockEffects` shows that the splitting adds and loses nothing: a transaction ends as the
whole one would at the moment of its end, and run alone it comes to that end.

**Blueprints.** `Blueprint` has the document, the quantified consistency condition and the one-pass
validator with its running sets. `BlueprintCompiler` has the compiler. `BlueprintPacket` says what its packet
lists, in which order and under which names, in the words of the document. `SequenceLaws` holds laws of lists
and of sorting that both compilers use.

**Projects.** `ProjectCompiler` validates the rows of a project, groups them by sequence and adds up the
durations in the code's own loops, and proves what the grouping conserves. `ProjectPacket` says what each
packet reports of its sequence, in the words of the rows.

**The asset worker.** `AssetWorker` runs one job against the job, runtime and asset tables and the object
store, with a session that commits or rolls back beside a store that does neither. A run may be cut short
at five points, by a raised error or by a crash. `AssetRuns` has the theorems about assets and objects over
any history of runs. `RuntimeStatus` derives the aggregate status of a runtime from its jobs and has the
theorems about runs of status transactions; `RuntimeHistory` shows that any history of the worker, seen
from one runtime row, is such a run. `AssetEffects` says which error code a failed run records and where it
shows, and which row and object a finished one leaves.

## What the proofs found

- A full window of 25 candidates can hide a fitting job. Some answer of the query does so exactly when at
  least 25 visible jobs that do not fit come no later than every one that does, and every answer exactly
  when at least 25 come before every one that does (`ClaimSelection.MayHideExactly`, `MustHideExactly`;
  `WindowHidesFit` is a queue where it happens).
- A worker that declares no tags is given the head of the window whatever tags that job requires
  (`ClaimSelection.TagsCovered` has the exact condition, `TagsIgnored` a queue).
- Interleaved transactions are not always serializable: a claim that missed its worker writes HEALTHY over
  the row it did not see, so that a drain that succeeded is lost (`Serializability.DrainIsLost`). The
  committed transactions run in one piece in commit order pass through the same states exactly when every
  such claim found its worker healthy (`SerializableExactly`), which is always so while no health change to
  another status commits (`Serializable`). No invariant of the four tables depends on it.
- A heartbeat that marks its job running but names no attempt is told that the attempt has started. The
  stored attempt says otherwise exactly when it was still only claimed (`LeaseInvariant.ReportIsStored`;
  `LeaseRuns.ReportDiffersInARun` is a run where it does).
- `docs/sixth_batch_engineering_notes.md` describes a short cut for a row that is already materialized.
  Registering resets the status first, so the code never takes it
  (`AssetRuns.NeverAlreadyMaterialized`); the object-store short cut does its work.
- A failed run turns a materialized row to failed although the object is still there, exactly when it
  records its failure at the row's place (`AssetRuns.DemotedExactly`; `DemotionHappens` is a finished run
  and a second one whose provider raises).
- A planned job whose sequence id is malformed or names no sequence stays running: the failure handler
  resolves the same id, fails as well, and rolls back (`AssetRuns.LeftRunningExactly`,
  `LeftRunningHappens`).
- The compile status of a runtime can go back from succeeded to running. A transaction leaves a settled
  status alone exactly when, after success, it repeats a success or does not find its job and, after a
  failure, it fails again, does not find its job, or another job stays failed
  (`RuntimeStatus.SettledExactly`, over whole runs `RunSettledExactly`; `CompileStatusRegresses` is a run).
  The dispatch status cannot regress.
- The error code and the error message of a runtime row need not belong together: the message is that of the
  last failure, the code that of the newest failed job (`RuntimeStatus.FailureIsShown` has the exact
  condition).
- The object key rule in the repository's README has no sequence folder; the code adds one whenever a
  sequence is resolved, and the model follows the code.

## Model

| member | source | states |
|---|---|---|
| `LeaseSteps.StepKeepsInv` | app/services/runtime_fail_service.py:42-118 | every transaction, accepted or refused, keeps the cross-table invariant: active leases agree with their job and with the newest attempt, jobs and attempts are consistent, slot counts equal active leases |
| `LeaseRuns.ReachableInv` | app/services/runtime_claim_service.py:42-125 | every state reached from empty tables by any finite run meets that invariant |
| `LeaseInvariant.OneActiveLeasePerJob` | app/repositories/worker_lease_repository.py:20-27 | two ACTIVE leases never name the same job, so the single-row lookup by job cannot find two |
| `LeaseInvariant.LeasedJobs` | app/services/runtime_claim_service.py:75-111 | a CLAIMED or RUNNING job has an ACTIVE lease; a job in any status that holds no claim has none; in general exactly the job whose own claim token is on an ACTIVE lease |
| `LeaseInvariant.ReportAcceptance` | app/services/runtime_complete_service.py:45-70 | complete and fail succeed if and only if an ACTIVE lease carries the token, job, worker and attempt and the payload is permitted; without ownership the refusal is a lease conflict; a refusal changes no table |
| `LeaseInvariant.HeartbeatAcceptance` | app/services/runtime_heartbeat_service.py:46-107 | a heartbeat succeeds if and only if the sender owns the lease, it is unexpired, an extension is left and, to mark the job running, cancellation was not requested; a refusal changes no table |
| `LeaseInvariant.ReportIsStored` | app/services/runtime_heartbeat_service.py:77-131 | an accepted heartbeat answers the stored lease id, job status, counters and expiry; the attempt status it answers differs from the stored one if and only if it marks the job running, names no attempt and the attempt was still claimed |
| `LeaseInvariant.ReportDiffers` | app/services/runtime_heartbeat_service.py:107-108 | on any unexpired lease with an extension left, whose job is CLAIMED and attempt only claimed, a heartbeat that marks the job running and names no attempt is told STARTED while the attempt stays claimed |
| `LeaseRuns.ReportDiffersInARun` | app/services/runtime_heartbeat_service.py:107-108 | a concrete run after which that happens |
| `LeaseRuns.ReportedAtMostOnce` | app/repositories/worker_lease_repository.py:61-92 | in any run each claim token is accepted by at most one complete or fail |
| `LeaseRuns.Fenced` | app/repositories/worker_lease_repository.py:29-36 | after an accepted report every later heartbeat, complete or fail with its token is refused with a lease conflict and no claim is issued the token, whatever happened in between |
| `LeaseRuns.TerminalForever` | app/services/runtime_complete_service.py:58-61 | once a job is terminal no run changes its row |
| `LeaseRuns.CancelledForever` | app/repositories/runtime_job_repository.py:174-191 | once cancellation is requested no run claims the job again: its attempt count and its set of attempts are frozen |
| `LeaseRuns.SlotsBalance` | app/repositories/worker_registry_repository.py:88-102 | in every reachable state a worker's job count is its accepted claims minus its accepted reports, equals its ACTIVE leases, and is between 0 and its stored max_concurrency |
| `LeaseSteps.LeaseFreesSlot` | app/repositories/worker_registry_repository.py:96-102 | an accepted report takes exactly its own token out of its worker's active leases, and the count it decrements is at least one, so the floor at zero has no effect |
| `LeaseSteps.ClaimTakesSlot` | app/services/runtime_claim_service.py:98-111 | an accepted claim adds exactly its own token to its worker's active leases |
| `LeaseRuns.LeaseLifetime` | app/services/runtime_heartbeat_service.py:57-75 | if no timeout in use exceeds T, an ACTIVE lease has heartbeat_count = extension_count ≤ max_extensions, expires by start + (extension_count + 1)·T, and is never unexpired past start + (max_extensions + 1)·T |
| `LeaseRuns.AttemptHistory` | app/services/runtime_claim_service.py:86-97 | a job's attempts are numbered 1 to attempt_count once each, the first PRIMARY and the others RETRY, all but the last ended in failure, and one is COMPLETED exactly when it is the last and the job SUCCEEDED |
| `LeaseRuns.SucceededIsCompleted` | app/services/runtime_complete_service.py:72-89 | a job is SUCCEEDED if and only if one of its attempts is COMPLETED |
| `LeaseRuns.CountAttempts` | app/repositories/runtime_job_repository.py:99 | for every k up to attempt_count exactly k attempts have an index up to k |
| `LeaseEffects.FailStores` | app/services/runtime_fail_service.py:69-118 | an accepted fail stores the outcome asked for; the attempt ends TIMED_OUT or STALE exactly when that was reported and FAILED otherwise; the lease is EXPIRED exactly when asked and RELEASED otherwise; finished_at and lease_expires_at of the job change for FAILED only; one slot is freed; all other columns and rows stay |
| `LeaseEffects.RetriedExactly` | app/repositories/runtime_job_repository.py:55-68 | after an accepted fail the job can be claimed again if and only if WAITING_RETRY was asked for and no cancellation was, by claims for its queue and routing key |
| `LeaseEffects.CompleteStores` | app/services/runtime_complete_service.py:72-96 | an accepted completion finishes job and attempt at the time of the report, stores each metric that was reported in its own column and keeps the others, releases the lease and frees one slot; all other columns and rows stay |
| `LeaseEffects.HeartbeatExtends` | app/services/runtime_heartbeat_service.py:67-75 | the lease of an accepted heartbeat expires the asked seconds from now, unless none or zero are asked, else the job's own seconds from now, later or sooner than before; both counters rise by one |
| `LeaseEffects.HeartbeatBuysTime` | app/services/runtime_heartbeat_service.py:57-75 | after it another heartbeat is accepted exactly before that time and while an extension is left |
| `LeaseEffects.HeartbeatMarks` | app/services/runtime_heartbeat_service.py:77-117 | job and attempt are marked exactly when asked, keep their first start time, and are otherwise left alone |
| `LeaseEffects.HeartbeatSpares` | app/services/runtime_heartbeat_service.py:46-119 | a heartbeat changes no row but the four it names |
| `LeaseEffects.ClaimStores` | app/services/runtime_claim_service.py:75-109 | the job, the attempt and the lease an accepted claim leaves, with the expiry the request or else the job sets, column by column |
| `LeaseEffects.ClaimSpares` | app/services/runtime_claim_service.py:64-112 | an accepted claim adds one attempt and one lease and leaves every row but its job's and its worker's as it is |
| `LeaseEffects.ClaimantStores` | app/repositories/worker_registry_repository.py:20-57 | the worker of an accepted claim has the declared tags and limit, one job more, its stored health or HEALTHY when it is new or was missed, and no stale drain or offline time |
| `LeaseEffects.EmptyClaimStores` | app/services/runtime_claim_service.py:66-73 | a claim that finds no job does the same to its worker but for the job count, and changes nothing else |
| `LeaseEffects.ClaimBuysTime` | app/services/runtime_claim_service.py:75-109 | the first heartbeat after a claim is accepted exactly before the expiry the claim set, if it allows an extension |
| `LeaseEffects.CancelStores` | app/repositories/runtime_job_repository.py:174-191 | a cancellation leaves a job in one of the six final statuses alone and marks any other |
| `LeaseEffects.HealthStores` | app/repositories/worker_registry_repository.py:67-86 | a health change records when the worker began to drain or went offline, and forgets neither time |
| `LeaseEffects.CreateStores` | app/repositories/runtime_job_repository.py:34-40 | a new job is held by nobody and was never run; it can be claimed exactly when it is created QUEUED, by claims for its queue and routing key |
| `LeaseEffects.ReportRefusal` | app/services/runtime_complete_service.py:45-71 | each refusal of complete and fail has its exact cause: no ownership, a negative metric, an outcome the job may not take |
| `LeaseEffects.HeartbeatRefusal` | app/services/runtime_heartbeat_service.py:46-99 | a heartbeat is refused with a state conflict exactly when its sender may extend the lease and it would mark a job running that is to be cancelled, and with a lease conflict in every other refusal |
| `LeaseEffects.ClaimRefusal` | app/services/runtime_claim_service.py:129-138 | each refusal of a claim has its exact cause |
| `ClaimSelection.PicksBestFit` | app/repositories/runtime_job_repository.py:55-80 | the claim picks a visible fitting job that no visible fitting job precedes by priority and age, and picks none exactly when the window holds no fit; with a window that is not full, exactly when no visible job fits |
| `ClaimSelection.ChosenIsMostUrgent` | app/repositories/runtime_job_repository.py:55-80 | in the columns' own terms: the claimed job is QUEUED or WAITING_RETRY, in the queue and under the routing key asked for, not cancelled, and its tags are covered unless none are declared; no other such job that is not locked has a higher priority, or the same one and an earlier creation time |
| `ClaimSelection.ShortWindowIsComplete` | app/repositories/runtime_job_repository.py:55-69 | at most twenty-five candidates are read, and fewer only when they are all such jobs that nobody has locked |
| `ClaimSelection.TagsCovered` | app/repositories/runtime_job_repository.py:72-80 | the claimed job's tags are covered if and only if the worker declares some tag or the head of the window requires none |
| `ClaimSelection.MayHideExactly` | app/repositories/runtime_job_repository.py:55-80 | when a visible job fits, some answer of the query yields no job if and only if at least 25 visible jobs that do not fit come no later than every one that does |
| `ClaimSelection.MustHideExactly` | app/repositories/runtime_job_repository.py:55-80 | and every answer yields no job if and only if at least 25 of them come before every one that does |
| `ClaimSelection.WindowHidesFit` | app/repositories/runtime_job_repository.py:60 | a concrete queue on which every possible window leaves a fitting visible job unfound |
| `ClaimSelection.TagsIgnored` | app/repositories/runtime_job_repository.py:72-73 | a concrete queue on which every window gives a worker without tags a job that requires one |
| `ClaimSelection.WindowExists` | app/repositories/runtime_job_repository.py:55-69 | the ordered, limited, lock-skipping query always has an answer |
| `ClaimSelection.ClaimAcceptance` | app/services/runtime_claim_service.py:64-109 | a claim issues a job if and only if the worker has a free slot and, unless the first read missed it, is neither draining nor offline, a candidate fits, the ids are new and the extension limit is not negative; the numbering constraint on attempts never refuses it |
| `RuntimeDatabase.Database.ClaimJob` | app/services/runtime_claim_service.py:39-127 | the row-by-row claim, with its rollback, leaves exactly the state and the outcome of the claim function, whether or not its first read missed the worker |
| `RuntimeDatabase.Database.HeartbeatLease` | app/services/runtime_heartbeat_service.py:41-133 | likewise for the heartbeat, whose effect `LeaseEffects.HeartbeatExtends` and `HeartbeatMarks` describe, and which also returns the answer described by `LeaseInvariant.ReportIsStored`, and none when refused |
| `RuntimeDatabase.Database.CompleteJob` | app/services/runtime_complete_service.py:39-112 | likewise for completion, whose effect `LeaseEffects.CompleteStores` describes |
| `RuntimeDatabase.Database.FailJob` | app/services/runtime_fail_service.py:39-132 | likewise for failure, whose effect `LeaseEffects.FailStores` describes |
| `RuntimeDatabase.Database.CheckReport` | app/services/runtime_fail_service.py:44-67 | the shared guards of complete and fail refuse exactly as the staged checks of the function do |
| `RuntimeDatabase.Database.GetClaimableJob` | app/repositories/runtime_job_repository.py:69-80 | the early-exit loop over the candidates returns the first fit |
| `RuntimeDatabase.Database.MarkCancelRequested` | app/repositories/runtime_job_repository.py:174-191 | a terminal job is left alone; any other gets the status and the time of the request |
| `RuntimeDatabase.Database.MarkJobFailed` | app/repositories/runtime_job_repository.py:147-172 | refuses an outcome other than FAILED, WAITING_RETRY and STALE, a missing job, and a foreign token or worker, changing nothing; otherwise sets finished_at and clears lease_expires_at for FAILED only |
| `RuntimeDatabase.Database.MarkRunning` | app/repositories/runtime_job_repository.py:103-122 | refuses a missing job, a foreign token or worker, and a job neither claimed nor running, changing nothing; otherwise marks it running and keeps the first start time |
| `RuntimeDatabase.Database.MarkStarted` | app/repositories/job_attempt_repository.py:32-48 | refuses a missing attempt and, where the caller names them, a foreign token or worker; otherwise marks it started and keeps the first start time |
| `RuntimeDatabase.Database.ExtendLease` | app/repositories/worker_lease_repository.py:38-59 | extends the ACTIVE lease of the token if it is the worker's and has an extension left; refuses with a lease conflict, changing nothing, in every other case |
| `RuntimeDatabase.Database.UpsertWorker` | app/repositories/worker_registry_repository.py:20-57 | inserts or overwrites the registration with any health status, keeping the job count, and clears the drain and offline times that status does not match |
| `RuntimeDatabase.Database.SetHealthStatus` | app/repositories/worker_registry_repository.py:67-86 | has exactly the effect of the health step |
| `LockProtocol.NoDeadlock` | app/services/runtime_complete_service.py:47-96 | in every configuration any interleaving reaches, no chain of waits closes into a circle or passes through more than five transactions |
| `LockProtocol.AllCanFinish` | app/services/runtime_heartbeat_service.py:46-119 | from every such configuration the open transactions can all be driven to their end without an outside abort |
| `LockProtocol.HeldBelowWanted` | app/services/runtime_fail_service.py:44-116 | a waiting transaction holds only rows of tables earlier in the order lease, job, attempt, worker than the row it waits for |
| `LockProtocol.CommittedInOrder` | app/services/runtime_claim_service.py:42-111 | whatever the interleaving, the committed database is what the committed transactions produce one after another in commit order, each claim with the health status its first read chose, and meets the invariant |
| `Serializability.SerializableExactly` | app/repositories/worker_registry_repository.py:20-57 | the committed transactions, each run in one piece in commit order, pass through every committed state of the interleaving if and only if each accepted claim that missed its worker found it healthy, and then end in the same database |
| `Serializability.Serializable` | app/services/runtime_claim_service.py:44-63 | while no health change to another status than HEALTHY commits, every interleaving ends where its committed transactions run in one piece in commit order end |
| `Serializability.WholeExactly` | app/services/runtime_claim_service.py:44-63 | missing the worker makes no difference to the committed state if and only if the claim is refused or the row it missed is healthy |
| `Serializability.NoOrderExplains` | app/repositories/worker_registry_repository.py:67-86 | where all health changes of a worker are drains and one succeeded, a database in which it is not draining is the result of no order of the transactions, run in one piece, in which the drain succeeds |
| `Serializability.DrainIsLost` | app/services/runtime_claim_service.py:44-63 | a concrete reachable interleaving in which a claim that missed its worker takes a drained one for healthy and claims a job, which no order of the transactions explains |
| `LockProtocol.MoveKeepsSound` | app/services/runtime_claim_service.py:44-70 | every single move, also of a claim that missed its worker, keeps the locks exclusive and every copy of a row an open transaction has locked up to date |
| `LockProtocol.AnyEventExtends` | app/services/runtime_claim_service.py:42-70 | whatever can happen after an interleaving extends it, so the theorems leave no interleaving out |
| `LockProtocol.ClaimWindowsDisjoint` | app/repositories/runtime_job_repository.py:55-62 | candidate windows of claims open at the same time are disjoint |
| `LockProtocol.NoTwoLiveClaims` | app/repositories/runtime_job_repository.py:91-101 | no interleaving of claims and commits leaves two live leases on one job |
| `LockProtocol.EarlyRefusalIsRefusal` | app/services/runtime_complete_service.py:47-70 | a transaction that gives up at a row gives up exactly as the whole transaction, run at that moment in one piece, would, and for the same reason |
| `LockEffects.LeaseEndsAsWhole` | app/services/runtime_complete_service.py:45-96 | in any configuration a heartbeat, completion or failure reads on without a change, or ends as the whole transaction would at that moment: it commits exactly when that is accepted |
| `LockEffects.OtherEndsAsWhole` | app/repositories/runtime_job_repository.py:174-191 | the same of a cancellation and of a health change |
| `LockEffects.ClaimEndsAsWhole` | app/services/runtime_claim_service.py:42-112 | a claim that has its candidates commits what the whole claim does with them; before, it ends only when its worker may not claim or was inserted by another transaction meanwhile |
| `LockEffects.SelectHandsOver` | app/repositories/runtime_job_repository.py:55-69 | the query hands the claim exactly the rows of its answer |
| `LockEffects.AloneIsWhole` | app/services/runtime_heartbeat_service.py:44-119 | cut into row locks and run alone, every transaction but a claim comes to the end the whole one has |
| `LockEffects.ClaimAloneIsWhole` | app/services/runtime_claim_service.py:42-112 | and so does a claim, for every answer of its query; alone it never misses its worker |
| `Blueprint.Validate` | app/schemas/blueprint.py:123-193 | the one-pass loop over running sets accepts exactly the documents meeting the quantified consistency condition, and a reported defect is in the document |
| `Blueprint.CheckBridges` | app/schemas/blueprint.py:164-179 | the bridge loop of one sequence accepts exactly bridges with new codes, distinct orders and local targets, and names a defect otherwise |
| `Blueprint.CheckShape` | app/schemas/blueprint.py:141-150 | comparing the size of a set with the length of its list finds exactly the empty sequences and the local duplicates |
| `Blueprint.CheckBeats` | app/schemas/blueprint.py:184-191 | accepted reference beats are unique and name existing sequences; a reported defect is present |
| `Blueprint.DefectRefutes` | app/schemas/blueprint.py:132-191 | every defect the validator can report contradicts the consistency condition |
| `BlueprintCompiler.OrderIndependence` | app/compilers/orchestrator/blueprint_compiler.py:19-75 | listing the sequences of a consistent blueprint, and the bridges in each, in any other order gives the identical packet, in the order `BlueprintPacket.PacketInOrder` describes |
| `BlueprintPacket.PacketInOrder` | app/compilers/orchestrator/blueprint_compiler.py:19-75 | the packet lists all sequences by non-decreasing index, and the bridges of each by non-decreasing execution order |
| `BlueprintPacket.PacketInStrictOrder` | app/compilers/orchestrator/blueprint_compiler.py:19-75 | in a consistent blueprint both orders are strict |
| `BlueprintPacket.PacketHead` | app/compilers/orchestrator/blueprint_compiler.py:40-45 | the project's id, the version asked for or else the one derived from the blueprint's id, and the reason |
| `BlueprintPacket.ContentIsCarried` | app/compilers/orchestrator/blueprint_compiler.py:55-146 | sequences of the document and of the packet correspond: an entry carries all columns, units in the listed order, a permutation of the bridges, and the document's language for a voice without one; every id is made of kind, blueprint, sequence and unit; a bridge refers to a unit exactly when it names one |
| `BlueprintPacket.BridgesPointAtTheirUnits` | app/compilers/orchestrator/blueprint_compiler.py:128-141 | in an accepted blueprint the id a bridge carries is that of a unit of its sequence if and only if the unit has the code the bridge names |
| `BlueprintCompiler.ReferencesClosed` | app/compilers/orchestrator/blueprint_compiler.py:119-146 | every bridge of an accepted blueprint's packet names a unit, and each id it names belongs to exactly one unit of its own sequence |
| `BlueprintCompiler.AllIdsDistinct` | app/compilers/orchestrator/blueprint_compiler.py:55-146 | all ids in the packet of an accepted blueprint are pairwise distinct |
| `BlueprintCompiler.JoinInjective` | app/compilers/orchestrator/blueprint_compiler.py:163-165 | joining with a double colon is injective on parts without a colon |
| `BlueprintCompiler.StableUuidInjective` | app/compilers/orchestrator/blueprint_compiler.py:163-165 | two stable ids over valid codes are equal only if their kinds and all their parts are |
| `BlueprintCompiler.CallerOptionsWin` | app/compilers/orchestrator/blueprint_compiler.py:31-38 | the compile options are the document's seven, overridden by the caller's |
| `BlueprintCompiler.CountsMatchPacket` | app/compilers/orchestrator/blueprint_compiler.py:27-29 | the three counts, taken from the unsorted document, are what the packet's sequences hold |
| `SequenceLaws.SortOfPermutation` | app/compilers/orchestrator/blueprint_compiler.py:21 | sorting by distinct keys gives the same list for every permutation |
| `SequenceLaws.SortSorts` | app/compilers/orchestrator/blueprint_compiler.py:73 | the sorted list is ascending and a permutation of the original |
| `SequenceLaws.TotalIsSum` | app/compilers/orchestrator/blueprint_compiler.py:27-29 | a total is the sum: zero of nothing, the value of a single element, and additive over lists |
| `ProjectCompiler.Validate` | app/services/compile_validator_service.py:12-56 | the errors are exactly the problems the project has, the warnings exactly the missing parts, and it is valid exactly when there is no error |
| `ProjectCompiler.GroupBy` | app/compilers/orchestrator/compiler_service.py:48-58 | the grouping loop leaves under every key the items with that key, in query order |
| `ProjectCompiler.CompileProject` | app/compilers/orchestrator/compiler_service.py:26-135 | a packet is made exactly for a valid project; its sequences are the groups with the targets and the total that `ProjectPacket` describes, and its four counts are those of the rows |
| `ProjectCompiler.Compile` | app/compilers/orchestrator/compiler_service.py:60-135 | the loop yields one packet per sequence in order, the total of their target durations and the four counts |
| `ProjectPacket.TargetIsFirstPrimary` | app/compilers/orchestrator/compiler_service.py:66-67 | a sequence's target duration is that of the first row among all visuals that names the sequence and is a primary visual, and there is none exactly when there is no such row |
| `ProjectPacket.TotalAddsUp` | app/compilers/orchestrator/compiler_service.py:61-69 | the total duration is reached from zero by adding, sequence by sequence, the target duration where there is one |
| `ProjectPacket.HasVoiceExactly` | app/compilers/orchestrator/compiler_service.py:78 | a sequence has a voice if and only if a voice row names it |
| `ProjectPacket.UnitsInQueryOrder` | app/compilers/orchestrator/compiler_service.py:48-65 | the visuals, voices and bridges of a packet are the rows that name its sequence, each at its place in the query's order once |
| `ProjectCompiler.UnitsConserved` | app/compilers/orchestrator/compiler_service.py:48-122 | in a valid project every visual, voice unit and bridge with a sequence is in exactly that sequence's packet, exactly once; only units without a sequence are in none |
| `ProjectCompiler.GroupsPartition` | app/compilers/orchestrator/compiler_service.py:48-58 | the groups of any distinct keys together are, as a multiset, the items with one of these keys |
| `ProjectCompiler.PacketsAreLocal` | app/compilers/orchestrator/compiler_service.py:62-122 | a packet holds only its own sequence's units, and its bridges in non-decreasing execution order |
| `ProjectCompiler.CountsConserved` | app/compilers/orchestrator/compiler_service.py:124-135 | the track counts in the packet exceed what its sequences hold by exactly the units without a sequence; the bridge and sequence counts are exact |
| `AssetWorker.Session.Run` | app/workers/tasks.py:419-530 | one run of the worker, with its two commits, its rollback and its failure handler, has exactly the effect on jobs, runtimes, assets and objects, and the outcome, of the run function, whatever cuts it short; `AssetEffects` has the codes and rows that function stores |
| `AssetWorker.Session.RefreshRuntimeAggregate` | app/workers/tasks.py:51-55 | the row of the task's runtime, if there is one, is refreshed from its jobs; no other changes |
| `AssetWorker.Session.BeginJob` | app/workers/tasks.py:425-437 | the first transaction writes exactly the started job and the marked and refreshed runtime row |
| `AssetWorker.Session.RecordFailure` | app/workers/tasks.py:489-527 | the failure handler writes exactly the failed asset and job rows and the marked and refreshed runtime row, the last also when the job does not exist; it gives up when the sequence cannot be resolved |
| `AssetWorker.Session.RegisterGeneratedAsset` | app/workers/tasks.py:153-217 | updates the row at the place but keeps its size, or adds a row without size; nothing changes when the sequence cannot be resolved |
| `AssetWorker.Session.MaterializeGeneratedAsset` | app/workers/tasks.py:314-416 | table, store and idempotency label are those of the prepared deposit; on an error the store is untouched |
| `AssetRuns.HistoryKeeps` | app/workers/tasks.py:314-529 | after any history of runs with any failures and crashes a bucket and key have at most one row, and every materialized row has its object with the recorded size and content type |
| `AssetRuns.BytesNeverChange` | app/workers/tasks.py:370-395 | an object that is in the store at one moment of a history is there unchanged at every later one |
| `AssetRuns.NeverAlreadyMaterialized` | app/workers/tasks.py:345-368 | no run from any state reports the already-materialized short cut |
| `AssetRuns.FinishesExactly` | app/workers/tasks.py:419-486 | a run finishes if and only if the job exists, nothing interrupts it, the provider's result is acceptable and, for a planned asset, its sequence resolves and there is an object already or a payload to write |
| `AssetRuns.FinishedIsBacked` | app/workers/tasks.py:370-416 | a finished run leaves the job succeeded and its asset materialized with the size of its object: the bytes already there if there were any, else the payload; no other row or object differs |
| `AssetRuns.AcceptedPayload` | app/workers/tasks.py:258-311 | exactly which validated results have a payload that can be written; for media always, and it is not empty |
| `AssetRuns.MediaNeverEmpty` | app/workers/tasks.py:268-289 | whatever a run stores for an image, video or audio plan has bytes in it, also when the run then fails or crashes |
| `AssetRuns.CrashKeepsBytes` | app/workers/tasks.py:389-486 | a crash between object write and commit leaves the asset table as it was and the job running, with the object in the store |
| `AssetRuns.FirstBytesWin` | app/workers/tasks.py:370-387 | bytes once in the store, committed or not, are adopted by every later finished run at that place, whatever its provider returned |
| `AssetRuns.LeftRunningExactly` | app/workers/tasks.py:103-123 | a run that nothing interrupts leaves its job running if and only if an asset is planned and the sequence id to use is malformed or unknown; otherwise succeeded when it finished and failed when it did not |
| `AssetRuns.RecordedExactly` | app/workers/tasks.py:489-528 | the failure handler takes effect exactly when it commits and can name the place of the failure; then job and row are failed, otherwise nothing changes |
| `AssetRuns.DemotedExactly` | app/workers/tasks.py:419-529 | a run leaves a materialized row materialized if and only if it does not fail with the failure recorded at the row's place, where all rows are then failed; size and object stay in any case |
| `AssetRuns.DemotedOnInputs` | app/workers/tasks.py:419-529 | for a run that nothing interrupts the condition is one on its inputs: the job exists, the run cannot finish, and the planned place under the sequence the result or the payload names is the row's |
| `AssetRuns.HandlerDemotes` | app/workers/tasks.py:489-512 | the same for the failure handler from any consistent state |
| `AssetRuns.DemotionHappens` | app/workers/tasks.py:489-512 | a concrete finished run followed by one whose provider raises leaves a failed row with its object in the store |
| `AssetRuns.LeftRunningHappens` | app/workers/tasks.py:103-123 | a concrete job with a malformed sequence id is left running without an asset |
| `AssetRuns.RegisterTouchesOne` | app/workers/tasks.py:172-217 | registering keeps one row per place and every row at another place |
| `AssetRuns.PlannedFilesNeverCollide` | app/services/asset_policy_service.py:46-61 | whatever project, version, sequence and job type, keys of two differently named planned files differ |
| `AssetEffects.RaisedCodeIsRecorded` | app/workers/tasks.py:235-238 | when the provider raises, the outcome and, if the failure is recorded, the job row have its own code unless that is blank, and the default code then; recorded exactly when the handler commits and finds a sequence for a planned asset, otherwise the job is left running with no code |
| `AssetEffects.RejectionCodeIsRecorded` | app/workers/tasks.py:258-289 | the same for each way a result is refused: a stub, another status, and for media no payload, one of the wrong type and an empty one have their own codes |
| `AssetEffects.OtherwiseDefault` | app/workers/tasks.py:292-311 | every other failure of a run that nothing interrupts has the default code |
| `AssetEffects.StorageErrorIsDefault` | app/workers/tasks.py:235-238 | an error of the storage or the database has the default code wherever it strikes an otherwise good run |
| `AssetEffects.MissingJobIsDefault` | app/workers/tasks.py:423-425 | a missing job changes no job and no asset and is reported by the default code, also in the row of a runtime that has no jobs |
| `AssetEffects.CrashRecordsNothing` | app/workers/tasks.py:422-440 | a crash before the first commit changes nothing, one right after it leaves the job running |
| `AssetEffects.FailureInRuntime` | app/workers/tasks.py:515-526 | a recorded failure fails the runtime row and leaves its message there, and its code when this job is the newest failed one of the runtime |
| `AssetEffects.StripExactly` | app/workers/tasks.py:237 | trimming removes all white space around a text and nothing else; nothing is left exactly of a blank one |
| `AssetEffects.MediaExactly` | app/workers/tasks.py:246-250 | an asset needs bytes exactly when its trimmed content type starts with image, video or audio, in small or capital letters |
| `AssetEffects.FirstReferenceDecides` | app/workers/tasks.py:103-123 | of the provider's selection, the payload's selector and its plain sequence id the first that is set decides, also when it is malformed or unknown; the project's first sequence is taken only when none is set |
| `AssetEffects.BucketsByKind` | app/services/asset_policy_service.py:15-29 | the bucket of each kind of asset, and of an unknown one |
| `AssetEffects.LastComponentIsKept` | app/services/asset_policy_service.py:9-12 | of a path the last component is kept with its spaces replaced; a slash or a dot at the end does not count |
| `AssetEffects.FinishedStores` | app/workers/tasks.py:314-416 | a finished run of a planned asset leaves a materialized row with the project of the run, the resolved sequence, the plan's kind and role, the result's or else the plan's file name, the bucket and key made of them, and the size of its object, whose bytes and content type are the result's unless it was there before |
| `AssetEffects.FailureStores` | app/workers/tasks.py:493-507 | a run that nothing interrupts and that records its failure leaves a failed row with the same columns, under the planned file name and content type |
| `RuntimeStatus.CountersPartition` | app/services/runtime_state_service.py:23-46 | the five counters and the jobs in any other status partition the job list |
| `RuntimeStatus.CountersCount` | app/services/runtime_state_service.py:23-46 | each counter is the number of places in the job list with its status |
| `RuntimeStatus.ErrorIsNewestFailure` | app/services/runtime_state_service.py:94-97 | when a job failed, the stored error code is that of the newest failed one unless it has none, and the stored message stays |
| `RuntimeStatus.ErrorIsCleared` | app/services/runtime_state_service.py:98-100 | when none failed, code and message are cleared, unless the row was failed and its jobs neither all succeeded nor are under way |
| `RuntimeStatus.FailureIsShown` | app/services/runtime_state_service.py:94-97 | a job's failure leaves its message in the runtime row, and its code exactly when no newer job failed with another one |
| `RuntimeStatus.MarkDecidesOtherwise` | app/services/runtime_state_service.py:48-67 | what a worker transaction marks in the runtime row counts exactly when no job failed, they did not all succeed and none is under way |
| `RuntimeStatus.CompileStatusExact` | app/services/runtime_state_service.py:48-67 | the derived compile status is failed, succeeded or running exactly by some failed, all succeeded, otherwise |
| `RuntimeStatus.StoredStatusIgnored` | app/services/runtime_state_service.py:59-67 | the stored compile status plays no role if and only if there are jobs and one failed, all succeeded, or one is queued, dispatched or running |
| `RuntimeStatus.DispatchStatusExact` | app/services/runtime_state_service.py:69-85 | with jobs the derived dispatch status is none, fully or partially dispatched exactly by no job dispatched or beyond, all, otherwise |
| `RuntimeStatus.RunIsCurrent` | app/services/runtime_state_service.py:87-102 | after any run of at least one worker transaction the stored summary and both statuses are those the jobs call for by the two conditions above, whatever was stored before |
| `RuntimeStatus.DispatchNeverRegresses` | app/services/runtime_state_service.py:69-85 | over a fixed set of jobs no run of worker transactions moves the dispatch status backwards |
| `RuntimeStatus.SettledExactly` | app/services/runtime_state_service.py:59-66 | from a current row one worker transaction leaves a succeeded or failed compile status unchanged if and only if a condition on the jobs and the transaction holds that can be checked before it |
| `RuntimeStatus.RunSettledExactly` | app/services/runtime_state_service.py:87-102 | a whole run never changes a settled compile status if and only if each of its transactions meets that condition |
| `RuntimeStatus.CompileStatusRegresses` | app/services/runtime_state_service.py:59-66 | a concrete run in which the compile status goes from succeeded back to running |
| `RuntimeStatus.Session.RefreshRuntimeStatus` | app/services/runtime_state_service.py:87-102 | the assignment-by-assignment refresh stores exactly the refreshed runtime row |
| `RuntimeHistory.RunIsStatusRun` | app/workers/tasks.py:419-529 | seen from the row of its runtime a run of the asset worker, however it ends, is a run of status transactions over the jobs of that runtime, at least one when it finishes or records its failure |
| `RuntimeHistory.CommitMakesCurrent` | app/workers/tasks.py:429-437 | after a run that finished or recorded its failure the runtime row says what the jobs call for, in the same commit |
| `RuntimeHistory.HistoryIsStatusRun` | app/workers/tasks.py:419-529 | any history of worker runs over a fixed set of jobs, seen from any runtime row, is a run of status transactions |
| `RuntimeHistory.HistoryKeepsStatus` | app/services/runtime_state_service.py:69-102 | no such history leaves a current runtime row out of date or moves its dispatch status backwards |
| `RuntimeHistory.RunSparesOthers` | app/workers/tasks.py:18-55 | a run changes no other job, no other runtime row, and no job's runtime |

## Left out

- Rows are values in map-typed table fields, not objects: identity and aliasing of row objects, and the flush order inside a transaction, are not captured.
- Jobs enter as CREATED or QUEUED, although `create_job` accepts any status.
- `mark_cancelled`, `mark_superseded`, `revoke_lease`, `mark_provider_running` and `mark_artifact_collecting` have no guard and no caller among the services; as steps they would break slot accounting and attempt order, so no invariant is claimed for them.
- `max_attempts` is stored but never enforced by the code; no bound on retries is claimed.
- LeaseRuns.LeaseLifetime: bounds the lease row only; the job's own `lease_expires_at` does not follow heartbeats, and complete and fail do not look at expiry.
- RuntimeDatabase.Database.UpsertWorker: host name, process id, version, queue bindings and metadata are not kept; a column the claim does not set stays out of the model.
- LeaseInvariant.ReportAcceptance: error texts are reduced to lease conflict, state conflict and constraint violation; the string matching that maps repository errors is not modelled.
- Reason codes and texts, error payloads, result references, metadata, queue wait times and column widths.
- LockProtocol.NoDeadlock: takes PostgreSQL's row locks at READ COMMITTED as described above; waits on a unique key being inserted by another transaction (other than a worker registering for the first time) and share locks of foreign keys are not modelled.
- Serializability.SerializableExactly: covers the four services, cancellation, health changes and job creation; job creation is one atomic move; the order it is about is the commit order, and refused transactions are not part of it.
- ClaimSelection.PicksBestFit: is about an answer of the query as evaluated at one moment; when other transactions commit while the query runs its answer can miss or misplace a job, and the interleavings admit any distinct visible jobs up to the limit. Jobs with equal priority and creation time are in no particular order, as in the query.
- BlueprintCompiler.AllIdsDistinct: UUIDv5 (section 5.5 of RFC 9562) is taken as injective in the name.
- Blueprint descriptive columns are carried as they are, the reference payload as one value; length limits other than those of codes and the blueprint id are not checked; `sequence_count`, `target_total_duration_ms` and `has_voice` of blueprint packets stay at defaults in the code.
- ProjectCompiler.CompileProject: the project lookup, the runtime version and the stored runtime row are not part of it; the rows are taken as the queries return them.
- Creating and dispatching jobs after a compile: its late write of `dispatched` can overwrite a worker's newer status, so job status is not monotone across that race.
- RuntimeHistory.HistoryKeepsStatus: runs are taken one after another, a task names the runtime of its own job as the dispatcher makes it, and a runtime is the one row the lookup by project and version finds; under concurrent commits the aggregate can be out of date. `last_error_code` and `last_error_message` may come from different jobs.
- AssetRuns.BytesNeverChange: one worker at a time handles an object key and nothing else writes or deletes objects; two workers could both find the object missing and both write.
- AssetWorker.Session.Run: asset ids, notes, metadata, etags, version ids, timing and result payloads are not kept; the message of a raised error is an input; the job is not deleted while it runs; white space and letter case are ASCII.
- Object content types are stored as given; an empty one is not replaced by a default.
- Provider executors, the Google client, MinIO, Celery, FastAPI, the web studio, the SDK, scripts, CRUD routes, terminal views and migrations.
