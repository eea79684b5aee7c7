# Verified model of the evidence harnesses

This project models, in Dafny, five protocols of the repository's `scripts/` directory and proves
what they promise.

* **Pair transaction** (`Consensus`, `PairPlan`, `PairSafety`, `PairRecovery`, `PairEvidence`,
  `PairHistory`, `PairStore`). Two directories receive one canonical public telemetry file, a
  manifest and a provenance file each. The disk is a map of named contents, every copy, write,
  rename or removal is one step, and an interruption may hit between any two steps or leave a
  torn copy. `PairPlan` gives the steps of a run as a function of the disk; `PairStore` is the
  mutable object that performs them.
* **Canary rollback** (`CanaryRollback`, `CanaryHarness`). A tick loop with fault injection,
  windows of 100 responses evaluated every 20, and a latched rollback.
* **Queues and their broker** (`QueueMirror`, `AckLags`, `QueueSchedule`, `QueueHarness`, `FleetSignal`,
  `FleetHarness`). A local mirror against an ideal first-in first-out broker with a dead-letter
  queue, and the public signal of the queue fleet against its private ledger.
* **Coverage** (`Coverage`). Three independent implementations of run splitting and conservative
  credit, over integer nanoseconds.
* **Connection pool** (`ConnectionPool`, `PoolObject`) as an interleaving of atomic steps, and the
  **window generator** of the reviewed metric source (`DejavuWindows`).

`Outcomes` holds the shared option and result types, `Numbers` minimum and maximum, and `Ranks` sorting
and ranks. `dafny verify dfyconfig.toml` checks the whole project.


## What the proofs show about the code

* The rollback fires by tick max(69, F+67) for every fault tick F; the coded F+69 is a valid deadline,
  tight only at F = 0 (`CanaryRollback.RollbackDeadline`). The program and
  `docs/operations/p105-g006-source-expansion-amendment.md` (lines 713-716 and 776) record F+69 itself
  as the trigger tick, 369 for the release profile. With the 80 ms delay of a faulted release canary
  and healthy answers below 50 ms the controller triggers at tick 329
  (`CanaryRollback.ReleaseTrigger`). The model follows the code.
* The canary ledger binds 140 requests even though the last of them are answered by the healthy
  configuration (`CanaryHarness.LedgerOvercounts`).
* A rollback that fires before the fault tick is spent: the fault then stays on and the run is
  refused. That happens exactly when the healthy canary is slow in three evaluated windows in a row
  before the fault tick (`CanaryHarness.RunSucceedsExactlyWhen`), as with healthy latencies of 50 ms
  or more and a fault tick of 70 or more (`CanaryHarness.SlowRunIsRefused`).
* The consensus of two rows depends on their order in exactly two families of inputs
  (`Consensus.OrderFreeExactly`), whatever values convert to a float. The second row's wait or duration
  is only converted when the first one is slow, so a value that does not convert, like `"n/a"` or an
  integer no float can hold, is refused in one order and accepted in the other
  (`Consensus.OrderCanMatter`). And the output copies the first row's values, which may differ in kind
  from equal ones of the second, as `true`, `1` and `1.0` do (`Consensus.KindOfEqualValueMatters`). The
  harness writes floats as metrics, or none, and one kind per field, and then the order never matters
  (`Consensus.HarnessFilesOrderFree`).
* An interrupted cleanup leaves the pair stuck exactly after 2 to 7 of its 14 removals. All six files are
  final by then, and no later run changes anything (`PairRecovery.CleanupSticksExactly`,
  `PairRecovery.StuckForever`).
* An interrupted raw copy is harmless exactly when the measured file has no more than the expected
  184,320 rows, which is what the harness writes (`PairHistory.TornRawIsRefused`).
* The fleet signals of disjoint services tell their labels exactly when every incident starts on a
  multiple of 30 s (`FleetSignal.SignalsNeedHeartbeats`); off it a message is never published.
* Losing samples can raise the credited coverage exactly when two samples that were apart get
  consecutive ordinals by it (`Coverage.LossEarnsExactly`). Increasing ordinals exclude that.

## Model

| member | source | states |
|---|---|---|
| `PairSafety.AtomicPairCommit` | scripts/finalize_p105_database_fleet_pair.py:225-393 | in every state that any number of complete or interrupted runs can reach, no marker in either directory implies that the six promoted files are all of one version: the original one or one that a single run staged completely; under a marker each file is of one of two such versions |
| `PairSafety.RunKeepsInv` | scripts/finalize_p105_database_fleet_pair.py:312-393 | one run, cut at any point (torn copies included), keeps that invariant, adding only the version it staged |
| `PairRecovery.MarkedRunIsExact` | scripts/finalize_p105_database_fleet_pair.py:312-341 | a run that finds a marker changes something exactly when every marker is its own and no stage is missing, and succeeds exactly when post-verification passes as well; a foreign marker or a missing stage refuses before any promotion |
| `PairHistory.MarkerMeansRecoverable` | scripts/finalize_p105_database_fleet_pair.py:286-393 | whenever an interrupted run leaves a marker, its six stages are complete: its version is pending on top of the files it found, or has already arrived |
| `PairRecovery.RecoverableUntilArrived` | scripts/finalize_p105_database_fleet_pair.py:312-341 | interrupting a re-run of a pending transaction leaves it pending for the same contents, or leaves all six files new |
| `PairRecovery.ResumeCompletes` | scripts/finalize_p105_database_fleet_pair.py:312-341 | one complete re-run of a pending transaction ends with exactly the staged contents, no marker, stage or temporary left, and every other file unchanged |
| `PairHistory.InterruptedRecovery` | scripts/finalize_p105_database_fleet_pair.py:290-341 | once a run has staged contents and their transaction is pending, every later state still has it pending for the same contents or shows exactly those contents, however many re-runs are interrupted or refused |
| `PairHistory.RecoveryEnds` | scripts/finalize_p105_database_fleet_pair.py:290-393 | any number of interrupted re-runs followed by one complete run end with exactly the staged contents, also when an earlier re-run had already arrived at them |
| `PairRecovery.CleanupCanStick` | scripts/finalize_p105_database_fleet_pair.py:336-341 | completion after every crash is false: an interrupted cleanup can leave a marker without its stages, with all six files already new |
| `PairRecovery.CleanupSticksExactly` | scripts/finalize_p105_database_fleet_pair.py:336-341 | of the fifteen points at which the fourteen removals can be cut, exactly those after 2 to 7 removals leave the pair stuck |
| `PairRecovery.StuckForever` | scripts/finalize_p105_database_fleet_pair.py:312-329 | in that situation every later run refuses and changes nothing, so the new contents stay final |
| `PairEvidence.PromotedSetVerifies` | scripts/finalize_p105_database_fleet_pair.py:225-283 | promoting a complete set of stages gives directories in which every manifest and provenance hash is the hash of the promoted file it names |
| `PairHistory.FinalizedPairVerifies` | scripts/finalize_p105_database_fleet_pair.py:360-393 | a run that succeeds leaves both directories clean, with the same public telemetry and manifest and with all recorded hashes fitting |
| `PairHistory.TornRawIsRefused` | scripts/finalize_p105_database_fleet_pair.py:193-218 | what an interrupted raw copy may leave is never accepted by a consensus, whatever it misses, exactly when the measured file is no longer than the expected row count |
| `PairHistory.TornRawRefuses` | scripts/finalize_p105_database_fleet_pair.py:193-218 | every run that finds such a torn raw copy refuses, and wherever it is cut it leaves no marker and changes no promoted file |
| `PairHistory.BadRawRefuses` | scripts/finalize_p105_database_fleet_pair.py:193-218 | so does every run that finds a raw copy of a wrong row count or with a broken line |
| `PairHistory.NoMeasurementIsLost` | scripts/finalize_p105_database_fleet_pair.py:193-197 | in every reachable state the original measurements of each directory are in its raw copy or still in its public file |
| `PairHistory.RawIsNeverOverwritten` | scripts/finalize_p105_database_fleet_pair.py:193-197 | a raw copy that some state of a history holds is the same in every later state |
| `PairHistory.StagingsAgree` | scripts/finalize_p105_database_fleet_pair.py:200-283 | any two complete stagings of one history produce the same six files, in whichever order they name the directories when the measurements are swap free |
| `PairHistory.HarnessMeasurementsSwap` | scripts/finalize_p105_database_fleet_pair.py:200-218 | measurements as the harness writes them, metrics that convert and copied values of the same kind, are swap free |
| `PairHistory.OldOrNew` | scripts/finalize_p105_database_fleet_pair.py:360-393 | over a whole history unmarked states show the original six files or one single new version, never a third |
| `PairHistory.NewVersionVerifies` | scripts/finalize_p105_database_fleet_pair.py:225-393 | in every reachable unmarked state that shows the new version every recorded manifest and provenance hash fits the file beside it, however many runs were interrupted |
| `PairHistory.FinalizedStaysFinalized` | scripts/finalize_p105_database_fleet_pair.py:360-393 | once an unmarked state shows the new version every later state shows it, marked or not: finalizing again rebuilds the same bytes |
| `PairStore.PairDisk.Promote` | scripts/finalize_p105_database_fleet_pair.py:303-309 | promotes by copy and rename exactly when the stage exists |
| `PairStore.PairDisk.WriteTransactionMarkers` | scripts/finalize_p105_database_fleet_pair.py:290-300 | performs the marker writes and renames of both directories in order |
| `PairStore.PairDisk.ResumeStagedTransaction` | scripts/finalize_p105_database_fleet_pair.py:312-333 | performs exactly the steps of the resume plan, or none when it refuses |
| `PairStore.PairDisk.CleanupTransaction` | scripts/finalize_p105_database_fleet_pair.py:336-341 | performs the removals, the first directory's before the second's |
| `PairStore.PairDisk.MeasureDirectory` | scripts/finalize_p105_database_fleet_pair.py:193-197 | copies the public telemetry to the raw copy only when there is none |
| `PairStore.PairDisk.CanonicalArtifactHashes` | scripts/finalize_p105_database_fleet_pair.py:225-237 | hashes the listed files, taking the staged public telemetry for its own role |
| `PairStore.PairDisk.BuildStagedManifest` | scripts/finalize_p105_database_fleet_pair.py:240-256 | stages the manifest with the consensus fields and fresh hashes |
| `PairStore.PairDisk.BuildStagedProvenance` | scripts/finalize_p105_database_fleet_pair.py:259-283 | stages the provenance of the staged public and manifest files and the named ones |
| `PairStore.PairDisk.FinalizePair` | scripts/finalize_p105_database_fleet_pair.py:360-393 | the mutable directory pair goes through exactly the disk steps of the run plan and succeeds exactly when the plan does |
| `Consensus.CanonicalizePair` | scripts/finalize_p105_database_fleet_pair.py:200-218 | the read/write loop writes the consensus of the line pairs in order up to the first refusal, and accepts exactly the canonical result |
| `Consensus.AcceptedExactlyWhenComparable` | scripts/finalize_p105_database_fleet_pair.py:107-141 | two rows are accepted exactly when their identities are equal as Python compares values (1, 1.0 and true are equal), hashes and keys pass and no metric conversion raises |
| `Consensus.SignalsAreConjunctive` | scripts/finalize_p105_database_fleet_pair.py:107-141 | each failure, heartbeat and slowness signal holds in the output exactly when both runs observed it |
| `Consensus.IdentityIsKept` | scripts/finalize_p105_database_fleet_pair.py:107-141 | the output has the keys both rows have, with the first row's values, drops the measured numbers and is hashed afresh |
| `Consensus.OnlyConjunctionsMatter` | scripts/finalize_p105_database_fleet_pair.py:107-141 | two accepted pairs with the same identity and the same thresholded conjunctions give the same row |
| `Consensus.OrderFreeExactly` | scripts/finalize_p105_database_fleet_pair.py:107-141 | for comparable rows, whatever values convert to floats, the result is the same either way round exactly when both orders raise, or neither does and the copied values of both rows are of the same kinds |
| `Consensus.OrderCanMatter` | scripts/finalize_p105_database_fleet_pair.py:132-137 | for every value whose conversion to a float raises, two rows of which one has it as its wait, so that the order decides acceptance |
| `Consensus.KindOfEqualValueMatters` | scripts/finalize_p105_database_fleet_pair.py:113-141 | an input on which both orders are accepted and write different rows: no conversion raises, and one row has true where the other has 1 |
| `Consensus.RowsPairOneForOne` | scripts/finalize_p105_database_fleet_pair.py:200-218 | a pair of files is accepted only with equally many rows, each pair accepted on its own, and the output row i is the consensus of the rows i |
| `Consensus.CanonicalOrderFree` | scripts/finalize_p105_database_fleet_pair.py:200-218 | files whose line pairs are order free canonicalize to the same file either way round |
| `Consensus.HarnessFilesOrderFree` | scripts/finalize_p105_database_fleet_pair.py:200-218 | so do files as two runs of the harness write them: metrics that convert, and copied values of the same kind in both |
| `Consensus.CanonicalNeedsWholeFiles` | scripts/finalize_p105_database_fleet_pair.py:216-217 | only files of exactly the expected number of whole rows are accepted |
| `Consensus.CanonicalFileIsFixed` | scripts/finalize_p105_database_fleet_pair.py:200-218 | canonicalizing a canonical file with itself gives it back, hashes included |
| `CanaryRollback.PercentileMeaning` | scripts/run_p105_deploy_canary_harness.py:122-127 | the nearest-rank percentile of 100 buckets reaches 50 ms exactly when at least six of them do |
| `CanaryRollback.BreachMeaning` | scripts/run_p105_deploy_canary_harness.py:286-312 | an evaluated window breaches exactly when at least 20 of its 100 statuses are errors or at least 6 of its latencies reach 50 ms |
| `CanaryRollback.TriggerMeaning` | scripts/run_p105_deploy_canary_harness.py:300-312 | the trigger condition holds exactly when the last three recorded windows all breach |
| `CanaryRollback.StreamDescribed` | scripts/run_p105_deploy_canary_harness.py:332-424 | at every point of every response stream the controller's record is the closed form: statuses by the fault rule, one window per 20 responses from the hundredth on with the right verdict, the latch at the first triggering window |
| `CanaryRollback.LatchesOnce` | scripts/run_p105_deploy_canary_harness.py:409-421 | the rollback latches once and later responses never change it |
| `CanaryRollback.SureWindows` | scripts/run_p105_deploy_canary_harness.py:190-201 | whatever the latencies, every window evaluated from 77 responses after the fault until the rollback breaches (the promise is 80) |
| `CanaryRollback.NoBreachBeforeFault` | scripts/run_p105_deploy_canary_harness.py:332-424 | with a canary that is fast while healthy no window before the fault breaches |
| `CanaryRollback.LatchedByDeadline` | scripts/run_p105_deploy_canary_harness.py:332-424 | for arbitrary latencies, healthy ones too, the rollback has fired by the third window at which errors alone suffice |
| `CanaryRollback.RollbackDeadline` | scripts/run_p105_deploy_canary_harness.py:332-333 | for every fault tick F and a canary fast while healthy the rollback fires in some tick from F+22 to max(69, F+67), which is at most the coded F+69 |
| `CanaryRollback.DeadlineIsTight` | scripts/run_p105_deploy_canary_harness.py:332-333 | with only fast responses the deadline is attained: tick 69 for F = 0, F+67 whenever F mod 10 is 2 |
| `CanaryRollback.SlowFaultTrigger` | scripts/run_p105_deploy_canary_harness.py:183-201 | a faulted canary that always takes 50 ms or more, as its 80 ms delay makes it, is rolled back exactly two evaluations after the first that follows its sixth response |
| `CanaryRollback.ReleaseTrigger` | scripts/run_p105_deploy_canary_harness.py:318-333 | in the release profile (fault tick 300) that is tick 329, while 369 is recorded |
| `CanaryHarness.LocalConfig.InjectFault` | scripts/run_p105_deploy_canary_harness.py:136-139 | the configuration becomes the faulted one |
| `CanaryHarness.LocalConfig.Rollback` | scripts/run_p105_deploy_canary_harness.py:141-144 | the configuration becomes the healthy one |
| `CanaryHarness.LocalConfig.SnapshotFor` | scripts/run_p105_deploy_canary_harness.py:146-150 | the control cohort never sees the fault, the canary sees the current configuration |
| `CanaryHarness.Serve` | scripts/run_p105_deploy_canary_harness.py:365-433 | one request of the tick loop meets the configuration, extends the stream and emits the row the stream prescribes |
| `CanaryHarness.BuildArtifacts` | scripts/run_p105_deploy_canary_harness.py:315-475 | rows with their running numbers, windows, ledger requests, trigger requests and first healthy request are those of the controller's stream; the run refuses exactly on bad arguments or when no rollback or no healthy response after it was seen |
| `CanaryHarness.HistoryColumn` | scripts/run_p105_deploy_canary_harness.py:427-433 | removing adjacent repeats from the emitted rollback column gives exactly not triggered, triggered, rolled back, for every fault tick and every latency |
| `CanaryHarness.FirstHealthyIs` | scripts/run_p105_deploy_canary_harness.py:422-424 | the first healthy request is slot 8 of tick F+70 when the rollback came at or after the fault, and there is none when it came before |
| `CanaryRollback.EarlyLatchExactly` | scripts/run_p105_deploy_canary_harness.py:332-424 | the rollback comes before the fault exactly when the latencies of the healthy canary are slow in three evaluated windows in a row before the fault tick |
| `CanaryHarness.SucceedsUnlessEarly` | scripts/run_p105_deploy_canary_harness.py:422-461 | a rollback and a healthy response after it are seen exactly when the rollback did not come before the fault tick |
| `CanaryHarness.RunSucceedsExactlyWhen` | scripts/run_p105_deploy_canary_harness.py:315-461 | a run with accepted arguments is refused exactly when three evaluated windows in a row before the fault tick are slow while the canary is still healthy, a condition on the arguments and latencies alone |
| `CanaryHarness.HealthyRunSucceeds` | scripts/run_p105_deploy_canary_harness.py:422-461 | a canary that is fast while healthy always makes the run succeed, with slot 8 of tick F+70 as the first healthy request |
| `CanaryHarness.SlowRunIsRefused` | scripts/run_p105_deploy_canary_harness.py:455-461 | with a fault tick of 70 or more and healthy latencies of 50 ms or more every run is refused: the rollback is spent in tick 69 |
| `CanaryHarness.HealthyAfterRollback` | scripts/run_p105_deploy_canary_harness.py:365-424 | a canary request meets the fault exactly in the ticks from the fault to the rollback; all others are healthy with status 200 |
| `CanaryHarness.InjectedIs` | scripts/run_p105_deploy_canary_harness.py:400-408 | the ledger binds exactly the canary requests of ticks F to F+69 |
| `CanaryHarness.LedgerOvercounts` | scripts/run_p105_deploy_canary_harness.py:400-408 | the ledger always counts 140 injected requests, though from F = 1 on those of tick F+69 were answered by the healthy configuration |
| `CanaryHarness.CountsIs` | scripts/run_p105_deploy_canary_harness.py:434-470 | the row of slot s in tick t shows the running numbers of that request |
| `CanaryHarness.CanaryCounts` | scripts/run_p105_deploy_canary_harness.py:115-119 | closed form of the running numbers of every canary row when the rollback follows the fault: requests, errors (every fourth response from the fault to the rollback) and errors of the last 140 responses |
| `CanaryHarness.RateRecovers` | scripts/run_p105_deploy_canary_harness.py:115-119 | from the 71st tick after the rollback on the public rolling error rate is zero |
| `CanaryHarness.ControlCounts` | scripts/run_p105_deploy_canary_harness.py:434-436 | control rows count eight requests per tick and never an error |
| `QueueMirror.ConsumeRunsExact` | scripts/run_p105_queue_harness.py:327-357 | reading run by run of equal validity succeeds exactly when the expected messages are at the front; it then returns them in order, pops them and dead-letters the invalid ones |
| `QueueMirror.StepAgrees` | scripts/run_p105_queue_harness.py:50-65 | any publish and any consume keep mirror and broker in agreement and are answered as expected |
| `QueueMirror.RunRefines` | scripts/run_p105_queue_harness.py:499-594 | at every point of every run the broker's ready list is what the mirror has not consumed, the dead letters are the rejected messages, and no operation is refused |
| `QueueMirror.AgreementConserves` | scripts/run_p105_queue_harness.py:397-404 | published = acknowledged + rejected + ready, as counts and as messages |
| `QueueHarness.ConsumeExpectedMessages` | scripts/run_p105_queue_harness.py:327-357 | the nested loops over same-validity runs return, raise and change the broker exactly as the run-by-run specification |
| `QueueHarness.QueueRuntimeState.ConsumeExpected` | scripts/run_p105_queue_harness.py:59-65 | returns the next expected messages and moves the cursor past them |
| `QueueHarness.ReadMirror` | scripts/run_p105_queue_harness.py:546-558 | one consume of any rate keeps the agreement, counts what it read and reports the acknowledgement lags |
| `QueueHarness.RunTick` | scripts/run_p105_queue_harness.py:520-594 | one tick feeds both queues before reading either, and observes what the schedule prescribes |
| `QueueHarness.Materialize` | scripts/run_p105_queue_harness.py:519-594 | on an ideal broker the tick loop over two queues never refuses, and its telemetry, lag statistics included, and its ledger are those of their schedules |
| `AckLags.PercentileReaches` | scripts/run_p105_queue_harness.py:145-150 | a percentile of lags reaches a value exactly when enough lags do: all but as many as its place |
| `QueueSchedule.LagsAre` | scripts/run_p105_queue_harness.py:546-558 | the lags a tick reads, one by one: the longer ones first and then the shorter ones |
| `QueueSchedule.LagStatistics` | scripts/run_p105_queue_harness.py:568-571 | in every tick the maximal lag is the 95th percentile, and the median as well until the poison messages are read, from when on it is zero |
| `QueueSchedule.BothUsual` | scripts/run_p105_queue_harness.py:30-38 | the two coded schedules have a pause as long as the recovery and a poison tick after both, so all closed forms hold for them |
| `QueueHarness.TelemetryAt` | scripts/run_p105_queue_harness.py:560-589 | rows 2t and 2t+1 of a run are what tick t shows of the two queues |
| `QueueSchedule.CursorIs` | scripts/run_p105_queue_harness.py:125-142 | closed form of the consumer's position for every tick |
| `QueueSchedule.ObservationIs` | scripts/run_p105_queue_harness.py:520-594 | closed form of every public observation: backlog (plus 20 per paused tick, minus 20 per recovery tick, then 0, then 5 from the poison tick on), dead letters, counters, lag statistics and oldest age |
| `QueueSchedule.RecoveryEnds` | scripts/run_p105_queue_harness.py:30-38 | between pause start and poison tick the backlog is zero exactly from 60 ticks after the pause end on |
| `QueueSchedule.LagBound` | scripts/run_p105_queue_harness.py:546-558 | every message read was published at most 60 ticks before |
| `QueueSchedule.PoisonIsReadFirst` | scripts/run_p105_queue_harness.py:523-526 | the tick after the poison tick reads the five poison messages first, then fifteen of its own |
| `QueueSchedule.DeadLettersAre` | scripts/run_p105_queue_harness.py:546-563 | no other message is ever dead-lettered |
| `QueueSchedule.LedgerIs` | scripts/run_p105_queue_harness.py:526-563 | the ledger's observed transition is the tick after the poison tick |
| `FleetSignal.QueuesCountIncidents` | scripts/run_p105_queue_fleet_harness.py:162-173 | after every sample the queue holds one message per ordinary incident that binds it and the dead-letter queue one per poison incident, for any incidents starting on heartbeats, overlapping or not |
| `FleetSignal.SignalIsLabel` | scripts/run_p105_queue_fleet_harness.py:122-173 | ready plus dead-lettered is 1 exactly in the samples the ledger binds for the service and 0 otherwise, for every schedule of disjoint services whose incidents start on heartbeats |
| `FleetSignal.SignalsNeedHeartbeats` | scripts/run_p105_queue_fleet_harness.py:122-173 | for every schedule of disjoint services all signals tell their labels in all samples exactly when every incident that has a service starts on a multiple of 30 |
| `FleetSignal.FleetScheduleFits` | scripts/run_p105_queue_fleet_harness.py:122-150 | the coded schedule has disjoint services and heartbeat starts |
| `FleetHarness.SampleStep` | scripts/run_p105_queue_fleet_harness.py:631-660 | one batch and one plan for the whole fleet take every service one sample on, independently of the others |
| `FleetHarness.PlanSample` | scripts/run_p105_queue_fleet_harness.py:633-660 | the loop over services builds exactly the fleet's batch and plan and counts them |
| `FleetHarness.MaterializeActual` | scripts/run_p105_queue_fleet_harness.py:611-687 | the run is refused exactly when a bound on messages or on management calls is exceeded, reporting the one exceeded at the earlier sample and the message bound first, and otherwise emits one row per service and sample with that service's own counts |
| `FleetHarness.DeclareBrokerShape` | scripts/run_p105_queue_fleet_harness.py:356-388 | one management call for the exchange and three per service |
| `FleetHarness.TelemetryTellsLedger` | scripts/run_p105_queue_fleet_harness.py:122-687 | every emitted row shows the ledger's label |
| `FleetHarness.FleetTellsItsLedger` | scripts/run_p105_queue_fleet_harness.py:122-150 | so do the rows of the coded schedule |
| `Coverage.CanonicalSegments` | scripts/run_p105_database_fleet_harness.py:466-502 | the database loop emits exactly the segments of the runs, with or without the diagnostic flag |
| `Coverage.CoverageSegments` | scripts/run_p105_queue_fleet_harness.py:526-564 | the queue loop emits exactly the creditable runs |
| `Coverage.ObservedCoverageSegments` | scripts/run_p105_deploy_fleet_harness.py:446-495 | the deploy loop groups, sorts and emits exactly the creditable runs, and its total is the sum of their credits |
| `Coverage.RunsAreMaximal` | scripts/run_p105_queue_fleet_harness.py:526-541 | the runs lie end to end over all samples, every pair inside one is joined and no pair across two is |
| `Coverage.RunsAreUnique` | scripts/run_p105_queue_fleet_harness.py:526-541 | there is only one such splitting |
| `Coverage.CreditBounds` | scripts/run_p105_database_fleet_harness.py:489-491 | a run's credit is a multiple of 5, at most 5(n-1) and at most its elapsed time, and is zero exactly for one sample or two less than 5 s apart |
| `Coverage.ThreeAgree` | scripts/run_p105_deploy_fleet_harness.py:446-495 | the three credit the same total, and the queue and deploy lists are the database list minus exactly the two-sample segments under 5 s |
| `Coverage.DeployAgrees` | scripts/run_p105_deploy_fleet_harness.py:446-475 | the deploy totals agree when each service's rows were recorded in ordinal order |
| `Coverage.SortKeepsRows` | scripts/run_p105_deploy_fleet_harness.py:454 | sorting orders the rows by ordinal and keeps every one |
| `Coverage.ServicesAre` | scripts/run_p105_deploy_fleet_harness.py:447-453 | every service that sent a row is visited once, in order |
| `Coverage.LosingSamplesEarnsNothing` | scripts/run_p105_database_fleet_harness.py:466-502 | losing any samples of a service never raises its total unless two kept ones join because everything between them is lost |
| `Coverage.LossEarnsExactly` | scripts/run_p105_database_fleet_harness.py:466-502 | for given ordinals and lost samples some clock that never runs backwards makes the loss raise the total exactly when two kept samples get consecutive ordinals by it |
| `Coverage.NoLossEarnsExactly` | scripts/run_p105_database_fleet_harness.py:466-502 | no loss can raise the total exactly when only neighbours have consecutive ordinals, as strictly increasing ones do |
| `Coverage.ServiceBounds` | scripts/run_p105_database_fleet_harness.py:180-187 | a service's total is a multiple of 5, at most 5(samples-1) and at most its first-to-last span |
| `ConnectionPool.PoolSafe` | scripts/run_p105_database_fleet_harness.py:77-117 | under every interleaving idle plus held connections are the pool, permits plus permit holders are its size, and neither the checkouts nor their peak exceed it |
| `ConnectionPool.PermitFindsConnection` | scripts/run_p105_database_fleet_harness.py:93-104 | a thread with a permit and no connection always finds an idle one, and no permit is released beyond the bound |
| `ConnectionPool.ConnectionsAreExclusive` | scripts/run_p105_db_pool_harness.py:216-258 | no connection is used by two threads at once or idle while used |
| `ConnectionPool.NoThreadStuck` | scripts/run_p105_db_pool_harness.py:191-258 | no unfinished thread ever blocks or raises, except at a semaphore without permits |
| `ConnectionPool.EveryThreadCanFinish` | scripts/run_p105_db_pool_harness.py:191-258 | from every reachable point any thread can be brought to its end without waiting for another |
| `ConnectionPool.AllRecovered` | scripts/run_p105_db_pool_harness.py:191-258 | once all threads finished every connection and permit is back; for the service pool, whose counters are locked, attempts = success + failed + sql_error, timeouts = failed, and the recorded peak is the largest number ever checked out at once |
| `PoolObject.SQLitePool.Advance` | scripts/run_p105_db_pool_harness.py:191-258 | each atomic step of a worker updates the pool's fields as the step model says |
| `PoolObject.SQLitePool.Close` | scripts/run_p105_database_fleet_harness.py:112-117 | drains the idle connections and tells whether there were three |
| `PoolObject.Interleave` | scripts/run_p105_db_pool_harness.py:191-258 | any schedule of worker steps on the pool object is a run of the step model |
| `PoolObject.RunShard` | scripts/run_p105_database_fleet_harness.py:77-117 | when all workers have finished, closing reports recovery exactly when the pool had the coded size |
| `DejavuWindows.CompleteTimestampsAre` | scripts/materialize_p105_dejavu_a1_reviewed_local.py:124-125 | each timestamp with every metric is listed once, in order, and no other is |
| `DejavuWindows.ContinuityIntervals` | scripts/materialize_p105_dejavu_a1_reviewed_local.py:128-139 | the loop returns the continuity intervals |
| `DejavuWindows.ContinuityPartitions` | scripts/materialize_p105_dejavu_a1_reviewed_local.py:128-139 | the intervals partition the complete timestamps, begin and end at timestamps, hold no gap above the limit and are further apart than it |
| `DejavuWindows.EvaluableIntervals` | scripts/materialize_p105_dejavu_a1_reviewed_local.py:142-148 | keeps the intervals long enough for a window, shortened by it |
| `DejavuWindows.PublicWindows` | scripts/materialize_p105_dejavu_a1_reviewed_local.py:176-238 | the nested loops emit exactly the windows of the evaluable intervals |
| `DejavuWindows.WindowsExact` | scripts/materialize_p105_dejavu_a1_reviewed_local.py:176-238 | a window is emitted exactly when its end is a multiple of the stride, it lies inside one continuity interval and it holds enough complete samples; each one once, in order |
| `DejavuWindows.WindowsAreGapFree` | scripts/materialize_p105_dejavu_a1_reviewed_local.py:128-210 | an emitted window lists exactly the complete samples it spans, with no gap above the limit between neighbours |

## Left out

- PairHistory.NoMeasurementIsLost: assumes measured files of at most 184,320 rows, the number the
  harness writes; `PairHistory.TornRawIsRefused` shows that bound to be exact.
- PairHistory.StagingsAgree: with PairHistory.OldOrNew and PairHistory.FinalizedStaysFinalized assumes
  that all runs name the two directories in the same order or that the measurements are swap free, as
  those of the harness are. Without that the order can decide what is staged: `Consensus.KindOfEqualValueMatters`
  is such a pair of rows.
- PairHistory.OldOrNew: with the other results about whole histories of one program assumes that the
  first manifest uses the file names the harness writes (`StableNames`); a role that pointed at a stage
  or marker is not covered.
- CanaryHarness.BuildArtifacts: rows carry no partition, which is a hash of the request id, no other hash
  and no constant field, and their error rate is the exact quotient before rounding.
- Everything behind `app.services`, `app.connectors`, `app.migrations` and
  `scripts/verify_p105_source_expansion_artifacts.py`: the verifier of the pair is an oracle that
  passes or refuses, given as part of a run's request.
- SHA-256 is an arbitrary function of the contents; no proof needs it to be injective. The
  transaction id is the ordered pair of directories it is computed from.
- Two pairs that share a directory.
- A torn copy that misses only its final line break; JSON text and formatting. Floats are exact reals
  with minus zero, infinities and NaN apart. Which values convert to a float, and to which, is an
  arbitrary function; every exception of a conversion is the same refusal.
- The role names of a manifest's `artifact_paths` are an ordered list of file names with the public
  telemetry marked.
- The HTTP servers, whose latency is an arbitrary function of the request and of the fault.
- The statistics helpers of the windows; the place of a lag percentile is computed over exact numbers.
- Broker start-up, the settle loop's retries and timeouts (an observation sees the settled state),
  and the raw reject probe.
- The unlocked counters of the shard pool, which may lose updates, are not part of the model.
  A SQL step succeeds or fails as a whole; the order in which waiting threads are served is free.
- Float rounding in the coverage harnesses: elapsed seconds are integer nanoseconds.
- The final sort of the windows of several services: per service they are already emitted in order.
- Clocks, thread creation, command lines, Docker, archives and the P131 to P146 runtimes.
