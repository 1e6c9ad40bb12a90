# ParityGrid, verified

A Dafny model of the parts of ParityGrid that are hard to get right by inspection: its crash
and concurrency protocols, its deterministic derivations with exact counts, and its
transformations that must preserve meaning. `dafny verify dfyconfig.toml` checks everything.

The model follows the code. Where a documented promise does not hold of the code, the project
proves exactly when it does and gives a concrete case where it does not.

## What is modelled

| files | part of the system |
|---|---|
| `Warehouse`, `WarehouseVersions`, `StoryTarget`, `Story`, `StoryCompletion`, `StoryRecovery`, `StoryFailpoints`, `StoryFatalKills`, `StoryTraffic` | the resumable canonical story over a persisted warehouse, killed at any point and run again from the top |
| `StoryClock` | the injected clock and its anchor after an interruption |
| `RunControls`, `RunCalls`, `RunCleanup` | the active-run control registry as interleaved steps of many threads with a clock, what a call achieves, and what becomes of the owners it retires |
| `MarkerText`, `CrashMarkers`, `RowVersions`, `CrashWorker`, `WorkerProtocol` | the crash-reopen protocol: marker records as text, marker ledger, optimistic row versions, two worker threads and the order of their markers, kill, classification and retry |
| `Dataset`, `Skus`, `Slices`, `TargetSide`, `TargetRecords`, `ScenarioCounts`, `ReadLoop`, `Framing`, `Decimals` | dataset and scenario derivation, paged reads, identity framing, prices |
| `ScenarioStory`, `RepairedTarget` | from the derivation to the story: the derived target is the baseline, the repairable keys are the plan, and the repaired target holds the source |
| `Aliases`, `RunNeutral`, `TypePrinter`, `Publication` | alias resolution, run-neutral identities, the type printer, fixture publication |

`Wrappers` and `Texts` hold what several of them share.

Findings, each with its exact condition unless it says otherwise:

- The story can be killed so that no later run completes it. `StoryRecovery.PublishesIff` gives the
  condition on the disk and `StoryRecovery.KillIsFatalIff` exactly which kills are fatal. There are five
  ways (`StoryRecovery.FatalKill`), and every scenario reaches them: inside the creation of the run
  (`StoryRecovery.FirstFatalKill`), inside the first write (`StoryFatalKills.FirstWriteKillReached`),
  between a claim and its completion (`StoryFatalKills.ClaimKillReached`), between the effect of an update
  and the end of its plan, for every update there is (`StoryFatalKills.UpdateKillReached`), and between the count of the scripted
  fault's request and the note of the fault (`StoryFatalKills.FaultKillReached`).
  Killed only at its four named failpoints it always resumes (`StoryFailpoints.FailpointsAlwaysResume`).
- An owner call can start after its deadline: the registry reads its clock before the call, not with
  it (`RunControls.LateCallIsPossible`). Over every run, no call starts late if and only if the schedule
  never lets a thread enter its owner in a state whose clock has reached its deadline
  (`RunControls.NoLateCallIff`); for one call, if and only if the ticks scheduled between its clock read
  and its start add up to less than the time that was left (`RunControls.LateIffDelayed`).
- An owner can be retired and never closed, when the call that retires it runs out of time
  (`RunCleanup.OwnerCanBeLost`). That is the only way (`RunCleanup.NoOwnerIsForgotten`), and once all
  calls are over it is decided for good (`RunCleanup.RestDecides`).
- An exhausted idempotency registry refuses a write after changing the record
  (`Warehouse.CommitKeepsPromise`; ten thousand and one writes of one record get there,
  `Warehouse.PromiseBreaks`), and a warehouse document without any effect does not load again
  (`Warehouse.ReopensIffEffective`; a kill inside the first write of any story leaves one,
  `StoryFatalKills.FirstWriteKillReached`).
- A refused marker leaves a hole in the numbering: for any threads and any crash point the ledger has
  no gap if and only if no refused request got the lock before one whose record was appended
  (`CrashMarkers.RunGapFreeIff`); ordinal 4 and then ordinal 1 leave a ledger that starts at sequence 2
  (`CrashMarkers.HoleAfterRefusal`). Ledger validation refuses exactly such ledgers and the empty one
  (`CrashMarkers.ValidationAccepts`).
- The suffix of a run is not unique to it (`RunNeutral.SuffixesCollideIff`), against
  `src/paritygrid/demo/verification.py:157-160`.
- A union under `allOf` is printed without parentheses and read back as another type
  (`TypePrinter.RoundTripIff`, `TypePrinter.UnionUnderAllOf`). A combinator without items prints nothing,
  and the text around it is no type (`TypePrinter.HolesStick`). An index signature beside named
  properties also constrains those, which the schema does not (`TypePrinter.IndexNarrows`,
  `TypePrinter.IndexRefusesNamed`); the type of a tree is never wider than its schema
  (`TypePrinter.TypeMeansSchema`).
- A publication killed between its two renames leaves the directory missing, whatever is tried, fails
  or is killed later (`Publication.KillBetweenRenames`): an attempt publishes if and only if there is no
  leftover backup (`Publication.PublishesIffNoBackup`).
- A price with fewer digits than its exponent comes out too large; the one-unit boundary price is a
  tenth instead of a hundredth (`Decimals.ExactIff`, `Decimals.OneUnit`).
- Alias resolution does not depend on the order of the assignments as long as none of them binds the
  name a call goes through (`Aliases.OrderDoesNotMatter`, which can be checked before the loop).
  One assignment that rebinds `getattr` to a name that is no accessor, and one call of it, resolve
  differently in their two orders, under any imports that bind neither (`Aliases.CallsDependOnOrder`).
  The condition is sufficient and not necessary: a rebinding to another accessor may be harmless.

## How to read the story

A `Disk` is everything that survives a kill: the target with its receipts, effects, request count and
noted faults, the run's rows, and the manifest. A `State` adds the program counter. `Next` is one step
of the process, `Kill` drops the program counter and may cut a warehouse write after the first or the
second of its three commits, `Start` reopens the target and runs from the top. `History` is any
sequence of these. Payload digests, request fingerprints and the reconciliation analysis are
represented by the values they identify. `Scenario` fixes the baseline writes, the repair actions and
the one scripted connection loss; `WellFormed` says what a generated plan guarantees: every repair
creates a record that the baseline lacks or updates one to another payload. Every derived scenario has
this form (`ScenarioStory.DerivedScenarioIsWellFormed`); `StoryTarget.SmallScenario` is one written out.

## Model

| member | source | states |
|---|---|---|
| `Warehouse.CommitKeepsPromise` | src/paritygrid/demo/simulators/warehouse.py:249-367 | one write keeps "one effect per key, version counts the effects" if and only if it is not an effect that an exhausted registry cannot remember |
| `Warehouse.EveryWriteHistoryKeepsPromise` | src/paritygrid/demo/simulators/warehouse.py:249-367 | any history of new, replayed, conflicting or refused writes keeps that promise while there are no more writes than registry entries |
| `Warehouse.PromiseBreaks` | src/paritygrid/demo/simulators/warehouse.py:361-367 | a concrete history: after as many writes of one record as the registry remembers, the next one breaks the promise |
| `WarehouseVersions.AnswerIsCurrent` | src/paritygrid/demo/simulators/warehouse.py:301-359 | the first answer to a key is the receipt that is kept; it states target and record version as they are after the write, which changed its record and nothing else if and only if it was news |
| `WarehouseVersions.VerdictIs` | src/paritygrid/demo/simulators/warehouse.py:302-318 | the verdict on a new key, check by check: room for a new record, the written-out guard, room for the receipt; what the first two refuse changes nothing |
| `WarehouseVersions.LoadsIffSound` | src/paritygrid/demo/simulators/warehouse.py:397-439 | any document whatever loads, as itself, if and only if it records an effect, no version exceeds the target's, every effect stands behind an applied receipt, the effects sum up to the version and both tables are within bounds |
| `WarehouseVersions.EveryHistoryNumbers` | src/paritygrid/demo/simulators/warehouse.py:339-349 | over any writes within the registry, the applied receipts bear the target versions 1 to the current one, each once, those of each record its versions, each once, and the last one wrote its payload |
| `WarehouseVersions.EffectsAreNumberedInOrder` | src/paritygrid/demo/simulators/warehouse.py:339-349 | the receipt of every write that took effect bears the version it brought the target to, so receipts are numbered in the order of the effects |
| `Warehouse.FaultKinds` | src/paritygrid/demo/simulators/warehouse.py:255-262 | for each kind of scripted fault, whether it strikes before the commit, after it with the reply hidden, or not at all |
| `Warehouse.ReplayChangesNothing` | src/paritygrid/demo/simulators/warehouse.py:276-300 | the same key returns the recorded receipt and changes nothing; the same key with another request is a conflict and changes nothing |
| `Warehouse.LostReplyIsHarmless` | src/paritygrid/demo/fault_controls.py:113-132 | after a hidden reply the same write yields the same receipt and the content of a write that was answered at once |
| `Warehouse.CommitStaysBounded` | src/paritygrid/demo/simulators/warehouse.py:306-367 | records and receipts never exceed their capacities |
| `Warehouse.ReopensIffEffective` | src/paritygrid/demo/simulators/warehouse.py:397-439 | a document written under the promise loads as itself if and only if it records an effect |
| `Warehouse.TotalOfOnes` | src/paritygrid/demo/simulators/warehouse.py:743-763 | with one effect per key the effect total is the number of keys, whatever order they are summed in |
| `Warehouse.Behavior.PersistState` | src/paritygrid/demo/simulators/warehouse.py:441-471 | the document becomes the whole memory |
| `Warehouse.Behavior.StoreIdempotency` | src/paritygrid/demo/simulators/warehouse.py:361-367 | a receipt is stored unless it is new and the registry is full |
| `Warehouse.Behavior.CommitWrite` | src/paritygrid/demo/simulators/warehouse.py:276-349 | the object's memory moves as the value model says; the document follows except for an exhausted registry |
| `Warehouse.Behavior.HandleUpsert` | src/paritygrid/demo/simulators/warehouse.py:249-359 | a whole request with its three commits refines the value model, faults before and after the commit included |
| `StoryTarget.ContentShape` | src/paritygrid/demo/scenario_runner.py:1336-1355 | after p baseline writes and q repairs the target has exactly those receipts, records and single effects |
| `StoryTarget.NextRepair` | src/paritygrid/application/repair/applier.py:354-477 | the next repair of the plan meets its precondition, is answered and moves the target one repair on |
| `StoryTarget.AgainRepair` | src/paritygrid/demo/scenario_runner.py:622-650 | replaying an applied repair is answered and changes nothing |
| `StoryTarget.InitialTargetIff` | src/paritygrid/demo/scenario_runner.py:1406-1428 | the untouched baseline is recognised if and only if it is complete and no repair took effect |
| `StoryTarget.ObservedIff` | src/paritygrid/demo/scenario_runner.py:1431-1444 | the read-back agrees with the baseline if and only if no update took effect yet |
| `StoryTarget.ParityAtTheEnd` | src/paritygrid/demo/scenario_runner.py:806-830 | after all repairs the target equals the expected inventory |
| `StoryTarget.ParityIff` | src/paritygrid/demo/scenario_runner.py:850-866 | of any content whatever, parity holds if and only if it has the records of the repaired target with their payloads |
| `Story.StepKeeps` | src/paritygrid/demo/scenario_runner.py:668-941 | every step, kill and restart keeps the invariant of disk and program point |
| `Story.EveryHistoryIsSafe` | src/paritygrid/demo/scenario_runner.py:668-941 | in every state of every history: one effect at most per key, version equals the effects, nothing under a repair key before the approval, no attempt twice, a plan only after both attempts, the finished run, its artifact and its reconciliation, a manifest only after application, parity, verification and the one locked fault, with every repair exactly once |
| `Story.ManifestStays` | src/paritygrid/demo/scenario_runner.py:933-941 | later interruptions and runs leave the value of an earlier manifest and the target under it unchanged |
| `Story.OnlyPublishingReports` | src/paritygrid/demo/scenario_runner.py:912-918 | of all steps only the publication writes a manifest, and it reports the disk |
| `Story.EveryManifestIsFinal` | src/paritygrid/demo/scenario_runner.py:912-941 | in every history every manifest has the one value: the expected target, both attempts, the one locked fault; so a run that replaces an earlier manifest publishes the same |
| `Story.InitialMeansLoaded` | src/paritygrid/demo/scenario_runner.py:708-722 | a restart skips the load exactly when the baseline is complete and unrepaired |
| `Story.RequestCounts` | src/paritygrid/demo/simulators/warehouse.py:482-540 | every request counts once; the scripted fault is noted and hides the reply at its own number only |
| `StoryCompletion.FromActing` | src/paritygrid/application/repair/applier.py:196-294 | from any point of the application loop the story completes if and only if the locked fault was noted or is still ahead |
| `StoryCompletion.FromReplaying` | src/paritygrid/demo/scenario_runner.py:622-650 | the replay of applied effects ends without any further fault |
| `StoryCompletion.FromAttempting` | src/paritygrid/demo/scenario_runner.py:1546-1673 | recording the attempts gets through if and only if no claim was left open |
| `StoryCompletion.FromLoading` | src/paritygrid/demo/scenario_runner.py:1336-1368 | the load gets through if and only if no update took effect, no claim is open, and it does not run into the locked fault |
| `StoryCompletion.CompletesIff` | src/paritygrid/demo/scenario_runner.py:668-941 | a restarted story, left alone, publishes its manifest if and only if the disk satisfies a condition a caller can check |
| `StoryRecovery.BlockedForever` | src/paritygrid/demo/story.py:293-322 | on a doomed disk no history ever publishes |
| `StoryRecovery.PublishesIff` | src/paritygrid/demo/scenario_runner.py:668-941 | some history publishes if and only if the disk is not doomed (unreadable target, half-created run, open claim, missed fault, stranded update) |
| `StoryRecovery.KillIsFatalIff` | src/paritygrid/demo/story.py:293-322 | at any point of any unpublished story: a kill is fatal if and only if the disk is doomed already, or the kill tears the fault's write before its note, or it tears the first write |
| `StoryRecovery.FatalKill` | src/paritygrid/adapters/persistence/repositories/work_items.py:234-303 | a kill after a claim, inside the creation, after an update's effect, between count and note of the scripted fault, or inside the first write is fatal |
| `StoryRecovery.FirstFatalKill` | src/paritygrid/demo/story.py:293-322 | the shortest fatal history: killed after the first command of a new run |
| `StoryRecovery.LoadedHasVersion` | src/paritygrid/demo/scenario_runner.py:1345-1355 | once one baseline write took effect the target document can be reopened |
| `StoryRecovery.EveryHistoryDecides` | src/paritygrid/demo/scenario_runner.py:668-941 | both conditions hold after every history of a new story |
| `StoryRecovery.EveryManifestStays` | src/paritygrid/demo/scenario_runner.py:933-941 | after any history that published, any continuation leaves the manifest's value and the target content unchanged |
| `StoryFailpoints.HistoryStaysClean` | src/paritygrid/demo/scenario_runner.py:668-941 | kills at named failpoints only: the disk is always untouched, loaded, or applied, and every request is accounted for |
| `StoryFailpoints.FailpointsAlwaysResume` | src/paritygrid/demo/interruption.py:385-411 | such a story never fails; the connection loss hides the reply of its own repair and no other, that repair has its effect and is the only one sent twice, so the plan takes one request more than it has writes; and the story always resumes to completion |
| `StoryFatalKills.NewStoryEnds` | src/paritygrid/demo/scenario_runner.py:668-941 | an undisturbed new story records both attempts and every repair of its plan, and notes the fault |
| `StoryFatalKills.WhoRecords` | src/paritygrid/demo/scenario_runner.py:1546-1673 | of all steps only the completion of a claim adds an attempt, and only the record of a repair advances the applied count, to just that repair |
| `StoryFatalKills.ClaimKillReached` | src/paritygrid/adapters/persistence/repositories/work_items.py:234-303 | in every scenario some kill of a new story leaves a claim open, and no later run publishes |
| `StoryFatalKills.UpdateKillReached` | src/paritygrid/demo/scenario_runner.py:1431-1444 | for every update of the plan some kill of a new story strands just that update, and no later run publishes |
| `StoryFatalKills.WhoNotes` | src/paritygrid/demo/simulators/warehouse.py:482-540 | of all steps only a write notes a fault, and only the one with the scripted number |
| `StoryFatalKills.FaultKillReached` | src/paritygrid/demo/simulators/warehouse.py:482-540 | in every scenario some kill of a new story leaves the fault counted and not noted, and no later run publishes |
| `StoryFatalKills.FirstWriteKillReached` | src/paritygrid/demo/simulators/warehouse.py:397-439 | in every scenario a kill inside the first write leaves a document that does not load, and no later run publishes |
| `StoryTraffic.StepSends` | src/paritygrid/demo/scenario_runner.py:668-941 | the target after every step is that of the write the step sends, and unchanged if it sends none |
| `StoryTraffic.KillCutsOutgoing` | src/paritygrid/demo/simulators/warehouse.py:249-256 | a kill cuts exactly the write the next step would have sent, before its count, behind it, or behind the note of the fault; otherwise it leaves the disk alone |
| `StoryTraffic.RestartSends` | src/paritygrid/demo/scenario_runner.py:668-941 | a restarted story that gets to its end has sent exactly the writes its disk calls for, one request each, and leaves the repaired target with the one fault noted |
| `StoryTraffic.RerunIsStill` | src/paritygrid/demo/scenario_runner.py:842-848 | after any history that published, running the story again completes, sends nothing and leaves the target as it is, request count and faults included |
| `StoryTraffic.AppliedIsReplayed` | src/paritygrid/demo/scenario_runner.py:834-848 | after any history that applied the plan and did not publish, unless doomed, the next run completes and sends every repair again, once, in plan order |
| `StoryTraffic.NewStorySends` | src/paritygrid/demo/scenario_runner.py:668-941 | an undisturbed new story sends the baseline and the plan, the repair that the connection loss hits twice in a row, and nothing else |
| `ScenarioStory.OneRecordPerKey` | src/paritygrid/demo/scenarios.py:876-922 | all target records of one key are the same |
| `ScenarioStory.RepairFits` | src/paritygrid/demo/scenario_runner.py:653-665 | the repair of a key classified missing or mismatched creates a record that the derived target lacks or updates one to another payload |
| `ScenarioStory.ScenarioSize` | src/paritygrid/demo/simulators/warehouse.py:361-367 | baseline and plan of any source of at most the largest dataset's rows fit the idempotency registry |
| `ScenarioStory.DerivedScenarioIsWellFormed` | src/paritygrid/demo/scenarios.py:714-741 | the derived target as baseline and the repairs of the classified keys as plan are a scenario that all story results apply to |
| `ScenarioStory.SomethingToRepair` | src/paritygrid/demo/scenarios.py:717-720 | with a single record at a dropped position the plan is not empty |
| `ScenarioStory.PlanIsCounted` | src/paritygrid/demo/scenarios.py:948-951 | the plan has exactly as many actions as the locked counts announce |
| `ScenarioStory.GeneratedStoryIsSafe` | src/paritygrid/demo/scenarios.py:714-741 | every history of kills and restarts of the story of a generated dataset is safe, whichever planned repair the fault hits |
| `ScenarioStory.ProfileStory` | src/paritygrid/demo/scenarios.py:714-741 | for every accepted profile, digest and rendering: the story is safe in every history, can be published if and only if its disk is not doomed, and always resumes after kills at the named failpoints |
| `ScenarioStory.PlainSeparates` | src/paritygrid/demo/scenario_runner.py:1336-1355 | there is a rendering that tells differing records of a key apart, as the story of a derivation needs it |
| `RepairedTarget.PlanIsNeeded` | src/paritygrid/demo/scenario_runner.py:653-665 | every action of the plan writes the single source record of a key that is missing, to be absent, or that differs, to hold what the target holds |
| `RepairedTarget.RepairsReachTheSource` | src/paritygrid/demo/scenario_runner.py:806-830 | after all repairs the target holds, for every source key, the rendering of its first source record, the reserved records, and nothing else |
| `RepairedTarget.ProfileReachesTheSource` | src/paritygrid/demo/scenario_runner.py:858-866 | every manifest of every history of the story of an accepted profile reports such a target |
| `StoryClock.ScenarioClock.Now` | src/paritygrid/demo/scenario_runner.py:472-476 | returns the current instant and moves one second on |
| `StoryClock.ScenarioClock.AdvanceTo` | src/paritygrid/demo/scenario_runner.py:482-486 | moves to the moment if it is later and never back |
| `StoryClock.AnchorIsLater` | src/paritygrid/demo/story.py:66-82 | the anchor is later than every durable timestamp and not before the wall clock |
| `StoryClock.TimeMovesForward` | src/paritygrid/demo/story.py:66-158 | across any interruptions and wall clocks every issued instant is later than every fact durable before it, and a process draws strictly increasing instants |
| `RunControls.StepKeeps` | src/paritygrid/runtime/run_controls.py:66-205 | every atomic step of every thread keeps the registry invariant and the safety of its log |
| `RunControls.EveryRunIsSafe` | src/paritygrid/runtime/run_controls.py:66-205 | in every interleaving: calls on a slot do not overlap, a slot is closed at most once, no operator call starts after its close started, owners never exceed the capacity, gates are free when all threads are done |
| `RunControls.NothingAfterClose` | src/paritygrid/runtime/run_controls.py:116-139 | once a slot's close started, no pause, resume or cancel starts on it, also after the run id was registered anew |
| `RunControls.CallsNeverOverlap` | src/paritygrid/runtime/run_controls.py:121-161 | between two call starts on one slot the first one has ended |
| `RunControls.ClosedForGood` | src/paritygrid/runtime/run_controls.py:163-186 | a closed registry stays closed and empty |
| `RunControls.SomeThreadCanMove` | src/paritygrid/runtime/run_controls.py:66-205 | no reachable state is deadlocked |
| `RunControls.CallsAreBudgeted` | src/paritygrid/runtime/run_controls.py:136-139 | in every run every owner call was granted a positive budget, the time left at its last clock read |
| `RunControls.NoLateCallIff` | src/paritygrid/runtime/run_controls.py:136-146 | over every run from an empty registry: no owner call starts after its deadline if and only if no thread that passed its check is scheduled when the clock has reached its deadline |
| `RunControls.SwiftNeverLate` | src/paritygrid/runtime/run_controls.py:136-146 | runs in which no tick carries such a thread to its deadline never start a late call |
| `RunControls.LateIffDelayed` | src/paritygrid/runtime/run_controls.py:136-146 | whatever is scheduled between check and call, the call starts in time if and only if less time passes than was left |
| `RunControls.LateCallIsPossible` | src/paritygrid/runtime/run_controls.py:136-139 | a concrete run in which a call starts after its deadline |
| `RunControls.DeliveredInTime` | src/paritygrid/runtime/run_controls.py:139-161 | a dispatch that returns evidence finished its call before the deadline |
| `RunCalls.DispatchDeliversIff` | src/paritygrid/runtime/run_controls.py:139-161 | whatever other threads do in between, a dispatch whose owner returned delivers, with the instants of its entry and of the clock read afterwards, if and only if that read is before the deadline and the evidence is about its run; otherwise nothing |
| `RunCalls.RaisedDeliversNothing` | src/paritygrid/runtime/run_controls.py:145-161 | a dispatch whose owner raised delivers nothing |
| `RunCalls.DispatchAlone` | src/paritygrid/runtime/run_controls.py:101-161 | a dispatch to a registered run with a free gate, left alone from any reachable state, enters and leaves the owner once, delivers, and changes nothing else |
| `RunCalls.DispatchRefused` | src/paritygrid/runtime/run_controls.py:117-122 | a dispatch to an unregistered run or a closed registry ends at once and changes nothing |
| `RunCalls.UnregisterAlone` | src/paritygrid/runtime/run_controls.py:80-99 | an unregistration with a free gate, left alone, removes the run, closes its owner once and retires its slot |
| `RunCalls.StopAlone` | src/paritygrid/runtime/run_controls.py:163-186 | a shutdown with free gates, left alone, closes every registered owner once, in the order of registration, and leaves the registry closed and empty |
| `RunCalls.FirstDelivery` | src/paritygrid/runtime/run_controls.py:66-161 | a registration and a dispatch in an empty registry: the log is one start, one end, one delivery |
| `RunCalls.WaitsForGate` | src/paritygrid/runtime/run_controls.py:123-126 | a thread before a held gate can do nothing until its deadline and then only give up; before a free one it can always take it |
| `RunCalls.RegistersIff` | src/paritygrid/runtime/run_controls.py:66-78 | a registration is taken if and only if the registry is open, the run is new and there is room; it gets a slot of its own and nothing else changes |
| `RunCleanup.StepCleans` | src/paritygrid/runtime/run_controls.py:80-99 | every atomic step of every thread keeps track of every retired owner |
| `RunCleanup.NoOwnerIsForgotten` | src/paritygrid/runtime/run_controls.py:163-205 | in every run, every owner ever registered is registered still, or its close has begun exactly once, or the call that retired it will still close it, or the deadline of that call has passed |
| `RunCleanup.ClosedMeansCleanedUp` | src/paritygrid/runtime/run_controls.py:163-186 | once a closed registry is at rest, every owner was asked to close exactly once unless the deadline of the call that retired it passed |
| `RunCleanup.LostForGood` | src/paritygrid/runtime/run_controls.py:188-205 | an owner that is retired, not closed and owed by no call is never closed, whatever follows |
| `RunCleanup.RestDecides` | src/paritygrid/runtime/run_controls.py:80-99 | when all calls are over, every retired owner was closed once, or its deadline passed and it is never closed |
| `RunCleanup.OwnerCanBeLost` | src/paritygrid/runtime/run_controls.py:188-190 | a concrete run in which an owner is retired and never closed |
| `MarkerText.LineInjective` | src/paritygrid/quality/crash_reopen_protocol.py:286-296 | the line of JSON written for a record determines the record |
| `MarkerText.NamesReadBack` | src/paritygrid/quality/crash_reopen_protocol.py:36-49 | every marker is found under its own name, and every name found is the marker's own |
| `MarkerText.LineFits` | src/paritygrid/quality/crash_reopen_protocol.py:104-112 | the line of every record ends with its only line break and has at most 512 characters |
| `MarkerText.LineExample` | src/paritygrid/quality/crash_reopen_protocol.py:286-296 | a line, written out |
| `MarkerText.ReaderExists` | src/paritygrid/quality/crash_reopen_protocol.py:298-317 | there is a reader that reads back every written record and accepts nothing else |
| `CrashMarkers.CrashLeavesPrefix` | src/paritygrid/quality/crash_reopen_protocol.py:331-356 | whatever threads emit and wherever they crash, stdout is a prefix of the ledger, at most one record behind |
| `CrashMarkers.CrashLeavesNumbers` | src/paritygrid/quality/crash_reopen_protocol.py:331-356 | the ledger is numbered 1 to k without gaps, k at most 1000 |
| `CrashMarkers.GapFreeIff` | src/paritygrid/quality/crash_reopen_protocol.py:331-340 | requests served one after the other: the numbering has no gap if and only if nothing is appended after a refused record |
| `CrashMarkers.LedgerIsSequential` | src/paritygrid/quality/crash_reopen_protocol.py:331-356 | the ledger of every interleaving and crash point is that of its decided requests, in the order they got the lock, one after the other |
| `CrashMarkers.RunGapFreeIff` | src/paritygrid/quality/crash_reopen_protocol.py:331-356 | for any threads, requests and crash point: no gap if and only if no refused request was decided before one that was appended |
| `CrashMarkers.HoleAfterRefusal` | src/paritygrid/quality/crash_reopen_protocol.py:331-340 | a concrete run of the emitter whose ledger starts at sequence 2 |
| `CrashMarkers.CrashMarkerEmitter.Emit` | src/paritygrid/quality/crash_reopen_protocol.py:331-356 | appends the next record to ledger and stdout, or refuses it, exactly as the atomic steps of one thread in a row |
| `CrashMarkers.ValidateLedger` | src/paritygrid/quality/crash_reopen_harness.py:286-313 | splits the ledger text into lines and accepts exactly the non-empty ledgers of complete, readable, correctly numbered lines that start with what was read of stdout |
| `CrashMarkers.WaitForMarker` | src/paritygrid/quality/crash_reopen_harness.py:198-231 | decodes line by line, returns the records up to and including the first awaited marker, and misses none in a well-numbered stream |
| `CrashMarkers.SplitConcat` | src/paritygrid/quality/crash_reopen_harness.py:294-298 | lines appended one after the other are split where they were joined |
| `CrashMarkers.ValidationAccepts` | src/paritygrid/quality/crash_reopen_harness.py:286-313 | for any threads, requests and crash point and whatever was read of stdout before: validation accepts it with the ledger text if and only if a record was appended and none after a refused one |
| `RowVersions.ApplyKeepsConsistent` | src/paritygrid/adapters/persistence/writer/dispatch.py:327-422 | any accepted command, whatever it expects, leaves node counts equal to the work table and the counter equal to the log |
| `RowVersions.AppliedOnce` | src/paritygrid/adapters/persistence/writer/dispatch.py:299-422 | a command applied once is rejected ever after, whatever was applied in between |
| `RowVersions.AcceptedIsCurrent` | src/paritygrid/adapters/persistence/writer/dispatch.py:299-422 | a command on work is accepted only if the sequence, run, node and row it expects are current |
| `RowVersions.LogAcceptsReplay` | src/paritygrid/adapters/persistence/repositories/execution_events.py:91-180 | the event log alone takes an immediate repetition for a replay, so the rejection comes from the row versions |
| `RowVersions.SchedulePrepares` | src/paritygrid/quality/crash_reopen_scenario.py:179-235 | for n work items every version check passes and the schedule ends at run 2+2n, node 1+2n, counter 3+2n |
| `RowVersions.CompletionAccepted` | src/paritygrid/quality/crash_reopen_scenario.py:251-293 | the next completion is accepted and moves to the next projection, work row 2 to 4 |
| `RowVersions.CompletionsApply` | src/paritygrid/quality/crash_reopen_scenario.py:315-376 | from an empty database to any number of completions in one run of accepted commands |
| `RowVersions.ProjectionConsistent` | src/paritygrid/quality/crash_reopen_scenario.py:433-624 | every expected projection has node counts that add up to its work rows |
| `RowVersions.CompletionRejectedAgain` | src/paritygrid/quality/crash_reopen_scenario.py:251-293 | an applied completion is rejected in every later projection |
| `CrashWorker.RunKeeps` | src/paritygrid/quality/crash_reopen_worker.py:137-187 | in every interleaving the database is the projection of the completions the writer has passed, and no promising marker precedes its commit |
| `CrashWorker.DurableAtTarget` | src/paritygrid/quality/crash_reopen_harness.py:316-327 | from the awaited marker on, the number of durable completions is 0 before the commit, 0 or 1 at the ambiguous one, 1 everywhere else |
| `CrashWorker.EveryCaseRecovers` | src/paritygrid/quality/crash_reopen_harness.py:388-425 | for every failpoint, interleaving and kill time the outcome is an expected one, the retry happens exactly when it is absent, and the target ends committed once |
| `CrashWorker.OnlyHeldWaits` | src/paritygrid/quality/crash_reopen_worker.py:255-277 | two threads that both wait are past the awaited marker |
| `CrashWorker.ParentIsServed` | src/paritygrid/quality/crash_reopen_worker.py:255-277 | from every reachable state the awaited marker is at most 84 moves away |
| `WorkerProtocol.MarkersFollowProtocol` | src/paritygrid/quality/crash_reopen_worker.py:137-187 | in every interleaving at every moment the markers of each thread are a beginning of its written-out protocol; a command is announced before the writer speaks of it, entered before it is durable, confirmed after, and observed after its notification was offered |
| `WorkerProtocol.HeldAtBoundary` | src/paritygrid/quality/crash_reopen_worker.py:153-187 | in every case and interleaving the writer says no more than the boundary it is held at allows |
| `WorkerProtocol.NothingWithoutRelease` | src/paritygrid/quality/crash_reopen_worker.py:163-171 | without the parent's release an ambiguous commit is entered and does not happen |
| `WorkerProtocol.ReleasedAfterEntered` | src/paritygrid/quality/crash_reopen_harness.py:388-425 | the parent releases an ambiguous commit only after it was entered |
| `Dataset.TopIndicesSelect` | src/paritygrid/demo/datasets.py:465-482 | for any digest, exactly the requested number of eligible indices is selected, and each precedes every eligible one left out |
| `Dataset.LayoutIsExact` | src/paritygrid/demo/datasets.py:422-463 | every accepted profile gets its three role sets in full, disjoint where they must be, each chosen by its own rank |
| `Dataset.GenerateRows` | src/paritygrid/demo/datasets.py:327-368 | the loop produces the rows of the layout |
| `Dataset.ProfileIsExact` | src/paritygrid/demo/datasets.py:115-127 | every accepted profile generates exactly its record, malformed, boundary and duplicate counts |
| `Dataset.RowsOrdered` | src/paritygrid/demo/datasets.py:336-368 | rows are numbered by position, base rows rise, a duplicate directly follows its base row |
| `Dataset.DuplicatesFollow` | src/paritygrid/demo/datasets.py:361-368 | a base row is followed by a duplicate exactly when the layout chose it |
| `Dataset.RowsFollowLayout` | src/paritygrid/demo/datasets.py:336-368 | every row has the role its base row was chosen for |
| `Dataset.EveryBaseHasItsRow` | src/paritygrid/demo/datasets.py:336-368 | every base row is there |
| `Skus.SkusDiffer` | src/paritygrid/demo/datasets.py:535-585 | keys of different base rows differ, whatever the digest picks |
| `Skus.TargetOnlyDiffers` | src/paritygrid/demo/scenarios.py:925-935 | no generated key is one of the target-only keys |
| `Skus.SkuExample` | src/paritygrid/demo/datasets.py:535-585 | a generated key and a reserved one, written out |
| `Slices.SliceRows` | src/paritygrid/demo/scenarios.py:794-821 | the loop produces the slice of every source |
| `Slices.SlicesPartition` | src/paritygrid/demo/scenarios.py:794-821 | the four slices carry every row exactly once |
| `Slices.SliceRises` | src/paritygrid/demo/scenarios.py:794-821 | every slice keeps the row order |
| `Slices.DuplicateJoinsBase` | src/paritygrid/demo/scenarios.py:815-817 | a duplicate is in the slice of its base row |
| `Slices.BalancedBases` | src/paritygrid/demo/scenarios.py:818-820 | the sources differ by at most one base row |
| `Slices.BasesGoRound` | src/paritygrid/demo/scenarios.py:818-820 | the first base row goes to the asynchronous source, each other one to the source after that of the base row before it |
| `Slices.ShareOfMalformed` | src/paritygrid/demo/scenarios.py:810-814 | only the file sources carry malformed rows, alternating |
| `Slices.DeriveSourceDataset` | src/paritygrid/demo/datasets.py:240-256 | for any parent, also a derived one: the scan accepts exactly the repetition-free rows that stand at rising positions of the parent |
| `Slices.EarliestGrows` | src/paritygrid/demo/datasets.py:246-256 | taking the first free position of each row ends no later than any other choice, so the greedy scan misses none |
| `Slices.SlicesAreAccepted` | src/paritygrid/demo/datasets.py:226-256 | every slice of generated rows is accepted |
| `TargetSide.CollectKeys` | src/paritygrid/demo/scenarios.py:890-901 | the first loop yields the keys in order of appearance with first record and multiplicity, attributes stripped for CSV keys |
| `TargetSide.DeriveTargetSide` | src/paritygrid/demo/scenarios.py:876-922 | the derivation places every key by the rule of its position and adds the target-only keys |
| `TargetSide.TweakIsValid` | src/paritygrid/demo/scenarios.py:911-914 | the changed quantity differs, is not negative and stays in range |
| `TargetSide.KeysFollowRule` | src/paritygrid/demo/scenarios.py:876-922 | every source key, classified by multiplicities and payload equality, follows the closed modular rule |
| `TargetSide.ReservedKeys` | src/paritygrid/demo/scenarios.py:919-935 | every target-only key occurs once and is missing from the source |
| `TargetSide.OtherKeys` | src/paritygrid/demo/scenarios.py:876-922 | the target has no further key |
| `TargetRecords.TargetKeepsRecords` | src/paritygrid/demo/scenarios.py:902-918 | every target record of a source key is that key's first source record, unless the key is classified a mismatch; then its quantity alone is three away, upward if and only if it was at most three |
| `TargetRecords.TargetMultiplicity` | src/paritygrid/demo/scenarios.py:902-918 | how many target records a source key has, read off its class |
| `TargetRecords.OriginDoesNotCount` | src/paritygrid/domain/reconciliation/outcomes.py:105-125 | two single records match if and only if they agree in every field but the key of their origin |
| `TargetRecords.TargetInOrder` | src/paritygrid/demo/scenarios.py:902-920 | the target lists its records in the order in which their keys first appear, the reserved ones last |
| `TargetRecords.ReservedTable` | src/paritygrid/demo/scenarios.py:925-935 | the four reserved records, written out |
| `TargetRecords.CsvLosesAttributes` | src/paritygrid/demo/scenarios.py:828-852 | every row that is not malformed is observed as on the wire, except that rows of the CSV slice, and only they, lose their attributes |
| `TargetRecords.ObservedInOrder` | src/paritygrid/demo/scenarios.py:890-901 | nothing else is observed, in no other order |
| `TargetSide.GeneratedKeysDistinguish` | src/paritygrid/demo/datasets.py:522-608 | whatever words and tails the digest picks, the keys separate the base rows and avoid the reserved ones |
| `TargetSide.DatasetFollowsRule` | src/paritygrid/demo/scenarios.py:828-935 | in every dataset the key of each base row follows the rule of its position among the base rows |
| `TargetSide.GeneratedScenario` | src/paritygrid/demo/scenarios.py:828-935 | the same for every accepted profile and every digest, repeated exactly at the duplicate sources |
| `ScenarioCounts.CoherenceErrors` | src/paritygrid/demo/scenarios.py:585-627 | no error is reported if and only if all invariants hold |
| `ScenarioCounts.SlicingKeepsKeys` | src/paritygrid/demo/scenarios.py:768-821 | delivered source after source, every key has the records it has in row order |
| `ScenarioCounts.KeyListDistinct` | src/paritygrid/demo/scenarios.py:925-935 | the source keys and the reserved ones are all different |
| `ScenarioCounts.KeysOnEitherSide` | src/paritygrid/demo/scenarios.py:876-935 | the listed keys are exactly those that occur on either side |
| `ScenarioCounts.ClassesAddUp` | src/paritygrid/demo/scenarios.py:945-965 | the classified keys add up to all keys, and the duplicate classes, both counted twice, to the groups of repeated keys |
| `ScenarioCounts.SlicesKeepRoles` | src/paritygrid/demo/scenarios.py:943-946 | the rows of each role summed over the slices are those of the dataset |
| `ScenarioCounts.QuarantineIsMalformed` | src/paritygrid/demo/scenarios.py:967-971 | the quarantined observations are as many as the malformed rows of the slices |
| `ScenarioCounts.ClassesFollowTally` | src/paritygrid/demo/scenarios.py:876-922 | for every classification, the source keys classified so are as many as the base rows whose position the modular rule assigns to it |
| `ScenarioCounts.CountsFollowRule` | src/paritygrid/demo/scenarios.py:938-993 | over all keys of both sides, every class count is what the closed rule gives, the four reserved keys are the ones missing from the source, and the keys are the base rows and those four |
| `ScenarioCounts.CountsAreCoherent` | src/paritygrid/demo/scenarios.py:938-993 | for every dataset the duplicate groups agree and the counts, rows summed over the four slices and keys as classified, are coherent |
| `ScenarioCounts.EachCount` | src/paritygrid/demo/scenarios.py:967-993 | each count by itself, against the closed rule or the rows of the dataset |
| `ScenarioCounts.ProfileGenerates` | src/paritygrid/demo/datasets.py:327-368 | every accepted profile and every digest generate rows and keys to which the results above apply |
| `ScenarioCounts.ProfileCounts` | src/paritygrid/demo/scenarios.py:938-993 | for every accepted profile and every digest the counts are coherent, and its rows, malformed, boundary and duplicate rows and its keys are exactly as the profile asks |
| `ReadLoop.FromEntries` | src/paritygrid/demo/failures.py:139-163 | a script is the sorted entries, refused if and only if a sequence repeats or there are too many |
| `ReadLoop.FailureFor` | src/paritygrid/demo/failures.py:165-172 | the early exit finds the entry of a sequence if there is one |
| `ReadLoop.LastPage` | src/paritygrid/demo/scenarios.py:824-825 | after k full pages the next is the last exactly when it ends the rows, so a pass takes ceil(n/p) requests |
| `ReadLoop.ScriptedSource.ReadPage` | src/paritygrid/demo/simulators/source_behavior.py:121-145 | every request with a valid cursor counts; it fails exactly when scripted, and otherwise delivers its page |
| `ReadLoop.ReadPages` | src/paritygrid/demo/scenario_runner.py:1275-1289 | one attempt delivers all rows in order, or stops at the first scripted request with the full pages before it |
| `ReadLoop.ReadAsyncSource` | src/paritygrid/demo/scenario_runner.py:1257-1333 | with one rate limit at r in the first pass: attempts failed and succeeded, all rows in order, r + ceil(n/p) requests |
| `Framing.UnframedFramed` | src/paritygrid/demo/scenarios.py:855-859 | a reader inverts the framing of any values shorter than 2^64 |
| `Framing.FrameAll` | src/paritygrid/demo/scenarios.py:855-859 | the loop produces the framed bytes |
| `Framing.FramedInjective` | src/paritygrid/demo/datasets.py:698-699 | equal framed bytes come from equal values |
| `Framing.StreamInjective` | src/paritygrid/demo/datasets.py:369-376 | equal digest streams come from equal indices and payloads |
| `Framing.ProfileTextInjective` | src/paritygrid/demo/datasets.py:129-139 | equal profile texts come from equal profiles |
| `Framing.PreimageInjective` | src/paritygrid/demo/datasets.py:384-392 | equal identity preimages come from equal format, versions, seed, profile and row digest, through their decimal and JSON texts |
| `Framing.PreimageReads` | src/paritygrid/demo/datasets.py:384-392 | the preimage reads back as its six fields in order, behind the header |
| `Framing.FrameExample` | src/paritygrid/demo/scenarios.py:855-859 | a frame, written out: the length in eight bytes, the most significant first |
| `Framing.ProfileTextExample` | src/paritygrid/demo/datasets.py:129-139 | the text of a small profile, written out |
| `Decimals.ExactIff` | src/paritygrid/demo/datasets.py:511-515 | the decimal is units over 10^exponent if and only if there are enough digits, or no units |
| `Decimals.ShortText` | src/paritygrid/demo/datasets.py:511-515 | with fewer digits it is units over 10 to the number of digits |
| `Decimals.OneUnit` | src/paritygrid/demo/datasets.py:573-598 | the one-unit boundary price is 1/10 |
| `Aliases.ImportAliases` | src/paritygrid/quality/import_boundaries.py:195-214 | the loop runs at most one round more than there are assignments and stops early only at a fixpoint |
| `Aliases.NameFromRoot` | src/paritygrid/quality/import_boundaries.py:224-252 | where no call goes through a bound name, a qualified name is the alias of its root and its selectors, `getattr` and import calls included |
| `Aliases.SpellingsAgree` | src/paritygrid/quality/import_boundaries.py:224-252 | a watched builtin comes to one qualified name however it is written: bare, as attribute or item of the builtins or of an alias of them, or through getattr |
| `Aliases.OtherNamesStand` | src/paritygrid/quality/import_boundaries.py:225-232 | any other unbound name stands for itself |
| `Aliases.OtherCallsAreNameless` | src/paritygrid/quality/import_boundaries.py:237-252 | any other call, and items without a constant key, have no name |
| `Aliases.RoundSettles` | src/paritygrid/quality/import_boundaries.py:200-213 | one round settles every assignment whose root is settled, whatever its place in the order |
| `Aliases.LoopResolves` | src/paritygrid/quality/import_boundaries.py:182-214 | for assignments that bind each name once, without cycles and with steady accessors, the loop ends at a fixpoint that is full recursive resolution |
| `Aliases.OrderDoesNotMatter` | src/paritygrid/quality/import_boundaries.py:195-214 | two orders of the same assignments, calls through unbound accessors included, resolve to the same aliases |
| `Aliases.CallsDependOnOrder` | src/paritygrid/quality/import_boundaries.py:241-252 | two assignments under any imports that bind neither name: `getattr` rebound to a name that is no accessor and a call of it reach different fixpoints in their two orders |
| `RunNeutral.PrefixOfItself` | src/paritygrid/demo/verification.py:413-419 | a suffix that begins "e-" followed by itself repeats those two letters |
| `RunNeutral.EarlierPlaceIff` | src/paritygrid/demo/verification.py:253-254 | the first match overlaps the fixed part if and only if the suffix is "e", "e-e", and so on |
| `RunNeutral.NeutralIdentity` | src/paritygrid/demo/verification.py:413-419 | for every suffix, cutting out its first occurrence leaves the run-free identity |
| `RunNeutral.SortedUnique` | src/paritygrid/demo/verification.py:875-889 | rows sorted by an order are determined by their multiset |
| `RunNeutral.EqualFactsEqualProjections` | src/paritygrid/demo/verification.py:874-889 | two runs with the same facts, stored in any order, have equal sorted projections, whatever their suffixes are |
| `RunNeutral.EqualProjectionsEqualFacts` | src/paritygrid/demo/verification.py:874-889 | runs with equal projections have the same facts, so apart from the run a projection hides nothing |
| `RunNeutral.SuffixesCollideIff` | src/paritygrid/demo/verification.py:154-164 | two runs share a suffix if and only if they are equal or one is an engine run named after the other |
| `RunNeutral.CollidingRuns` | src/paritygrid/demo/verification.py:154-164 | a concrete pair |
| `TypePrinter.PrintedReads` | src/paritygrid/api/ts_generation.py:58-118 | what the text of every tree without empty combinators reads as, whatever follows it |
| `TypePrinter.RoundTripIff` | src/paritygrid/api/ts_generation.py:58-118 | for every tree: the text reads back as the type of its tree if and only if no combinator is empty and no allOf of two or more has an item that renders as a union |
| `TypePrinter.HolesStick` | src/paritygrid/api/ts_generation.py:73-78 | wherever a combinator has no items, the text cannot be read |
| `TypePrinter.TypeMeansStrict` | src/paritygrid/api/ts_generation.py:58-118 | the type of every tree has exactly the values of the schema read strictly, index signatures checked on every field |
| `TypePrinter.TypeMeansSchema` | src/paritygrid/api/ts_generation.py:73-118 | the type of every tree has no value that the schema refuses, and where index signatures stand alone exactly the values it accepts: anyOf and oneOf some item, allOf every item |
| `TypePrinter.MeaningPreserved` | src/paritygrid/api/ts_generation.py:58-118 | the printed text of a faithful tree, read back, means the schema read strictly, and the schema itself where index signatures stand alone |
| `TypePrinter.IndexNarrows` | src/paritygrid/api/ts_generation.py:98-118 | an object type with an index signature has a value if and only if the schema accepts it and the schema of the additional properties also accepts its named fields |
| `TypePrinter.IndexRefusesNamed` | src/paritygrid/api/ts_generation.py:98-118 | a concrete object that the schema accepts and the printed type refuses |
| `TypePrinter.UnionUnderAllOf` | src/paritygrid/api/ts_generation.py:77-78 | a concrete schema whose text accepts a value that the schema rejects |
| `Publication.CopySurvives` | src/paritygrid/quality/frozen_schema.py:936-980 | whatever fails, is killed and is tried again, a complete copy is in the directory, or in the backup while the directory is missing |
| `Publication.AttemptLeavesOldOrNew` | src/paritygrid/quality/frozen_schema.py:953-980 | an attempt that fails at any step and recovers leaves exactly the old or exactly the new directory, no backup and no candidate |
| `Publication.InterruptionLeaves` | src/paritygrid/quality/frozen_schema.py:936-980 | a kill or failure never touches the published directory and leaves the backup, or a part of it while it is removed; a failure after the start leads to recovery |
| `Publication.PublishesIffNoBackup` | src/paritygrid/quality/frozen_schema.py:961-973 | an undisturbed attempt publishes if and only if there is no backup; otherwise it changes nothing |
| `Publication.StrandedStays` | src/paritygrid/quality/frozen_schema.py:953-980 | no attempt, failure or kill leaves that state |
| `Publication.KillBetweenRenames` | src/paritygrid/quality/frozen_schema.py:967-970 | after a publication killed between its renames, any later actions whatever leave the directory missing and the old content in the backup |

## Left out

- SQLite, DuckDB, HTTP, subprocesses, pipes and the file system: a transaction, a rename, a state document replacement and an append with sync are single steps; writing and removing a tree are not.
- Validation of HTTP requests before they are counted (body, size, headers): the connectors send well-formed ones.
- SHA-256, payload digests and request fingerprints: values stand for their digests, and only preimages are shown injective.
- The content of reconciliation analysis, repair planning and audit records: `TargetSide` restates the classification of one key and `ScenarioStory` the repair of one key.
- Lease expiry and retry eligibility times: `RowVersions` and `Story` carry row versions and claims, not the instants beside them; with more than three work items the scripted finish times would reach the lease expiry.
- Retries of the applier for rate limits and transient errors: the scenario's script holds one connection loss, so only the ambiguous outcome occurs.
- Health probes, source reads and fixture writing at the start of the story: they change nothing durable; the read itself is in `ReadLoop`.
- Contention retries of the writer, and failures of its own threads: the crash worker has the database for itself.
- CrashWorker.EveryCaseRecovers: assumes that a hold outlasts the kill, which the configuration check at src/paritygrid/quality/crash_reopen_harness.py:66-67 arranges.
- CrashMarkers.ValidateLedger: the JSON parser is a parameter that reads back every written line; what else it accepts, and the decoding of bytes to text, are not modelled.
- CrashMarkers.WaitForMarker: the deadline is the end of the lines that arrive; how long each one takes is not modelled.
- ReadLoop.ReadAsyncSource: the retry policy is a number of retries; delays and jitter are not modelled.
- Aliases.LoopResolves: import statements enter as the map they produce, and a call through a name that some assignment binds is outside it.
- Aliases.OrderDoesNotMatter: gives a condition that suffices; which rebindings of an accessor are harmless is not decided.
- TypePrinter.RoundTripIff: JSON quoting of keys and literals and the indentation of the text are not modelled.
- Story.EveryManifestIsFinal: a manifest holds the target, attempts and faults it reports; the identities it takes over from the derived evidence are constants of the scenario.
- TypePrinter.MeaningPreserved: is exact for the strict reading; beside named properties the schema itself may accept more, as `TypePrinter.IndexNarrows` says.
- ScenarioCounts.CountsAreCoherent: the request counts of the two HTTP sources are not among the modelled counts; `ReadLoop.ReadAsyncSource` derives them.
- ScenarioStory.DerivedScenarioIsWellFormed: the order of the plan is that of the source keys; the canonical rendering of records is a parameter that tells differing records of a key apart.
- The canonical documents of failure scripts and scenario manifests, capability and performance reports, import-boundary policy tables, demo lifecycle, launcher, API and front end: they would only add easy members.
