# Verification of the replayable execution engine

This project models the part of the trading system that must behave the same whether it runs on,
stops, or is replayed from its journal, and proves what that part promises. It has these pieces.

- **State, ingress, drain, dispatch, resume** (`StateFacts`, `StateStore`, `Ingress`, `Dispatch`,
  `SnapshotQueue`, `SupervisorModel`, `Supervisor`). Journal inputs arrive out of order, are drained in
  journal order into the store and a committed log, dirty the projections, and can be replayed. The
  classes follow the source's `&mut self` methods; each of their methods is proved to be a function of
  the old state, and the laws are lemmas about those functions over whole runs: what a drain consumes
  (`DrainProperties`), when the log is a faithful record of the facts, when deliveries repeated under one
  sequence spoil it and when later ones repair it (`FactFolds`, `Redelivery`, `Healing`), what a resume rebuilds
  (`FactAgreement`, `ResumeProperties`), which records are retained (`Retention`), and safety over every run
  (`SupervisorRuns`, `FaithfulRuns`, `LiveSubmissions`, `SeededSubmissions`).
- **Identity** (`PlanScope`, `StrategyDigest`, `Decimals`, `PlanIdentity`, `PlanUniqueness`, `Attempts`,
  `HookBackend`). Printers of plan ids, attempt ids and digests, the parser that undoes one of them in another
  crate, the canonical member order, which ids name one plan, attempt numbers and the sinks, and the live
  backend built on them.
- **Indexes and folds** (`CtfOperations`, `Identifiers`, `Exposure`). A two-way index under a status
  machine, a partial join of metadata, and a grouped sum that conserves inventory.
- **Durable shadow batches** (`ShadowBatches`, `ShadowPlanner`). The write path, the restore check, and the
  planner whose batches must satisfy both.
- **Journal writer** (`Journal`). Tickets and pushes as two steps that interleave freely.
- **Discovery to startup** (`Discovery`, `RouteArtifacts`, `Notices`). Metadata rows become targets,
  targets become route artifacts, and a restarted process turns those back into targets.
- **Recovery locks and order retries** (`RecoveryLocks`, `OrderRetries`).

`Text` models Rust strings as byte sequences (one char is one byte), `StableSort` the standard library's
stable sort, `OrderedKeys` iteration in `BTreeMap` order, `FilterMaps` the `filter_map` adapter, `Options`
values that may be absent or in error, and `ExecutionRows` the rows execution leaves behind.

SHA-256 and JSON printing are parameters of the lemmas that need them. Where a lemma needs the hash to tell
plan ids apart it says `Separates`, of no plan ids but the ones it names. Live backends, the shadow planner's
answer to the supervisor, durable writes and the clock are the `World` parameter of a tick.

## What is not as one might expect

These are results about the code, each proved.

- A resume rebuilds the live facts if and only if the log is empty or something in it was applied. If every
  logged input only asked for reconciling, the applied anchor of the bootstrap is lost, and no snapshot is
  published after the resume (`ResumeRebuildsFacts`, `UnappliedResumePublishesNothing`).
- A drain applies every delivery and the log keeps each input once. With several deliveries of one fact under
  one new sequence the live run and a replay of its log agree if and only if the fact was applied before, or
  the last request to reconcile before it is settled leaves the same item as the last among first deliveries,
  or what settles it takes that very item away (`RedeliveryReplaysIff`, `GroupReplaysIff`). Two different
  payloads do no harm; the first of them once more does (`ThirdDeliveryHarms`). A batch leaves the log faithful
  after each of its sequences exactly when each is harmless (`BatchReplaysIff`), and faithful at its end exactly
  when every item that a sequence leaves different is set or cleared by a later one (`EndsFaithfulIff`,
  `DrainKeepsLogged`); runs of drains that end so keep it so (`PlayKeepsSound`).
- A resume that is not told the last sequence of a log that has one forgets the facts and keeps the log; one
  whose seed counts no pending items drops those it rebuilt and keeps the log. In these cases, and in no other,
  the log is then no record of the facts (`ResumeIsFaithfulIff`).
- From a fresh start a live refresh commits the submit fact of one record and keeps one record, however many
  families were executed: the loop stops because that fact leaves a reconcile item pending. The kept record is
  the first one, the committed one the first that carries a reference (`OneSubmissionIsCommitted`,
  `OneRecordIsKept`). Records of the hook-backed backend always carry one, so there the two are the same
  (`KeptIsCommitted`).
- In any run an unseeded supervisor submits in at most one successful tick (`LiveFamiliesSubmittedOnce`). A tick
  that submits, the first of all or a later one, and commits nothing always ends in an error, and then, and only
  then, the next tick submits again (`SubmissionsRepeatIff`, `NothingCommittedIff`).
- When the hook refuses one of the families of a live tick, those before it have been executed and nothing is
  committed, so the next tick executes them again; when it refuses none, no later tick executes any
  (`HookBackedSubmitsAgainIff`, `HookBackedSubmitsOnce`).
- Seeded or not, between two resumes no tick submits under the snapshot of an earlier successful one that did
  (`SnapshotsAreSubmittedOnce`). Across a resume that was refused a seeded supervisor can: its version is then
  counted from the log alone, and its live records are gone (`RefusedResumeSubmitsIff`, `SnapshotSubmittedTwice`).
- Planning equal targets again is refused exactly when members of one condition and token have changed places:
  the attempts are the same and the artifacts differ (`ReplanningAcceptedIff`).
- A snapshot queue loses a full-set notice exactly when the newest neg-risk notice has its version and is
  another notice (`Coalesced`, `SameVersionLosesFullset`).
- Among family plans whose ids hold no ':' a plan id names one plan, whatever other bytes they hold
  (`ColonFreePlanIdsAreUnique`). Among all plans an id is its plan's own exactly for plans that are not family
  submissions, for families without members, and for families of one member in which no id holds a ':'; several
  members always print like one whose token id swallows the rest (`PlanIdIsUniqueIff`).
- The event id that discovery announces for a family is the same for every order of the rows if and only if the
  rows with its least condition and token share one snapshot hash (`EventIdIgnoresRowOrderIff`); the rendered
  targets never depend on the order (`BatchIgnoresRowOrder`).
- An operation that failed before it had both a relayer id and a nonce can never leave Failed; every other
  operation can still be confirmed (`HopelessForever`, `OthersCanConfirm`).

## Model

| member | source | states |
|---|---|---|
| Dispatch.DispatchLoop.RecordApply | crates/app-live/src/dispatch.rs:26-31 | Appends a dirty record; nothing else changes. |
| Dispatch.DispatchLoop.ObserveSnapshot | crates/app-live/src/dispatch.rs:33-42 | Clears, up to the snapshot's version, the domains of exactly the projections it made ready, and remembers it for them. |
| Dispatch.DispatchLoop.Flush | crates/app-live/src/dispatch.rs:44-88 | Replaces the log by its coalesced form and returns the summary of it. |
| Dispatch.DispatchLoop.PendingBacklogCount | crates/app-live/src/dispatch.rs:106-108 | Counts what a flush would report. |
| Dispatch.ClearedLatest | crates/app-live/src/dispatch.rs:134-148 | Clearing one projection removes its newest version if that is not above the bound, and never moves the other projection's. |
| Dispatch.LogSimulatesRegisters | crates/app-live/src/dispatch.rs:26-194 | Over every interleaving of record, observe and flush the log and a machine with two version registers give the same summaries and backlog counts. |
| Dispatch.FlushesAreUnobservable | crates/app-live/src/dispatch.rs:44-88 | Runs that differ only in where they flush give the same later summaries and counts. |
| Dispatch.RegistersHoldLatestUncleared | crates/app-live/src/dispatch.rs:134-194 | In terms of the history alone, a register holds the newest recorded version that no later ready snapshot cleared. |
| Dispatch.FlushReportsLatestUncleared | crates/app-live/src/dispatch.rs:154-194 | A flush reports exactly the newest uncleared versions of the two projections, ascending and without repeats. |
| SnapshotQueue.SnapshotDispatchQueue.Latest | crates/app-live/src/queues.rs:90-99 | The last of the newest notices that touch given domains. |
| SnapshotQueue.SnapshotDispatchQueue.Coalesced | crates/app-live/src/queues.rs:89-114 | At most two notices, ascending: the newest of each projection, the full-set one missing exactly when another neg-risk notice has its version. |
| SnapshotQueue.DistinctVersionsKeepBoth | crates/app-live/src/queues.rs:108-111 | When a version names one notice, no newest notice is lost. |
| SnapshotQueue.SameVersionLosesFullset | crates/app-live/src/queues.rs:108-111 | Two notices of one version: only the neg-risk one comes out. |
| StateStores.StateStore.Apply | crates/state/src/apply.rs:60-183 | The store after an apply, and its answer, are the facts' step on the old store; on an error nothing changed. |
| StateStores.StateStore.ConsumeJournalSeq | crates/state/src/store.rs:405-429 | Accepts, recognises or refuses a sequence by what was consumed before, and keeps the maximum. |
| StateStores.StateStore.RecordAppliedFact | crates/state/src/store.rs:431-438 | Advances the version by one and anchors the fact. |
| StateStores.StateStore.MarkReconciledAfterRestore | crates/state/src/store.rs:129-139 | Sets both anchors to the given baseline if nothing was applied yet, clears the pending items, and ends reconciling. |
| StateStores.AcceptanceIff | crates/state/src/store.rs:405-429 | An input is accepted exactly when its sequence is bound to the same fact or is unbound and above the last consumed one. |
| StateStores.RepeatIsNoOp | crates/state/src/apply.rs:60-183 | Applying an accepted input again changes no fact: an applied one is now a duplicate of itself, any other is answered as before. |
| StateStores.AnchorsDoNotMatter | crates/state/src/store.rs:405-438 | Two stores that differ in their anchors answer an input alike and end up differing in nothing else. |
| StateStores.OnlyApplyingAdvances | crates/state/src/apply.rs:60-183 | The version moves, by one, exactly on an applied input. |
| Ingress.IngressQueue.Push | crates/app-live/src/queues.rs:20-25 | The entry joins the sorted queue after all entries of its sequence. |
| Ingress.IngressQueue.NextAfter | crates/app-live/src/queues.rs:27-32 | The first entry above the anchor, if any. |
| Ingress.IngressQueue.Remove | crates/app-live/src/queues.rs:34-37 | Removes the first equal entry and no other. |
| DrainProperties.PushKeepsOrder | crates/app-live/src/queues.rs:20-25 | Pushing keeps the queue sorted and adds exactly the entry. |
| DrainProperties.PushIsStable | crates/app-live/src/queues.rs:20-25 | Entries of one sequence stay in arrival order. |
| DrainProperties.CommitKeepsOrder | crates/app-live/src/supervisor.rs:854-861 | Recording a committed input keeps the log sorted and free of repeats. |
| DrainProperties.BatchIsEverythingAfter | crates/app-live/src/supervisor.rs:660-694 | What a drain takes is every entry above its anchor and nothing else. |
| DrainProperties.DrainConsumesBatch | crates/app-live/src/supervisor.rs:660-694 | A drain folds and commits that batch in order up to the first refusal, whose error it returns, and leaves the rest in place with the refused entry first. |
| DrainProperties.DrainConservesInputs | crates/app-live/src/supervisor.rs:660-694 | However it ends, consumed and remaining entries together are the queue it started with. |
| DrainProperties.DrainKeepsOrder | crates/app-live/src/supervisor.rs:660-694 | Queue and log stay sorted, the log without repeats. |
| Runtime.AppRuntime.ApplyInput | crates/app-live/src/runtime.rs:228-255 | The runtime's apply is the store's. |
| Runtime.AppRuntime.PublishSnapshot | crates/app-live/src/runtime.rs:257-278 | Publishes the store's version exactly when it has an applied anchor. |
| Runtime.AppRuntime.ReplayCommittedHistory | crates/app-live/src/runtime.rs:288-315 | Rebuilds the facts of the history and settles the posture it ends in. |
| Supervisor.AppSupervisor.SeedUnappliedJournalEntry | crates/app-live/src/supervisor.rs:506-510 | Puts the input in the queue under the given sequence and moves nothing else. |
| Supervisor.AppSupervisor.RecordCommittedInput | crates/app-live/src/supervisor.rs:854-861 | The log becomes the old log with the input placed by sequence, unless it was there. |
| Retention.LiveRecordsRetained | crates/app-live/src/supervisor.rs:1036-1054 | The one way to keep, as often and in the order they were there, exactly the records of the published snapshot, or none if there is none or the evidence speaks of another; a second time changes nothing. |
| Retention.ShadowRecordsRetained | crates/app-live/src/supervisor.rs:1056-1072 | The same for shadow attempts, and for exactly the artifacts of those kept. |
| Supervisor.AppSupervisor.PublishCurrentSnapshot | crates/app-live/src/supervisor.rs:782-802 | The whole core after publishing is the model's Publish of the old one. |
| Supervisor.AppSupervisor.DrainFrom | crates/app-live/src/supervisor.rs:660-694 | The loop computes the drain from the anchor captured at its start. |
| Supervisor.AppSupervisor.DrainInputTasks | crates/app-live/src/supervisor.rs:660-694 | Result, core, log and queue after a drain are the model's. |
| Supervisor.AppSupervisor.EligibleLiveRecords | crates/app-live/src/negrisk_live.rs:90-146 | Asks the backend for each ready and approved family in key order, up to the first error. |
| Supervisor.AppSupervisor.ApplyLiveSubmitFacts | crates/app-live/src/supervisor.rs:985-1034 | Result and whole state after the submit loop, with its early stop and its error. |
| Supervisor.AppSupervisor.RefreshLiveExecutionRecords | crates/app-live/src/supervisor.rs:887-983 | Result, state and families submitted of one refresh. |
| SupervisorRuns.SynthesisAllowedIff | crates/app-live/src/supervisor.rs:863-885 | In any run of an unseeded supervisor synthesis is allowed exactly while nothing is committed and the facts are those of a clean bootstrap. |
| SupervisorRuns.SynthesisEnds | crates/app-live/src/supervisor.rs:863-885 | Once something is committed, or with seeded evidence, it is never allowed again. |
| Supervisor.AppSupervisor.RestoreSeededStartupState | crates/app-live/src/supervisor.rs:1293-1348 | Result and core after restoring a seed. |
| Supervisor.AppSupervisor.RunOnce | crates/app-live/src/supervisor.rs:273-295 | Result, state and families submitted of a whole tick. |
| Supervisor.AppSupervisor.ResumeOnce | crates/app-live/src/supervisor.rs:516-658 | Result and whole state after a resume. |
| ResumeProperties.DrainSucceedsIff | crates/app-live/src/supervisor.rs:660-694 | A drain succeeds exactly when no two entries above its anchor bind one sequence to two facts. |
| Redelivery.GroupReplaysIff | crates/app-live/src/supervisor.rs:854-861 | Deliveries of one fact under one new sequence leave the log a faithful record exactly when they are harmless: repeats do not change the last open request. |
| Redelivery.BatchReplaysIff | crates/app-live/src/supervisor.rs:660-694 | Every sequence of a batch leaves the log faithful exactly when each is harmless after what earlier ones settled. |
| Redelivery.ThirdDeliveryHarms | crates/app-live/src/supervisor.rs:854-861 | Two requests under one sequence are harmless; the first once more is not, unless the fact was applied or both leave the same item. |
| Redelivery.OneInputIsHarmless | crates/app-live/src/supervisor.rs:854-861 | When a sequence names one input, every batch is harmless. |
| ResumeProperties.DrainKeepsLogged | crates/app-live/src/supervisor.rs:660-694 | The sequences a drain consumes, whether it succeeds or not, all leave the log faithful exactly when they are harmless; the drain as a whole does exactly when later sequences set or clear every item that earlier ones left different. |
| Healing.EndsFaithfulIff | crates/app-live/src/supervisor.rs:660-694 | The same for any batch: no reference stays stale. |
| ResumeProperties.ReplayIsFold | crates/app-live/src/runtime.rs:288-315 | A replay succeeds when the fold of the history does, with the same facts. |
| ResumeProperties.BaselineDoesNotMatter | crates/app-live/src/runtime.rs:288-315 | Folding a log from a new store and from a bootstrapped one gives the same facts up to the baseline. |
| ResumeProperties.ResumeRebuildsFacts | crates/app-live/src/supervisor.rs:545-600 | A resume rebuilds exactly the live facts if and only if the log is empty or something was applied; otherwise only the applied anchor is missing. |
| ResumeProperties.UnappliedResumePublishesNothing | crates/app-live/src/supervisor.rs:782-802 | In that other case no snapshot is published. |
| ResumeProperties.ResumeEqualsNeverStopping | crates/app-live/src/supervisor.rs:516-658 | Resuming and then draining ends with the result, log, queue and facts of never having stopped, up to the applied anchor of an unapplied log and the pending items the seed dropped. |
| ResumeProperties.ResumeSucceedsIff | crates/app-live/src/supervisor.rs:516-658 | Exactly when a resume from a faithful log succeeds, by the seed's sequence, version, pending count, records and evidence, and the batch. |
| ResumeProperties.PlainResumeSucceedsIff | crates/app-live/src/supervisor.rs:516-658 | Without live or smoke mode only the seed's numbers and the batch decide. |
| ResumeProperties.RedeliveryReplaysIff | crates/app-live/src/supervisor.rs:854-861 | Live and replayed pending items agree after deliveries under one sequence exactly when these are harmless. |
| SupervisorRuns.SmokeNeverGoesLive | crates/app-live/src/supervisor.rs:887-983 | No event of a smoke supervisor without seeded live records submits to the live backend or leaves a live record. |
| SupervisorRuns.LiveFamiliesSubmittedOnce | crates/app-live/src/supervisor.rs:863-885 | In any run of an unseeded supervisor, resumes included, no tick submits after a successful one that did. |
| LiveSubmissions.RunTickSubmitsIff | crates/app-live/src/supervisor.rs:863-983 | At any moment of any unseeded run a tick goes live exactly when the configuration is live, not smoke, and has a ready approved target, nothing is committed, and the bootstrap is done or clean. |
| LiveSubmissions.FreshTickSubmitsIff | crates/app-live/src/supervisor.rs:887-983 | The same for a state in which nothing has happened. |
| SeededSubmissions.SeededTickSubmitsIff | crates/app-live/src/supervisor.rs:863-983 | Exactly when a seeded supervisor's tick goes live: its startup succeeds, the configuration asks for it, nothing that rules synthesis out was seeded or is at hand, and there is a snapshot. |
| SeededSubmissions.SnapshotsAreSubmittedOnce | crates/app-live/src/supervisor.rs:273-295 | Between two resumes a tick that submits after a successful one that did does so under a higher version and another snapshot id. |
| SeededSubmissions.RefusedResumeSubmitsIff | crates/app-live/src/supervisor.rs:537-603 | Exactly when the tick after a resume that was refused for its last sequence goes live; its version is the number of inputs the log applies. |
| SeededSubmissions.SnapshotSubmittedTwice | crates/app-live/src/supervisor.rs:516-603 | A run in which a successful tick and the tick after a refused resume submit under one snapshot. |
| SupervisorRuns.OneSubmissionIsCommitted | crates/app-live/src/supervisor.rs:985-1034 | From a fresh start one submission is committed: that of the first record with a reference. |
| SupervisorRuns.OneRecordIsKept | crates/app-live/src/supervisor.rs:964-983 | The refresh of a submitting tick keeps the first record and commits the first referenced one, and fails exactly when a durable write is asked for and cannot be made. |
| LiveSubmissions.NothingCommittedIff | crates/app-live/src/supervisor.rs:887-1034 | Exactly when a tick that goes live, at any moment of any unseeded run, commits nothing; then it ends in an error. |
| LiveSubmissions.SubmissionsRepeatIff | crates/app-live/src/supervisor.rs:863-885 | After such a tick the next one submits again exactly when it committed nothing. |
| HookBackend.LiveFamilySucceedsIff | crates/app-live/src/negrisk_live.rs:150-200 | A family is executed exactly when the hook agrees; its record is of the first attempt of its plan and carries a pending reference. |
| HookBackend.KeptIsCommitted | crates/app-live/src/negrisk_live.rs:150-200 | With the hook-backed backend the one record a refresh keeps is the one whose submission it committed, whatever the number of families. |
| HookBackend.HookBackedSubmitsAgainIff | crates/app-live/src/negrisk_live.rs:90-200 | With it a tick that goes live executes its families up to the first one the hook refuses, and the next tick submits again exactly when it refuses one; then nothing is committed. |
| HookBackend.HookBackedSubmitsOnce | crates/app-live/src/negrisk_live.rs:150-200 | With it a tick whose families the hook all accepts ends submissions for good, even if the tick fails later. |
| FaithfulRuns.PlayKeepsSound | crates/app-live/src/supervisor.rs:273-295 | Over any run, seeded or not, of arrivals, ticks and resumes whose drains repair what they spoil and whose resumes fit, queue and log stay faithful. |
| FaithfulRuns.OneInputRunIsHarmless | crates/app-live/src/supervisor.rs:273-295 | A run in which a sequence names one input drains harmlessly whatever its ticks do. |
| FaithfulRuns.ResumeIsFaithfulIff | crates/app-live/src/supervisor.rs:516-600 | From a faithful log a resume comes to drain, or gives up, with facts of which the log is a record exactly when it is told the last sequence of a log that has one and counts away no item the log rebuilds. |
| FaithfulRuns.AnyRunCanBeRebuilt | crates/app-live/src/supervisor.rs:516-658 | At any moment of such an unseeded run the log replays, and rebuilds the facts exactly unless all it holds still waits to be reconciled after a bootstrap. |
| FaithfulRuns.SeededRunCanBeRebuilt | crates/app-live/src/supervisor.rs:516-658 | In any such run, seeded or not, what the log rebuilds is what the facts say, up to the version started from, the anchors and the seed's open items. |
| StrategyDigest.DecodeInverts | crates/domain/src/strategy_control.rs:63-78 | A digest's text can be read back to its four semantic components, whatever bytes they hold. |
| StrategyDigest.SameDigestIffSameMeaning | crates/domain/src/strategy_control.rs:51-78 | Two artifacts have one digest text exactly when route, scope, policy version and payload agree; the six provenance fields play no part. |
| PlanScope.StripsExactlyFrames | crates/recovery/src/coordinator.rs:34-46 | The parser strips a request frame when there is one and otherwise returns its input; always a suffix of it. |
| PlanScope.ScopeInvertsBinding | crates/recovery/src/coordinator.rs:34-46 | For every request id and plan id the recovery crate's parser undoes the execution crate's printer. |
| PlanScope.BindingIsInjective | crates/execution/src/attempt.rs:24-31 | The bound plan id determines request and plan. |
| PlanScope.RecoveryScopeIsPerPlan | crates/recovery/src/coordinator.rs:21-32 | Ambiguous failures are recovered under one scope exactly when they are of one plan. |
| Decimals.NormalFormIsUnique | crates/execution/src/plans.rs:63-90 | Equal values have one normalised form. |
| Decimals.ParseInvertsShow | crates/execution/src/plans.rs:80-90 | Every printed decimal can be read back. |
| Decimals.PrintedAlikeIffEqual | crates/execution/src/plans.rs:63-90 | Two decimals print alike after normalising exactly when they are equal. |
| PlanIdentity.SameMembersIffSameFields | crates/app-live/src/config.rs:447-475 | Canonical member lists are equal exactly when the members are, up to order and the spelling of decimals. |
| PlanIdentity.SamePlansShareIdentity | crates/execution/src/plans.rs:51-96 | Permuting members or rescaling decimals changes neither plan id, bound id, attempt id nor the signed list. |
| PlanIdentity.SignedListSpellsPlanId | crates/execution/src/signing.rs:68-120 | The signed list holds exactly the plan's members, and its order is the order printed in the plan id. |
| PlanIdentity.SignedAmounts | crates/execution/src/signing.rs:92-117 | The signed amounts are the quantity and the exact price times quantity, normalised. |
| PlanUniqueness.ColonFreePlanIdsAreUnique | crates/execution/src/plans.rs:51-96 | Among plans whose ids hold no ':' two share an id exactly when they are the same plan. |
| PlanUniqueness.PlanIdIsUniqueIff | crates/execution/src/plans.rs:51-96 | Exactly which plans share their id with no other plan at all. |
| PlanIdentity.ScopeOfPlan | crates/recovery/src/coordinator.rs:34-46 | A bound id leads back to the plan id, and no plan id is taken for a bound one. |
| PlanIdentity.PlanningIsExact | crates/execution/src/negrisk.rs:33-71 | A submission is planned exactly on route and scope agreement; it holds the target's members by condition and token. |
| PlanIdentity.TargetOrderDoesNotMatter | crates/execution/src/negrisk.rs:33-71 | Targets with the same members plan and sign the same submission. |
| Attempts.AttemptFactory.NextForPlan | crates/execution/src/attempt.rs:42-71 | Counts the plan's attempts, wrapping like a release build, and names the attempt by plan and number. |
| Attempts.ShadowVenueSink.Execute | crates/execution/src/sink.rs:201-221 | Accepts exactly shadow attempts and logs exactly those. |
| Attempts.ExecutionOrchestrator.ExecuteWithAttempt | crates/execution/src/orchestrator.rs:121-166 | Guards, numbering and sink in one step, for either sink, with attempt, context and receipt handed back. |
| Attempts.AdaptersOnlySeeLiveRisk | crates/execution/src/sink.rs:135-183 | Outside Live and RecoveryOnly, and for plans that add no risk, no adapter can influence the result. |
| Attempts.HookReceiptsCarryReferences | crates/execution/src/sink.rs:237-257 | A hook-backed submission succeeds exactly when the hook agrees, and its receipt carries a pending reference. |
| Attempts.RunCounts | crates/execution/src/orchestrator.rs:121-166 | The counters after a run do not depend on the sink or its answers. |
| Attempts.NumbersCountAdmissions | crates/execution/src/attempt.rs:42-71 | The k-th admitted attempt of a plan gets the seed plus k within u32; a mode violation takes no number and changes nothing. |
| Attempts.RepeatsAreFarApart | crates/execution/src/attempt.rs:42-81 | A plan id and number repeat exactly after a multiple of 2^32 admissions of that plan. |
| Attempts.AttemptIdsAreDistinct | crates/execution/src/attempt.rs:73-81 | Short of wrapping, no two attempts of a run share an id across interleaved plans, if the hash tells their two plan ids apart. |
| Attempts.ShadowLogIsSuccesses | crates/execution/src/sink.rs:201-221 | The shadow log is the successful executions in order. |
| CtfOperations.CtfTracker.Record | crates/execution/src/ctf.rs:102-118 | Answer and operations are those of a plain list searched from end to end. |
| CtfOperations.CtfTracker.AttachRelayerMetadata | crates/execution/src/ctf.rs:120-174 | The same, with every refusal in the source's order. |
| CtfOperations.CtfTracker.UpdateStatus | crates/execution/src/ctf.rs:176-209 | The same for status changes. |
| CtfOperations.CtfTracker.EnsureRelayerIdAvailable | crates/execution/src/ctf.rs:252-271 | The index answers what a full search would. |
| CtfOperations.CtfTracker.OperationById | crates/execution/src/ctf.rs:211-213 | The operation recorded under the id. |
| CtfOperations.CtfTracker.OperationByRelayerId | crates/execution/src/ctf.rs:215-222 | Finds the one operation that carries the id exactly when there is one. |
| CtfOperations.RunsKeepSound | crates/execution/src/ctf.rs:102-271 | In every run relayer ids stay unshared and bound, nonces bound, metadata frozen after Planned, nothing returns to Planned, and Submitted and Confirmed carry what they need. |
| CtfOperations.HopelessForever | crates/execution/src/ctf.rs:176-250 | An operation that failed without complete metadata stays Failed whatever is called. |
| CtfOperations.OthersCanConfirm | crates/execution/src/ctf.rs:120-250 | Every other operation can be brought to Confirmed. |
| Identifiers.MergeIsLeastUpperBound | crates/domain/src/identifiers.rs:302-325 | Merging metadata is the least upper bound where there is one. |
| Identifiers.MergeIsCommutativeAssociativeIdempotent | crates/domain/src/identifiers.rs:302-325 | The laws of a partial join. |
| Identifiers.IdentifierMap.InsertTokenMetadata | crates/domain/src/identifiers.rs:241-264 | Refuses exactly different metadata, with the condition conflict reported first. |
| Identifiers.IdentifierMap.MergeConditionMetadata | crates/domain/src/identifiers.rs:266-299 | Stores the merge, or refuses and loses nothing; the merge after the checks cannot fail. |
| Identifiers.FromRecords | crates/domain/src/identifiers.rs:180-206 | Succeeds exactly on pairwise consistent records, holds exactly what they say, and else reports the first that disagrees. |
| Identifiers.OrderDoesNotMatter | crates/domain/src/identifiers.rs:180-206 | Any order or repetition of the records gives the same maps. |
| Identifiers.LookupsReturnRecords | crates/domain/src/identifiers.rs:208-239 | Every field of every record comes back from the lookups. |
| Exposure.FromInventory | crates/domain/src/negrisk.rs:81-164 | Succeeds exactly when the rows are one neg-risk family; in every bucket rollup, members and rows have one sum; else the first obstacle is reported. |
| Exposure.MembersConserveInventory | crates/domain/src/negrisk.rs:119-160 | The members' sums in a bucket add up to the rows' sum. |
| Exposure.RowOrderDoesNotMatter | crates/domain/src/negrisk.rs:81-164 | The vector does not depend on row order or map iteration order. |
| Exposure.SuccessIgnoresOrder | crates/domain/src/negrisk.rs:93-117 | Neither does success. |
| Exposure.Rollup | crates/domain/src/negrisk.rs:146-158 | The rollup is the sum over members in every bucket, for any iteration order. |
| Exposure.SortedValues | crates/domain/src/negrisk.rs:138-139 | One member per distinct token, strictly ordered. |
| ShadowBatches.ShadowStore.Acquire | crates/persistence/src/repos.rs:4057-4085 | A guard is refused exactly while its key is active. |
| ShadowBatches.ShadowStore.AppendBatch | crates/persistence/src/repos.rs:4003-4055 | A batch is committed whole or not at all, is refused while one with its key is active, and gives its guard back. |
| ShadowBatches.BatchEstablishes | crates/persistence/src/repos.rs:4485-4621 | A committed batch only added rows, and each of its rows is there. |
| ShadowBatches.RerunChangesNothing | crates/persistence/src/repos.rs:4485-4636 | Writing a committed batch again, under any run sessions, succeeds and changes no row. |
| ShadowBatches.RerunAcceptedIff | crates/persistence/src/repos.rs:4485-4636 | Writing it again with other artifacts under the same keys is accepted exactly when no payload differs. |
| ShadowBatches.PersistShadowRecords | crates/app-live/src/runtime.rs:964-1000 | Refuses repeated attempt ids before writing anything, else writes one batch under the session unless one with its key is active; guards of other batches stay. |
| ShadowBatches.PersistAgainChangesNothing | crates/app-live/src/runtime.rs:964-1000 | The same through the persistence boundary. |
| ShadowBatches.BatchAcceptedIff | crates/persistence/src/repos.rs:4485-4621 | Exactly when a batch is accepted. |
| ShadowBatches.RestorableAfterIff | crates/app-live/src/runtime.rs:921-954 | An accepted batch leaves restorable tables exactly when it covers every shadow attempt that has no artifact. |
| ShadowBatches.DurableShadowExecutionState | crates/app-live/src/runtime.rs:921-954 | Accepts exactly attempts and artifacts that cover each other, unchanged. |
| ShadowBatches.RestoreAcceptsIff | crates/app-live/src/runtime.rs:598-609 | What the restore queries list is accepted exactly when the tables are restorable. |
| ShadowPlanner.ShadowFamilySucceeds | crates/app-live/src/negrisk_shadow.rs:132-185 | Planning and sink never refuse a shadow family, and its attempt is the first of its plan. |
| ShadowPlanner.EligibleShadowRecords | crates/app-live/src/negrisk_shadow.rs:58-130 | One record per chosen target in key order, refused exactly when two share an attempt id. |
| ShadowPlanner.SameAttemptIff | crates/app-live/src/negrisk_shadow.rs:132-185 | Two targets share an attempt id exactly when they are one family with one plan id, if the hash tells their two bound ids apart. |
| ShadowPlanner.OwnKeysNeverCollide | crates/app-live/src/negrisk_shadow.rs:113-126 | Targets under their own family ids never collide, if the hash tells the chosen ones' bound ids apart. |
| ShadowPlanner.PlannedBatchesPassDuplicateCheck | crates/app-live/src/runtime.rs:974-991 | The planner's batches never hit the duplicate check. |
| ShadowPlanner.RunsCanBeRestored | crates/app-live/src/runtime.rs:921-954 | After any run of planner batches, accepted or not, the restore check accepts the tables. |
| ShadowPlanner.ReplanningAcceptedIff | crates/app-live/src/negrisk_shadow.rs:132-226 | Equal targets, members reordered or decimals rewritten, are planned and written again exactly when every chosen family prints its members as before, if JSON tells different artifacts apart; then no row changes. |
| ShadowPlanner.ReplanningChangesNothing | crates/app-live/src/negrisk_shadow.rs:132-226 | The very same targets are always accepted again. |
| Journal.JournalWriter.TakeTicket | crates/journal/src/writer.rs:81-95 | The first half of an append is the ticket step. |
| Journal.JournalWriter.Push | crates/journal/src/writer.rs:97-105 | The second half is the push step, or the loss on a poisoned lock. |
| Journal.TicketsArePartitioned | crates/journal/src/writer.rs:81-105 | In every interleaving stored, in-flight and lost tickets are 1 to next-1, each once, and each entry carries its ticket's event. |
| Journal.ReplayRestoresOrder | crates/journal/src/replay.rs:5-12 | Replay is strictly increasing and loses nothing, whatever the push order. |
| Journal.QuietReplayIsHistory | crates/journal/src/replay.rs:5-12 | With nothing in flight or lost, replay is every event in ticket order. |
| Discovery.AuthoritativeDiscoveryBatch | crates/app-live/src/task_groups.rs:205-256 | One input per family in key order, numbered from 1, and one target per family under its own id. |
| Discovery.RenderIgnoresRowOrder | crates/app-live/src/task_groups.rs:224-250 | A family's target does not depend on row order. |
| Discovery.BatchIgnoresRowOrder | crates/app-live/src/task_groups.rs:205-256 | Nor do the rendered targets as a whole. |
| Discovery.EventIdIgnoresRowOrderIff | crates/app-live/src/task_groups.rs:224-234 | The announced event id is the same for every order of the rows exactly when the family's leading rows share one snapshot hash. |
| RouteArtifacts.RenderedScopesAreValid | crates/app-live/src/discovery.rs:245-254 | Startup accepts every rendered scope; a blank family never becomes a blank scope. |
| RouteArtifacts.ParseRouteArtifacts | crates/app-live/src/startup.rs:317-360 | Accepts exactly non-empty lists of allowed scopes, groups them by route in order, and else reports the first bad one. |
| RouteArtifacts.TargetsFromRouteArtifacts | crates/app-live/src/config.rs:378-407 | Rebuilds the carried targets by family exactly when no family occurs twice. |
| RouteArtifacts.RenderCarries | crates/app-live/src/discovery.rs:176-189 | Rendered artifacts carry exactly what was rendered for the candidates. |
| RouteArtifacts.RoundTripSucceedsIff | crates/app-live/src/config.rs:378-407 | The rebuild fails exactly when a family with a rendered target is a candidate twice. |
| RouteArtifacts.RoundTrip | crates/app-live/src/config.rs:378-407 | Rendering, parsing and rebuilding gives back exactly the rendered targets of the candidate families. |
| RouteArtifacts.CompatibilityRoundTrip | crates/app-live/src/startup.rs:362-399 | Targets survive the compatibility artifacts unchanged. |
| Notices.Summarize | crates/app-live/src/discovery.rs:564-599 | The counts add up, and the three dispositions are told apart by them. |
| Notices.ApplyRestriction | crates/app-live/src/discovery.rs:626-650 | A hard gate defers exactly the adoptable targets and drops the adoptable revision with them. |
| Notices.ProcessNotice | crates/app-live/src/discovery.rs:452-555 | An adoptable rendering comes out exactly for a candidate notice that is ready, ungated and passes for every record; the bridge's own refusal cannot happen. |
| Notices.StartUp | crates/app-live/src/startup.rs:317-360 | A restart refuses exactly bad scopes and repeated families, and otherwise rebuilds the carried targets. |
| Notices.DiscoverToStartup | crates/app-live/src/startup.rs:317-360 | From rows through a notice to a restart: an adopted notice whose records name every family once starts with exactly the discovered targets. |
| RecoveryLocks.ScopeBlocksIsPathPrefix | crates/recovery/src/locks.rs:99-107 | The textual test is the prefix order on colon-separated paths. |
| RecoveryLocks.BlockingIsPartialOrder | crates/recovery/src/locks.rs:40-107 | Blocking is reflexive, antisymmetric and transitive over all kinds and ids. |
| RecoveryLocks.SameKindBlockersAreNested | crates/recovery/src/locks.rs:40-107 | Of two locks of one kind that block one candidate, one blocks the other. |
| OrderRetries.ChainsAreSound | crates/execution/src/orders.rs:28-99 | Along any chain of retries used ids are distinct and end in the current one, the root is the first id from the first business retry on, and each business retry changes the nonce. |
| OrderRetries.BusinessRetryRefusedIff | crates/execution/src/orders.rs:65-99 | Exactly when a business retry is refused, and with which error: a used id comes before an unchanged nonce, and that before an identity signed for another nonce. |
| OrderRetries.HistoryOnlyGrows | crates/execution/src/orders.rs:53-99 | Later envelopes keep every earlier id in order. |

## Left out

- Attempts.AttemptFactory.NextForPlan: uses the wrapping arithmetic of a release build; a debug build panics instead.
- Supervisor.AppSupervisor.DrainInputTasks: the candidate artifacts a drain materialises for the read views are not part of the state.
- PlanScope.ScopeInvertsBinding: is stated for request ids whose length fits a usize, as every string's does.
- Identifiers.FromRecords: the sibling constructor `new`, which fills in tokens and routes only, is not modelled.
- ShadowBatches.ShadowStore.AppendBatch: the diagnostic text of a duplicate error and the foreign key to run sessions are not modelled.
- Widths of i64 and u64 sequences, versions and ids, and usize counters: unbounded here, so their overflow is not modelled.
- Decimals keep any number of digits: rust_decimal rounds products beyond 28 fractional digits or 96 bits.
- Exposure quantities are exact reals.
- Unicode white space: whether a text is blank is a parameter of discovery.
- JSON is taken to give back what it was given; payloads are compared as values before printing.
- Remote snapshots of `reconcile.rs` beyond whether they are clean: open orders, approvals, relayer transactions and their attention items.
- The read views, candidate publications and metadata of a published snapshot.
- Live artifacts, order requests and the state-source label of live records.
- `resume_once` builds a new runtime object; here the same object is reset.
- `coalesced_dirty_records` fills a map of at most two versions; here that is a case distinction.
- Timestamps, spans, metrics, error texts and the candidate's pricing and warning fields.
- FamilyHaltState and the other enum tables of the domain crate.
- Networking, venue SDKs, signing keys, configuration parsing and the command line.
- The remaining repositories of the persistence crate, which map rows one statement at a time.
