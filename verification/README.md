# Verification model of the evaluation engine

This project models, in Dafny, the state machines and checkers of the repository and proves what they keep over every
run, every input and every interruption. Code that changes rows, stacks, dictionaries or files step by step is a class or
a method with loops, proved against a specification function or predicate; the theorems are lemmas about those.

- **Evaluation scheduler** (`SchedulerModel`, `SchedulerInvariant`, `SchedulerPreservation`, `SchedulerReachable`,
  `SchedulerTheorems`, `SchedulerLimits`, `SchedulerLedger`, `SchedulerRuns`, `SchedulerExamples`, `SchedulerService`):
  work items, attempts, trials and runs as four coupled tables, each transaction one step, one invariant over every
  history, and what each accepted transaction writes. `Grant` counts time in nanoseconds.
- **Offline checkers** (`Records`, `SchedulerRecords`, `PairedReport`, `SchedulerReports`): the relation checks of
  imported results, the paired comparison of two arms, and the proof that scheduler output passes both.
- **Plugin host** (`PluginGraph`, `PluginSession`, `PluginCalls`, `PluginHost`): depth-first load order, registries, the
  disposer stack, and which scripts can be loaded together.
- **Durable campaign** (`Campaign`): write-ahead admission of slots, with a process that can die or raise between any
  two steps.
- **Bundles** (`ZipIndex`, `ZipExact`, `Bundle`, `BundleStaging`, `BundleRoundTrip`): the byte-level index scan
  (APPNOTE.TXT sections 4.3.12 and 4.3.16) and exactly which archives it accepts, the writer, the strict reader, and
  their round trip.
- **Streaming** (`StreamAssembly`, `StreamTheorems`, `StreamRecorder`, `StreamContent`): fragmented tool calls, retries,
  the recorder, and what is shown of the chunks that were sent.
- **Context fitting** (`ContextFit`), **strict JSON pre-scan** (`Prescan`; RFC 8259 section 7, RFC 7493 section 2.3),
  **lockfile closure** (`DependencyPaths`) and **candidate replay** (`Candidate`).

Some properties one might expect are false of the code. For each the model gives the exact condition and an input that
fails it:

- a cancel-requested item does not hold the worker (`GrantedExactlyWhen`, `ClaimedBesideAsked`);
- a confirmed reconciliation does not always settle the run (`ReconcileSettlesExactlyWhen`, `StrandedReached`);
- an accepted cancel may be forgotten (`CancelHonouredExactlyWhen`, `CancelForgottenByLateCrash`,
  `CancelForgottenAfterCrash`);
- a call may complete under a name that was never offered or an identifier other than the announced one
  (`CompletedName`, `RenamedAfterStart`; `CompletesAsAnnounced`, `ReidentifiedAfterStart`);
- swapping the arms of a comparison does not always mirror its interval (`MirrorExactlyWhen`, `NotMirrored`);
- a plugin call that raises may have registered something (`RaisesAfterRegistering`);
- not every enclosing directory is searched for a dependency (`EveryAncestorSearched`, `SkippedAncestor`);
- a written archive index may be refused (`WrittenIndexAccepted`, `RecurringOffset`).

Library behaviour enters as parameters: hashes, path rules, case folding, JSON decoding, token cost, random positions,
elapsed time and the points at which a process is interrupted are arbitrary functions or inputs. Where a proof needs
something of them it says so: hash injectivity in `Candidate`, `Coherent` in `BundleRoundTrip`.

## Model

| member | source | states |
|---|---|---|
| SchedulerService.EvaluationScheduler.QueueAttempt | benchmark/core/scheduler.py:24-33 | A new attempt gets the next number of its trial, a new queued work item, and becomes the selected attempt; the whole table state equals the transaction. |
| SchedulerService.EvaluationScheduler.Claim | benchmark/core/scheduler.py:43-73 | Guard order, budget grant, exhaustion path and every written field: the tables and the reply equal the claim transaction, and the invariant holds afterwards. |
| SchedulerService.EvaluationScheduler.CleanupBlocked | forge/engine/persistence.py:440-445 | True exactly when some attempt is not clean although its item is finished or owned by another epoch. |
| SchedulerService.EvaluationScheduler.Heartbeat | benchmark/core/scheduler.py:81-87 | Only the owner moves the heartbeat time; nothing else in any table changes. |
| SchedulerService.EvaluationScheduler.Finish | benchmark/core/scheduler.py:89-120 | Argument checks, downgrade of an unclean cancellation, ownership, grade checks, elapsed time and settlement: the tables and the reply equal the finish transaction. |
| SchedulerService.EvaluationScheduler.Cancel | benchmark/core/scheduler.py:128-139 | One pass over the rows: queued items end, running items are asked to stop with their version kept, then the run is settled. |
| SchedulerService.EvaluationScheduler.RunStates | benchmark/core/scheduler.py:142-146 | The set of item states of a run decides reconciling, open and empty. |
| SchedulerService.EvaluationScheduler.AnyBadSelection | benchmark/core/scheduler.py:151-153 | Some selected attempt of the run is blocked, in error, or graded grader_error. |
| SchedulerService.EvaluationScheduler.SettleRun | benchmark/core/scheduler.py:141-157 | Only the run row changes, to the settled state of its items; an open run keeps its state. |
| SchedulerService.EvaluationScheduler.Reconcile | benchmark/core/scheduler.py:159-176 | Only a clean observation of the owning epoch with no remaining process ends a reconciling item, as an error. |
| SchedulerReachable.ReachableInv | benchmark/core/scheduler.py:24-176 | Every state reachable by any interleaving of create, start, retry, claim, heartbeat, finish, cancel, reconcile, grading, turn moves and restarts satisfies the global invariant (linked rows, coupled states, exclusion, numbering, funding, run verdicts). |
| SchedulerReachable.StepKeepsInv | benchmark/core/scheduler.py:24-176 | Each single transaction keeps the invariant. |
| SchedulerPreservation.ClaimKeepsInv | benchmark/core/scheduler.py:43-73 | A claim, granted, refused or exhausted, keeps the invariant. |
| SchedulerPreservation.FinishKeepsInv | benchmark/core/scheduler.py:89-120 | A finish keeps the invariant, including the trial budget bound. |
| SchedulerPreservation.ReconcileKeepsInv | benchmark/core/scheduler.py:159-176 | A reconciliation keeps the invariant. |
| SchedulerPreservation.HeartbeatKeepsInv | benchmark/core/scheduler.py:81-87 | A heartbeat keeps the invariant. |
| SchedulerPreservation.CancelQueuedKeepsInv | benchmark/core/scheduler.py:122-126 | Ending a queued item as cancelled and clean, then settling its run, keeps the invariant. |
| SchedulerPreservation.SettleTellsTheTruth | benchmark/core/scheduler.py:141-157 | After settling, the run state is right for its items: terminal states only over finished items, indeterminate whenever something reconciles. |
| SchedulerReachable.CancelRunKeepsInv | forge/application/evaluations.py:120-127 | An accepted cancel of a run keeps the invariant. |
| SchedulerReachable.StartRunKeepsInv | forge/application/evaluations.py:105-118 | Starting a created run, which queues one attempt per trial, keeps the invariant. |
| SchedulerReachable.RetryKeepsInv | forge/application/evaluations.py:129-150 | A retry, guarded by a finished clean infrastructure failure, keeps the invariant. |
| SchedulerReachable.SelectedIsLast | benchmark/core/scheduler.py:24-33 | The selected attempt of a trial is the one with the largest number. |
| SchedulerReachable.RestartKeepsInv | forge/engine/persistence.py:114-119 | Opening the store in a new process sends all owned items to reconciliation and keeps the invariant. |
| SchedulerReachable.CreateRunKeepsInv | forge/application/evaluations.py:85-102 | Planning a run with its trials keeps the invariant. |
| SchedulerReachable.GradeKeepsInv | benchmark/adapters/harbor.py:232-239 | The executor's grade insertion, made only while it owns the item, keeps the invariant. |
| SchedulerTheorems.AtMostOneRunning | benchmark/core/scheduler.py:47-48 | In every reachable state at most one work item is running. |
| SchedulerTheorems.ClaimTakesTheWorker | benchmark/core/scheduler.py:43-73 | A claim is granted only when nothing runs or reconciles, and afterwards exactly its item runs. |
| SchedulerTheorems.CleanupBlockedMeansReconciling | forge/engine/persistence.py:440-445 | In reachable states the attempt half of cleanup_blocked only fires when an item is reconciling, so it never blocks more than the state test. |
| SchedulerTheorems.StatesAreCoupled | benchmark/core/scheduler.py:62-69 | Item state and attempt state determine each other in both directions; a cancelled attempt is always clean. |
| SchedulerTheorems.StepMovesForward | benchmark/core/scheduler.py:52-66 | No transaction moves an item back along queued, running, cancel_requested, reconciling, finished, or lowers its version. |
| SchedulerTheorems.TokenSurvivesStep | benchmark/core/scheduler.py:75-79 | A held (epoch, version) token survives every transaction except its own successful finish and a restart, which void it. |
| SchedulerTheorems.TokenLife | benchmark/core/scheduler.py:75-139 | Over any history a token is still owned exactly when no finish with it succeeded and no restart happened. |
| SchedulerTheorems.ExpiredForever | benchmark/core/scheduler.py:75-120 | A voided token never owns the item again and no later finish with it succeeds. |
| SchedulerTheorems.ClaimGrantsToken | benchmark/core/scheduler.py:64-73 | A granted claim hands out a token that owns the item. |
| SchedulerTheorems.ClaimedAtMostOnce | benchmark/core/scheduler.py:43-73 | Over any history an item is granted at most once, and never again once it has left the queue. |
| SchedulerTheorems.FinishedAtMostOnce | benchmark/core/scheduler.py:89-120 | Over any history at most one finish of an item succeeds. |
| SchedulerTheorems.FinishedGradeIsItsOwn | benchmark/core/scheduler.py:102-113 | A finish that names a grade succeeds only with a grade of the same attempt in a consistent terminal state, and makes it the attempt's. |
| SchedulerTheorems.DriverReleasesItem | benchmark/core/scheduler.py:228-232 | Whatever happened since the claim, the driver's last finish either finds the token spent or puts the item into reconciliation. |
| SchedulerTheorems.OvershootsDoNotAddUp | benchmark/core/scheduler.py:54-61 | The recorded time of a trial exceeds its wall budget by at most the largest single overshoot among its attempts. |
| SchedulerTheorems.GrantsAreFunded | benchmark/core/scheduler.py:54-61 | A grant is positive, within the attempt budget, and fits what the trial has left, using one of the two bounds fully. |
| SchedulerLedger.StepMovesItem | benchmark/core/scheduler.py:43-176 | Every step of the store moves each item exactly as the automaton of that one item does, on the event and its answer alone: claimed, kept alive, finished, asked to stop, reconciled, interrupted or left as it was, in every field of both its rows. |
| SchedulerLedger.FinishedExactlyWhen | benchmark/core/scheduler.py:89-104 | A finish is accepted exactly from the holder of the token, with terminal evidence and, if a grade is named, one of the same attempt whose state and result agree. |
| SchedulerLedger.HeartbeatExactlyWhen | benchmark/core/scheduler.py:75-82 | A heartbeat is accepted exactly from the holder of the token. |
| SchedulerLedger.ReconciledExactlyWhen | benchmark/core/scheduler.py:159-166 | A reconciliation is accepted exactly for a reconciling item at its version, on an observation that names its owner epoch and the item, is clean and counts no process. |
| SchedulerLedger.OnlyConfirmedLeaves | benchmark/core/scheduler.py:159-176 | An item leaves reconciliation in one way: to finished, by such a confirmed reconciliation. |
| SchedulerLedger.HeldUntilConfirmed | benchmark/core/scheduler.py:47-48 | Over any history a reconciling item holds the worker until its cleanup is confirmed. |
| SchedulerLedger.StepRecords | benchmark/core/scheduler.py:54-57 | A trial's recorded time grows in one way only: an accepted finish of one of its items adds the time since the recorded start. |
| SchedulerLedger.HistoryRecords | benchmark/core/scheduler.py:54-110 | Over any history a trial's recorded time grows by the sum of what its accepted finishes measured. |
| SchedulerLedger.FinishRecordsTheTime | benchmark/core/scheduler.py:68-110 | From a granted claim to the accepted finish of the item, whatever lies between, the attempt records the time from the one to the other and its trial exactly that much more. |
| SchedulerRuns.StartQueuesEveryTrial | forge/application/evaluations.py:105-118 | Starting a created run gives each of its trials one fresh attempt numbered 1 and changes nothing else but the run's state. |
| SchedulerRuns.RetriedExactlyWhen | forge/application/evaluations.py:129-150 | A retry is accepted exactly after a clean infrastructure failure of an authorized category within the number of attempts, in a run that is neither cancelled nor indeterminate, and adds one fresh attempt with the next number. |
| SchedulerRuns.CreatedExactlyWhen | forge/application/evaluations.py:85-102 | A plan is accepted exactly with distinct tasks, at least one task, repeat and attempt, and at most the quota of trials; the run starts out as created. |
| SchedulerRuns.GradedExactlyWhen | benchmark/adapters/harbor.py:232-239 | The executor's verdict becomes a grade of the attempt exactly while it owns the item: full reward passes, less fails, a reward outside 0..1 leaves no row. |
| SchedulerRuns.GrantSetsRunRunning | benchmark/core/scheduler.py:69 | A granted claim sets its own run running and changes no other run, trial or grade. |
| SchedulerRuns.CompletedExactlyWhen | benchmark/core/scheduler.py:150-153 | Of the runs that ended by themselves exactly those are completed whose trials selected no attempt that crashed, was blocked or could not be graded. |
| SchedulerTheorems.SettledRunIsFinished | benchmark/core/scheduler.py:141-157 | A settled run has only finished items; completed means no bad selection, failed means one; a reconciling item means indeterminate. |
| SchedulerTheorems.SettledUntilRetry | benchmark/core/scheduler.py:141-157 | Over any history a settled run and the finishedness of its items stay until one of its trials is retried. |
| SchedulerTheorems.StrandedUntilCancel | benchmark/core/scheduler.py:146-147 | A run left indeterminate with only queued or finished items stays so over any history, and none of its items is granted, until it is cancelled. |
| SchedulerTheorems.StrandedKeepsState | benchmark/core/scheduler.py:52-53 | No transaction but a cancel changes the state of a stranded run's items, and a claim of one is never granted. |
| SchedulerLimits.GrantedExactlyWhen | benchmark/core/scheduler.py:43-73 | A claim is granted exactly when nothing runs or reconciles and the item is current, queued in a live run and funded; cleanup_blocked adds nothing. |
| SchedulerLimits.CancelRequestedDoesNotHoldTheWorker | benchmark/core/scheduler.py:47-48 | The guard does not name cancel_requested: beside a cancelled item that has not stopped another is granted exactly when it would be anyway, and then both are under way. |
| SchedulerLimits.ReconcileSettlesExactlyWhen | benchmark/core/scheduler.py:141-157 | A confirmed reconciliation settles the run exactly when every other item of it has finished. |
| SchedulerLimits.CancelEndsStranding | forge/application/evaluations.py:120-127 | Cancelling a stranded run finishes its queued items and settles it as cancelled. |
| SchedulerLimits.CancelHonouredExactlyWhen | benchmark/core/scheduler.py:128-157 | After an accepted cancel, over any history without another cancel of the run, it settles as cancelled exactly when no item of it passes through reconciling before. |
| SchedulerExamples.ClaimedBesideAsked | benchmark/core/scheduler.py:47-48 | From the empty store, six steps reach a cancel-requested item beside which another run's item is granted. |
| SchedulerExamples.StrandedReached | benchmark/core/scheduler.py:146-147 | From the empty store, five steps strand a run: one item reconciled, the other queued, the run indeterminate. |
| SchedulerExamples.CancelForgottenByLateCrash | benchmark/core/scheduler.py:144-154 | From the empty store: cancelled while nothing reconciles, the stopping item then ends uncleanly, and after reconciliation the run settles as failed. |
| SchedulerExamples.CancelForgottenAfterCrash | benchmark/core/scheduler.py:144-154 | From the empty store: cancelled while its item reconciles, the run settles as failed. |
| SchedulerRecords.PlannedTrialsCover | forge/application/evaluations.py:94-98 | The planned trials of a run hold every task and repeat of its plan once and nothing else. |
| SchedulerRecords.ReachableExportable | forge/application/evaluations.py:94-98 | In every reachable store each run's trials are exactly its planned cells and every grade row carries the verdict its reward means. |
| SchedulerRecords.ReachableRecordsAccepted | benchmark/core/results.py:86-134 | The rows of every reachable scheduler store pass the offline relation checks: planned denominators, numbers exactly 1..n, the n-th selected, grade rows and grade ownership. |
| Records.CheckRelations | benchmark/core/results.py:86-134 | The checker accepts exactly when identities are distinct, every run's trials are its planned denominator, attempts and grades belong where they claim, numbers have no gap, the selection is the last attempt, and verdicts are their rewards'. |
| Records.AcceptedRowsMean | benchmark/core/results.py:86-134 | In accepted records a graded row passes exactly with the full reward, attempts stay within their run's bound, and an authoritative grade is one of the attempt's own. |
| Records.CheckPlan | benchmark/core/results.py:95-99 | One run passes exactly when its trials are within the quota and hold every planned cell once. |
| Records.CheckTrials | benchmark/core/results.py:87-94 | Accepted exactly when every trial is a planned cell of a recorded run. |
| Records.CheckGradeRows | benchmark/core/results.py:120-129 | Accepted exactly when every grade names a known attempt and carries the verdict of its reward, or neither. |
| Records.CheckHistories | benchmark/core/results.py:115-119 | Accepted exactly when every trial has numbers 1..n and selects number n, or has no attempt and selects none. |
| Records.GroupAttempts | benchmark/core/results.py:101-114 | Groups attempts by trial; a refusal means a misplaced attempt or a repeated number. |
| Records.SelectsLargest | benchmark/core/results.py:116-119 | The two tests on a group (set equals 1..max, selected equals the max) hold exactly for a gapless history ending in the selected attempt. |
| Records.CheckGrades | benchmark/core/results.py:130-134 | Accepted exactly when each authoritative grade belongs to its attempt. |
| Records.UniqueTrials | benchmark/core/results.py:53-59 | Succeeds exactly on distinct identities and indexes every row. |
| PairedReport.CheckSelection | benchmark/core/repair_comparison.py:59-63 | One trial's selection is accepted exactly when its numbers are distinct and it selects the attempt with the largest number, or both are absent. |
| PairedReport.Selected | benchmark/core/repair_comparison.py:52-66 | Succeeds exactly on selectable reports and yields one cell per trial whose passes sum to the metrics' pass count. |
| PairedReport.Clusters | benchmark/core/repair_comparison.py:69-77 | The task clusters hold every planned pair once; their summed differences equal the difference of the arms' passes. |
| PairedReport.Paired | benchmark/core/repair_comparison.py:48-88 | Succeeds exactly when the sample count, both selections, the denominators and the budget allow; numerator equals passed(B) minus passed(A), and the interval, given exactly when all is graded in two or more clusters, is the percentile bootstrap of the task clusters in ascending order. |
| PairedReport.PassedCountsTrials | benchmark/core/metrics.py:26-30 | The metrics' pass count is the number of planned trials whose selected attempt is graded a pass. |
| PairedReport.PassesExactlyWhen | benchmark/core/metrics.py:26-30 | A trial passes, or counts as graded, by its selected attempt alone: an official grade that is a pass, or any. |
| PairedReport.AcceptedIsSelectable | benchmark/core/repair_comparison.py:52-66 | From records the offline validator accepts, the report of each run, whatever other runs they hold, never trips the never-best-of and duplicate-cell checks, and its cells are the plan's. |
| SchedulerReports.ReachableReportsSelectable | forge/application/evaluations.py:156-160 | Whatever the scheduler did, the report of each of its runs is selectable and covers exactly the planned cells. |
| SchedulerReports.CompareRuns | benchmark/core/repair_comparison.py:48-88 | Two runs of one reachable store are compared exactly when their plans name the same cells and the bootstrap is affordable. |
| PairedReport.SwapNegates | benchmark/core/repair_comparison.py:48-88 | Swapping the arms under the same generator negates the numerator, keeps the interval's availability and takes its bounds from the same sorted draws, negated and counted from the other end: the mirror image whenever 40 does not divide the number of samples. |
| PairedReport.MirrorExactlyWhen | benchmark/core/repair_comparison.py:83-88 | On every input the swapped interval is the mirror image exactly when 40 does not divide the number of samples; for the default of 2000 it is not always. |
| PairedReport.NotMirrored | benchmark/core/repair_comparison.py:87 | Two clusters and a generator for which the interval is [1, 1] and the swapped one is not [-1, -1]. |
| PairedReport.Interval | benchmark/core/repair_comparison.py:83-87 | For every count in 100..10000 and every generator the bounds stand at their percentile positions among the resample means in ascending order, and lie in [-1, 1]. |
| PairedReport.EveryDrawIsPossible | benchmark/core/repair_comparison.py:84-86 | Positions are picked one by one with replacement: every list of as many clusters can be drawn, for each resample independently. |
| PairedReport.OwnDrawIsThePoint | benchmark/core/repair_comparison.py:84-91 | Drawing every cluster once gives the point estimate, the difference of passes over the number of pairs. |
| PairedReport.DrawInRange | benchmark/core/repair_comparison.py:85-86 | The mean of any resample of clusters lies in [-1, 1]. |
| PluginGraph.Order | forge/plugins.py:220-234 | The visit terminates and succeeds exactly when no dependency is missing and there is no cycle; the order then holds each plugin once, dependencies first. |
| PluginGraph.DependencyVisit.Visit | forge/plugins.py:221-232 | The recursive visit against its call stack: an error is witnessed by a cycle or a missing name, success extends a dependency-closed order. |
| PluginGraph.TopologicalHasNoCycle | forge/plugins.py:222-228 | A graph with a topological order has no cycle. |
| PluginGraph.PathDescends | forge/plugins.py:229-232 | Along every dependency path positions in the order strictly decrease. |
| PluginHost.Host.Effect | forge/plugins.py:128-132 | Pushes one callable disposer, refused once the scope is closing. |
| PluginHost.Host.RegisterTool | forge/plugins.py:134-148 | Adds a new name and pushes its removal, or changes nothing and says why. |
| PluginHost.Host.RegisterService | forge/plugins.py:150-157 | Adds a new service, pushes its removal and then its close effect; a taken name changes nothing, and a close effect that cannot be called raises with the service registered. |
| PluginSession.RaisesAfterRegistering | forge/plugins.py:150-157 | A call that raises has registered nothing, except exactly when it is a new service whose close effect cannot be called. |
| PluginCalls.CallAnswers | forge/plugins.py:128-197 | A single call, registry by registry: exactly when it raises and what it registers; a name that is held raises and changes nothing. |
| PluginCalls.ActivationsGo | forge/plugins.py:235-259 | Activating plugins whose scripts catch nothing succeeds exactly when all their calls go together and each returns nothing or a disposer; the session then holds exactly what the calls registered. |
| PluginCalls.CompatibleAnyOrder | forge/plugins.py:134-197 | Whether calls go together does not depend on their order. |
| PluginHost.LoadGoes | forge/plugins.py:211-259 | The condition on the given plugins, before any ordering, under which all activations succeed. |
| PluginHost.Host.RegisterProvider | forge/plugins.py:164-169 | Adds a new provider and pushes its removal, or changes nothing. |
| PluginHost.Host.On | forge/plugins.py:171-179 | Appends a handler for a known event and pushes its removal, or changes nothing. |
| PluginHost.Host.RegisterCheck | forge/plugins.py:187-197 | Adds a callable check under the plugin's own key before binding and pushes its removal, or changes nothing. |
| PluginHost.Host.BindRegistry | forge/plugins.py:265-268 | Puts every registered tool into the registry. |
| PluginHost.Host.RunDisposers | forge/plugins.py:305-313 | Every disposer runs once in reverse registration order, failures included, and failures are counted. |
| PluginHost.Host.Close | forge/plugins.py:300-317 | After closing every registry of the host is empty and the stack is gone. |
| PluginHost.Host.Activate | forge/plugins.py:235-259 | State and outcome of an activation: the loader's effect, the calls up to the first uncaught exception, and the returned disposer. |
| PluginSession.ActivationRegistersAll | forge/plugins.py:128-197 | A successful activation that swallows no exception makes exactly the registrations it asks for, in order, and ends with the disposer it returned. |
| PluginSession.ActivationAddsWhatItPushes | forge/plugins.py:235-259 | However an activation ends, what it added is what it pushed, all under its own plugin. |
| PluginSession.DisposeUndoesRegister | forge/plugins.py:134-197 | Running a registration's disposer right after it gives back what was held before. |
| PluginHost.Host.Load | forge/plugins.py:211-263 | Succeeds exactly when the plugins can be ordered and each activation, made on what those before it left, succeeds, and then holds what they registered in dependency order; a failing load disposes everything pushed in reverse order and ends with every registry empty. For scripts that catch nothing it succeeds exactly when the plugins can be ordered, no two calls of all scripts ask for one tool, service, provider or check name, every event is known, everything handed over can be called and nothing raises. |
| PluginSession.PushTracks | forge/plugins.py:128-197 | A registration keeps the agreement between what the host holds and what the stack will remove. |
| PluginSession.PopTracks | forge/plugins.py:305-313 | Disposing the top keeps that agreement. |
| PluginSession.UnwindingEmpties | forge/plugins.py:305-314 | Disposing the whole stack leaves nothing held and foreign registry entries as they were. |
| PluginSession.DependantsFirst | forge/plugins.py:220-259 | At close all load-time effects of a plugin are disposed before any of a plugin it transitively requires. |
| PluginSession.RequiredBefore | forge/plugins.py:229-232 | A transitively required plugin stands earlier in the order. |
| Campaign.ExecutedAtMostOnce | evals/native_swe_campaign.py:209-221 | When file and executions agree, a finished slot was executed exactly once, a started one at most once, any other never, all in schedule order. |
| Campaign.Disk.Campaign | evals/native_swe_campaign.py:189-240 | With an interruption possible at every point, one process keeps file and executions in agreement. It refuses exactly on a foreign freeze, a started slot, a stopped file without resume or a missing file with resume, and then changes nothing. Otherwise the remaining slots run in order until the first that is stopped, raises or is killed, and what the process answers, leaves on disk and has executed follows from the points it passed. |
| Campaign.Disk.RunSlot | evals/native_swe_campaign.py:209-237 | Admission before execution: for every interruption of its points, the file left, the slots executed and the ending; and the agreement holds. |
| Campaign.Disk.HandleError | evals/native_swe_campaign.py:232-237 | The state is saved as blocked and the error goes on; only when that save is itself interrupted the file stays, and the agreement holds either way. |
| Campaign.UndisturbedRunsOut | evals/native_swe_campaign.py:209-240 | An undisturbed process executes the remaining slots in order up to the first stop decision, where it is blocked, or all of them and completes. |
| Campaign.ExceptionBlocks | evals/native_swe_campaign.py:216-237 | An exception in an admitted slot whose handler is not interrupted ends the process and leaves the file blocked: the slot finished exactly when its case had returned or was marked finished, and otherwise started. |
| Campaign.BlockedResumes | evals/native_swe_campaign.py:191-200 | Such a file is taken up again exactly when the case was over. |
| Campaign.RaiseThenResume | evals/native_swe_campaign.py:189-240 | One process ends in a handled exception and another resumes: it refuses exactly when the slot's case was not over, and otherwise goes on with the slots after it. |
| Campaign.History | evals/native_swe_campaign.py:190-240 | Over any sequence of processes on one disk the agreement holds, executions only grow, and a slot saved as started stops everything. |
| Prescan.PreScan | forge/protocol.py:66-82 | The loop with its early exit rejects exactly when the automaton's maximum depth exceeds 32. |
| Prescan.ScanSeesNesting | forge/protocol.py:66-82 | For every value and every legal spelling of it, strings full of brackets, quotes and escapes included, the maximum depth equals the container nesting. |
| Prescan.BodyRead | forge/protocol.py:68-74 | Scanning any legal string body stays inside the string and leaves the depth alone. |
| Prescan.TreeCheckMeaning | forge/protocol.py:35-56 | The recursive check passes exactly when all leaves are acceptable and the nesting fits. |
| Prescan.ScanAndTreeAgree | forge/protocol.py:59-87 | The scan rejects a legal document exactly when the tree check would reject its value for depth. |
| Prescan.Pairs | forge/protocol.py:26-32 | An object is built exactly when no name repeats, and then holds every pair. |
| ZipIndex.ScanZipIndex | benchmark/core/bundle.py:125-151 | Accepts exactly when the last end-record signature in the tail starts a consistent end record and the bytes from the directory offset up to it are tiled by exactly the declared number of records. |
| ZipIndex.ScanRecords | benchmark/core/bundle.py:141-151 | The record loop terminates by bytes consumed and accepts exactly a tiling by the declared count. |
| ZipIndex.ReadRecord | benchmark/core/bundle.py:143-148 | A header is accepted exactly when it is a single-disk record without extra field and with a name of 1..16384 bytes. |
| ZipIndex.WrittenIndexAccepted | benchmark/core/bundle.py:131-151 | An index of well-formed records is accepted exactly when its directory is within the limit and the signature does not recur inside its own end record. |
| ZipIndex.RecurringOffset | benchmark/core/bundle.py:131-136 | A well-formed index whose directory starts at offset 0x06054B50 is refused, whatever its entries: the offset field repeats the signature. |
| ZipExact.RecordExactlyWhen | benchmark/core/bundle.py:143-150 | A header with its name and comment is acceptable exactly when its bytes are what the writer makes of some entry. |
| ZipExact.TilesExactlyWhen | benchmark/core/bundle.py:141-151 | Records tile a stretch exactly when it is a written directory of that many entries. |
| ZipExact.AcceptedExactlyWhen | benchmark/core/bundle.py:125-151 | An archive index is accepted exactly when it is what the format's writer makes of some data, entries and comment within the limits, and the end record's signature does not occur again. |
| ZipExact.NoCommentIsWritten | benchmark/core/bundle.py:57-60 | With an empty comment this is the archive the bundle writer makes. |
| ZipIndex.DirectoryTiles | benchmark/core/bundle.py:142-150 | The records of any well-formed directory tile it, wherever it stands. |
| ZipIndex.NumberRoundTrip | benchmark/core/bundle.py:134-135 | Reading a written little-endian number gives it back. |
| Bundle.CollectContents | benchmark/core/bundle.py:38-47 | The writer's loop succeeds exactly when every name is safe, new under folding, not reserved, and every file within its quota; the contents list the files in order. |
| Bundle.WriteBundle | benchmark/core/bundle.py:36-61 | Succeeds exactly on writable files and packs the two index members followed by every file, stored. |
| Bundle.CopyMember | benchmark/core/bundle.py:111-119 | Reading in pieces succeeds exactly when size and hash match the manifest and the head is no nested archive. |
| Bundle.Create | benchmark/core/bundle.py:110-112 | Creating a file with its parents succeeds exactly when neither it nor a parent is taken. |
| BundleStaging.CheckEntries | benchmark/core/bundle.py:84-93 | Accepts exactly an index whose members are all plain, bounded and distinct under folding, and finds each by its folded name. |
| BundleStaging.CheckContents | benchmark/core/bundle.py:98-102 | Accepts exactly contents with safe, unreserved paths distinct under folding. |
| BundleStaging.StageFiles | benchmark/core/bundle.py:107-119 | Succeeds exactly when every item is delivered and no path is a directory of another; then holds exactly the manifest's paths with their entries' bytes. |
| BundleStaging.Stage | benchmark/core/bundle.py:64-122 | The reader accepts exactly the archives that pass every index, manifest, size and hash check and stages their manifest's files. |
| BundleStaging.AcceptedYieldsManifest | benchmark/core/bundle.py:99-119 | Any accepted archive yields exactly its manifest's paths, sizes and hashes, and every member but the indexes. |
| BundleStaging.AcceptedIsPlain | benchmark/core/bundle.py:80-118 | Every member of an accepted archive is an unencrypted plain file without extra field, within the size and ratio limits and distinct under folding; checksum lines and total are those of the contents. |
| BundleStaging.AcceptedHoldsNoArchive | benchmark/core/bundle.py:80-118 | No file of an accepted archive starts like an archive of its own. |
| Bundle.DescribesFile | benchmark/core/bundle.py:45-47 | The manifest gives a file its size and hash, the kind its name ends in, and whether it was redacted. |
| Bundle.OneLineEach | benchmark/core/bundle.py:55 | The checksum index has one line for each file in the manifest's order: its hash, two spaces and its path. |
| BundleRoundTrip.StagingUndoesWriting | benchmark/core/bundle.py:36-122 | A written bundle is accepted exactly when no name folds to an index name, no name is a directory of another, no content starts as a nested archive, and the archive fits the size and index limits; staging then gives back the original file map and manifest. |
| BundleRoundTrip.IndexAccepted | benchmark/core/bundle.py:125-151 | The index limit spelled out for a packed archive: directory size and no recurring signature. |
| BundleRoundTrip.WriteThenStage | benchmark/core/bundle.py:36-122 | Writing and staging in one call returns the original files exactly under the round-trip condition, and nothing otherwise. |
| StreamAssembly.StartAndFlush | extensions/qwen_tool_distillation.py:384-408 | Announces a call once when identifier and an offered name are known, then forwards every waiting piece in order. |
| StreamAssembly.ReadChunks | extensions/qwen_tool_distillation.py:293-330 | The nested loops over chunks, choices and fragments equal one input after the other. |
| StreamAssembly.EndCalls | extensions/qwen_tool_distillation.py:336-375 | The completion loop in ascending index order stops at the first call that cannot be completed. |
| StreamAssembly.StreamOnce | extensions/qwen_tool_distillation.py:281-381 | One attempt emits and ends as specified, interrupted or not. |
| StreamTheorems.StateTracks | extensions/qwen_tool_distillation.py:293-330 | While chunks arrive, the pending call and the emitted events of an index depend on its own fragments alone. |
| StreamTheorems.CallLife | extensions/qwen_tool_distillation.py:281-408 | Every index shows nothing, or one announcement, all its argument pieces in order, and at most one completion decoded from their trimmed concatenation; after a finished attempt every mentioned call is complete. |
| StreamContent.CompletesWithItsArguments | extensions/qwen_tool_distillation.py:353-375 | A call that completes has forwarded exactly the argument text that was sent for it, and its arguments are what that text decodes to without the space around it, an empty one standing for an empty object. |
| StreamContent.FragmentsAreSent | extensions/qwen_tool_distillation.py:296-331 | The fragments a call is assembled from are exactly those the chunks hold for its index, in their order. |
| StreamContent.TextsAreShown | extensions/qwen_tool_distillation.py:297-311 | However an attempt ends, its events show exactly the texts that were sent, with their choices and in order, and every usage that differs from the one before. |
| StreamContent.RespondsOnce | extensions/qwen_tool_distillation.py:383 | A finished attempt ends with its one response event, carrying the last finish reason sent; any other attempt has none. |
| StreamContent.TruncatedExactlyWhen | extensions/qwen_tool_distillation.py:333-336 | An uninterrupted attempt is truncated exactly when the last finish reason sent is length or max_tokens, and names the calls that have a name. |
| StreamContent.FinishedExactlyWhen | extensions/qwen_tool_distillation.py:333-383 | An attempt finishes exactly when it was not interrupted, not truncated, every call that was sent completes, and some text or call was sent. |
| StreamTheorems.FinishesExactlyWhen | extensions/qwen_tool_distillation.py:332-381 | An attempt finishes exactly when nothing cut it short, every call completes, and there was something to show. |
| StreamTheorems.CompletedInOrder | extensions/qwen_tool_distillation.py:336-375 | Calls complete in ascending index order however they were interleaved. |
| StreamTheorems.CompletesAsAnnounced | extensions/qwen_tool_distillation.py:368-375 | A completed call was announced under an offered name. It keeps the announced name exactly when no later fragment adds to it, and the announced identifier exactly when the last later identifier, if any, is the same; with both fixed it is the announced call. |
| StreamTheorems.CompletedName | extensions/qwen_tool_distillation.py:324-375 | In a finished attempt every call completes under all its name pieces together: under another name than announced exactly when a piece came later, and an offered one exactly when they spell one. |
| StreamTheorems.RenamedAfterStart | extensions/qwen_tool_distillation.py:324-325 | A concrete attempt whose only offered name is extended after its announcement finishes, and its call completes under a name that was never offered. |
| StreamTheorems.ReidentifiedAfterStart | extensions/qwen_tool_distillation.py:317-319 | A concrete attempt whose identifier is replaced after its announcement finishes: the call is announced under a and completes under b. |
| StreamTheorems.StartPointIsFirst | extensions/qwen_tool_distillation.py:388-400 | The announcement happens at the first argument-bearing fragment at which identifier and an offered name are known. |
| StreamRecorder.Stream | extensions/qwen_tool_distillation.py:249-279 | Retries only silent retryable failures, at most the allowed number; emits what the silent attempts and the last one emitted, and answers by the last one. |
| StreamRecorder.SingleAttempt | extensions/qwen_tool_distillation.py:249-279 | All events a caller acts on come from a single attempt. |
| StreamRecorder.RecordEvents | extensions/qwen_tool_distillation.py:790-812 | The recorder's loop equals its one-event step over the stream. |
| StreamRecorder.RecorderHoldsOpenCalls | extensions/qwen_tool_distillation.py:784-832 | However a request ends, the recorder's partial calls are exactly those announced but not completed, with announced identity and all forwarded text; none after a finished request. |
| StreamRecorder.RecordedCalls | extensions/qwen_tool_distillation.py:805-807 | The recorded calls are the completed ones in order. |
| StreamContent.RepeatableExactlyWhen | extensions/qwen_tool_distillation.py:249-279 | An attempt is repeated exactly after a retryable interruption, having shown no text and no call. |
| StreamContent.InterruptedAnswer | extensions/qwen_tool_distillation.py:262-277 | An interruption is reported as worth a retry exactly when it was retryable and nothing had been shown, and as a broken stream when something had. |
| StreamContent.RecorderHoldsTheText | extensions/qwen_tool_distillation.py:784-832 | However the request went, the recorded text is that of the one attempt that was used, whole and in order. |
| StreamContent.RecordsUsage | extensions/qwen_tool_distillation.py:808-809 | The recorded usage is the last one shown. |
| StreamContent.RecorderHoldsTheFinish | extensions/qwen_tool_distillation.py:784-832 | The recorded finish reason is the last one that attempt was sent when it finished, and none otherwise. |
| DependencyPaths.Closure | scripts/build_bridge.py:18-46 | Succeeds exactly when no removed package is locked, the three roots are locked and no reachable required name is unresolved; then returns exactly the reachable entries, the least closed set. A failure is witnessed. |
| DependencyPaths.ReachableIsLeast | scripts/build_bridge.py:23-46 | Entries reachable by walks from the roots lie in every closed set. |
| DependencyPaths.Dependencies | scripts/build_bridge.py:29-45 | One package adds exactly its resolved targets, skipping absent optional names, or names one that is required and unresolved. |
| DependencyPaths.Candidates | scripts/build_bridge.py:32-37 | The inner loop builds the candidate list innermost first. |
| DependencyPaths.ResolvesToNearest | scripts/build_bridge.py:32-38 | On every path the resolved entry is the longest searched place in the lockfile, the nearest one; where no directory is itself named node_modules the searched places are all the enclosing directories and the top. |
| DependencyPaths.EveryAncestorSearched | scripts/build_bridge.py:34-36 | Every enclosing directory is searched exactly when no directory on the way is itself named node_modules. |
| DependencyPaths.SkippedAncestor | scripts/build_bridge.py:34-36 | On the path a/node_modules/node_modules/b the enclosing directory a is not searched. |
| DependencyPaths.RequiredIsShipped | scripts/build_bridge.py:28-46 | Of a complete lockfile everything a shipped package needs is shipped: dependencies and required peers in any case, optional ones where found, the former if installed. |
| DependencyPaths.ShippedIsRequired | scripts/build_bridge.py:28-46 | Beside the three roots only what some shipped package names and resolves to is shipped. |
| DependencyPaths.CompleteExactlyWhen | scripts/build_bridge.py:18-46 | A lockfile is complete exactly when it names neither removed package, has the three roots, and every name a shipped package needs resolves; only optional names and optional peers may be absent. |
| Candidate.CandidateDelta | evals/native_swe.py:51-68 | The loop builds exactly the difference of two snapshots within the scope. |
| Candidate.AllowedExactlyWhen | evals/native_swe.py:54 | A name is in scope exactly when it is the scope itself or lies below it. |
| Candidate.ApplyFiles | evals/native_swe.py:74-82 | Succeeds exactly when every touched file has the recorded hash and nothing absent is deleted; the tree then is the baseline with every change written over it. |
| Candidate.DecodeTree | forge/sandbox/workspace_transfer.py:42-75 | Accepts exactly trees within the quotas, with valid unambiguous names, present parents and decodable contents, and decodes them faithfully. |
| Candidate.Reconstruct | evals/native_swe.py:71-90 | Replays exactly accepted artifacts and returns the patched tree. |
| Candidate.AcceptedMeans | evals/native_swe.py:71-90 | An accepted artifact was made for this commit, leaves nothing out of scope, replaces the content it was made from by the content it announces, and gives a tree within the limits whose names are valid, portable and complete with their directories. |
| Candidate.ReplayUndoesDelta | evals/native_swe.py:51-90 | Without an out-of-scope change, replaying on the starting snapshot gives exactly the files, bits and directories of the other one, and is accepted exactly when that one is a valid tree. |
| Candidate.ReplayMerges | evals/native_swe.py:51-90 | On any baseline: accepted exactly when nothing is out of scope, contents agree on every touched file and the merge is a valid tree; untouched files and directories are the baseline's. |
| Candidate.ReplayedOnce | evals/native_swe.py:77-78 | A candidate that changed some content is refused on its own result. |
| ContextFit.Fit | extensions/qwen_tool_distillation.py:1696-1739 | Returns the first reduction within the budget; fails exactly when every reduction exceeds it, for an arbitrary cost. |
| ContextFit.FirstRemovable | extensions/qwen_tool_distillation.py:1724-1731 | The first unpinned position strictly between first and last message, if any. |
| ContextFit.ReductionKeeps | extensions/qwen_tool_distillation.py:1723-1734 | Every reduction is a subsequence that keeps the first and the last message. |
| ContextFit.ReductionKeepsPinned | extensions/qwen_tool_distillation.py:1724-1734 | A reduction keeps every pinned message between first and last, in order. |
| ContextFit.ReductionDropsOldest | extensions/qwen_tool_distillation.py:1724-1734 | Of the unpinned messages a reduction drops exactly the oldest ones. |
| ContextFit.LatestErrorKept | extensions/qwen_tool_distillation.py:1711-1722 | The latest error message stays in every reduction. |
| ContextFit.OnlyLatestErrorStays | extensions/qwen_tool_distillation.py:1723-1734 | When all that may go has gone there remain the first message, the latest error if it lies in between, and the last message: nothing else is pinned. |
| ContextFit.ErrorExactlyWhen | extensions/qwen_tool_distillation.py:1711-1722 | An error is a tool's message whose folded text contains one of the five markers. |
| ContextFit.PopIsOneMoreDrop | extensions/qwen_tool_distillation.py:1734 | Popping the first unpinned message is the next reduction. |
| ContextFit.FailsOnlyOnPinned | extensions/qwen_tool_distillation.py:1735-1738 | A failure means the pinned messages alone exceed the budget; for a cost that grows with the messages the converse holds too. |

## Left out

- SQLite, transactions and rollback: a refused step leaves the tables unchanged, a committed one is atomic; row identities are positions.
- Events, receipts, recovery rows, trace and span identities, deadlines as calendar times and free-text reasons: written by the scheduler but read by none of its decisions.
- The `active` task table, the asyncio driver, heartbeat timing and the deadline clock: only the order of the transactions the driver calls is modelled.
- Seconds as floating point in the claim's budget: exact integer nanoseconds are used, so rounding at the boundary is not captured.
- Interactive turns: their work items can be created, started and ended in any way that respects the shared worker; the turn half of `cleanup_blocked` is an arbitrary boolean of each claim.
- Run specification beyond tasks, repeats, budgets and retries; validation tickets and snapshot checks around creating, starting and retrying a run.
- Result import: run specifications and states, task revisions, identity syntax, artifact files, annotations, request rows, the text form of rewards and trace completeness.
- Grade rows: their hashes and the uniqueness of a row per hash pair; only rewards in 0..1 and grading failures are inserted, as the executor does.
- Metrics beyond the pass count: the request ledger, costs, currencies, first attempts and false positives.
- `compare_repairs`, `differences` and `interleaved_schedule`: recursion and comprehensions whose claims are read off their bodies.
- Report fields beyond numerator, pairs and interval: the coverage rows, the wording of uncertainty and the copied records.
- Decimal rounding of the paired report: exact rationals; the seed's generator is an arbitrary function of sample and position.
- Plugins: importing modules, the checks of a tool's name and schema, awaiting with time limits, hook chaining in `emit` and the conversation's copy of the completion checks; registrations made after load; one activation disposing another plugin's effects; the report a second `close` returns.
- Campaign: input validation, locking, Git state, the summary and the branches of `stop_reason` (an arbitrary decision).
- Which message or error code a refused request, bundle, candidate or stream carries, where acceptance alone is stated.
- Bundle: Unicode normalization, reserved device names and the syntax of safe paths (a name predicate); manifest schema; deflate and CRC (an entry says whether and what it reads); the staging directory is case-sensitive. Writing order: proved for every order of the files, sorted order being one.
- ZIP members: the layout before and inside the directory is a parameter; that the archive library lists the members that were written is taken as given.
- Strict JSON: byte limit, UTF-8 decoding, non-finite constants and the parser itself; documents that are not legal JSON are only scanned.
- Streaming: call indexes are non-negative as the protocol has them; consumers that stop early; classification of transport errors (a boolean); back-off times; `str` and `int` conversions of malformed chunks.
- Recording: request records, serialization and file appends.
- Lockfile: the order in which names of one package are tried, which decides only which unresolved name is reported.
- Candidate: base64 is modelled by its bytes and its length; directories are a set, so a repeated entry of a directory list is not captured; snapshot capture and writing back to disk.
- Sandboxes, containers, Git, model SDKs, command lines and terminal rendering.
