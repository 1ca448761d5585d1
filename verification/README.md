# Verified model of the orchestration engine

This project models the parts of the Harness framework that decide what runs, who owns it and what is remembered, and
proves what they keep in every run:

- **Scheduling.** The aggregator's in-place activation pass over a task graph, the two independent validators and
  topological sorts, the downstream closure, rewinds, invalidations, requirement impact, and check-triggered rollback
  (`Graph`, `DagValidation`, `TopologicalOrder`, `ImpactClosure`, `Scheduler*`, `CheckRollback*`, `RollbackSafety`).
- **The compare-and-swap store and the protocols on it.** Each store call is one atomic step; callers interleave between
  calls. A run is an arbitrary sequence of steps, so a statement about all runs is a statement about all interleavings
  (`KvStore`, `SideEffects`, `SideEffectLedger`, `TaskClaims`, `TaskOwnership`, `TaskDispatcher`, `EventAppenders`,
  `RoutingBudget`).
- **Ordered scans and logs.** The opaque cursor (JSON strings, section 7 of RFC 8259, in unpadded URL-safe base64,
  sections 3.2 and 5 of RFC 4648), multi-page listing over a store that changes between pages, the event journal's
  retention window and replay, and the live session ring buffers (`KvCursor`, `KvPagination`, `EventKeys`,
  `EventJournal`, `EventReplay`, `EventSlowAppend`, `LiveSessions`).
- **The ralph-flow compiler.** The lowering of a step state machine to a task graph with check nodes, and the template
  validator that must accept it (`TemplateValidation`, `TemplateFlow`, `RalphFlow*`).

Objects the source updates in place are classes here (`DagVisitor`, `Instance`, `LocalStore`, `Ledger`, `Dispatcher`,
`Watchdog`, `Journal`, `LiveSessionHub`, `InstanceRecord`, `AdaptiveControl`); their methods are proved equal to functions
on values, and the laws are lemmas about those functions. Strings are sequences of code points, surrogates included.
What each operation answers and leaves is stated a second time in literal states, outcomes and fields, independently of
those functions (`*Answers`, `SideEffectResults`, `CheckRollbackBudget`, `RoutingBudgetExact`, `RalphFlowFields`,
`TemplateErrors`, `KvCursorWire`, `EventWholeAppend`).

Some of what the code is meant to keep holds only under a condition. Each such condition is proved exact, with an instance
where it fails:

- A cursor gives its key back if and only if no high surrogate is directly followed by a low one in prefix or key
  (`KvCursor.CursorRoundTrip`, `PairedKeyChanges`); so it does for all strings of Unicode scalar values. A scan that has
  ended has returned a key present throughout if and only if no page's cursor skipped it (`KvPagination.ScanComplete`), and
  only keys with such a pair make cursors that skip (`KvCursor.NothingSkippedExactly`,
  `KvPagination.PairedKeyHidesAnother`).
- A rewind without its downstream tasks keeps "no task released over an unfinished dependency" if and only if no direct
  dependent has been released (`SchedulerRuns.RewindAloneSafe`, with `RewindAloneBreaksSafety` as the instance).
- Every skipped task of a finished instance is downstream of a failure if and only if no task without dependencies was
  skipped before the pass (`SchedulerVerdict.HonestVerdict`; `UnexplainedSkipFails` is the instance). No run reaches such a
  state, so in every reachable state the verdict is honest (`SchedulerVerdict.EveryVerdictHonest`).
- The rollbacks of a sole check are bounded by max_fail_count in all runs if and only if the check depends directly on the
  task it sends back, or max_fail_count is negative, which allows none (`CheckRollbackExact.BoundedIffEdge`). Without the
  edge and with a positive budget every number of rollbacks is reached: the check re-runs in the same round, the round is
  not counted again, and the budget never moves (`AnyNumberOfRollbacks`). The template validator does not ask for the edge
  (`TemplateFlow.EdgeNotRequired`, `AdmittedWithoutBound`); the compiler always makes it
  (`RalphFlowRuns.CompiledRollbacksBounded`).
- A compiled workflow is admitted if and only if on_pass has no cycle, step ids hold no separator and are no check ids of
  any step, the agents are supported and the task type is not empty (`RalphFlowProofs.AdmittedExactly`; `ClashRefused` is
  the failing side for ids).
- A closing call closes the interval opened last, so that of its own attempt's claim if and only if no other claim and no
  answered question wrote IN_PROGRESS in between (`TaskOwnership.ClosesOwnIntervalExactly`). Two runs show the failing side:
  a worker fenced between its attempt check and its status read (`TaskClaims.StaleWorkerClosesNextInterval`), and a question
  answered while the attempt runs (`TaskClaims.AnsweredQuestionReopens`).
- A check-triggered rollback keeps "no task released over an unfinished dependency" if and only if the budget is used up, or
  the task sent back has its own dependencies succeeded and nothing but the failed checks released on top of it
  (`RollbackSafety.RollbackSafeExactly`, with `ForeignFallbackBreaksSafety` as the instance). Where each check is the only
  task on top of the one it sends back, every run is safe (`EveryRollbackRunSafe`), as in compiled workflows whose steps
  each have one check that falls back to its own step (`RalphFlowRuns.CompiledRunsSafe`).

The journal's window is exact for whole appends only: a record whose append is overtaken by a full window of others stays
below trimmed_until (`EventSlowAppend.SlowRecordOutlivesTrim`).

## Model

| member | source | states |
|---|---|---|
| DagValidation.DagVisitor.Visit | harness_framework/workflow_skills.py:212-226 | the recursive visit terminates; on success the task and everything it depends on is visited and the visiting set is as before; it fails only on a graph with a cycle |
| DagValidation.UnknownReference | harness_framework/workflow_skills.py:206-210 | reports a dependency exactly when some reference is empty or names no task |
| DagValidation.ValidateDag | harness_framework/workflow_skills.py:204-230 | accepts a graph if and only if all references are known and there is no cycle |
| TopologicalOrder.BuildTables | harness_framework/run_manager.py:580-593 | in-degrees count the dependency entries, duplicates included, and the adjacency lists mirror them |
| TopologicalOrder.Release | harness_framework/run_manager.py:601-604 | a neighbour enters the queue exactly when its last counted dependency has been listed |
| TopologicalOrder.TopologicalOrder | harness_framework/run_manager.py:578-606 | every task once, dependencies first; the listed ones are exactly those from which no cycle can be reached; with known references it lists all exactly on acyclic graphs |
| TopologicalOrder.ListedIffNoCycleAhead | harness_framework/run_manager.py:598-606 | when the queue runs dry, a node is missing if and only if it is on or downstream of a cycle |
| TopologicalOrder.CompleteIffAcyclic | harness_framework/run_manager.py:578-606 | the sort is complete if and only if the depth-first validator would accept |
| Texts.SortedInOrder | harness_framework/run_manager.py:598-604 | neighbours are taken in sorted order, duplicates included |
| ImpactClosure.BuildReverse | harness_framework/incremental.py:20-27 | the reverse adjacency holds t under d exactly when t lists d |
| ImpactClosure.AffectedDownstreamClosure | harness_framework/incremental.py:16-38 | the worklist yields exactly the tasks that reach a changed task, or reports the unknown ones |
| ImpactClosure.ImpactIsLeast | harness_framework/incremental.py:16-38 | the closure is contained in every set that holds the changed tasks and is closed under dependents |
| ImpactClosure.ImpactIsClosed | harness_framework/incremental.py:16-38 | the closure holds the changed tasks and is closed under dependents |
| ImpactClosure.GrowOnce | harness_framework/job_flows.py:1452-1459 | one sweep adds only affected tasks, strictly shrinks what is left when it adds any, and adds none only at a fixed point |
| ImpactClosure.ImpactedByRepetition | harness_framework/job_flows.py:1450-1459 | repeating the sweep until nothing changes computes the same set as the worklist |
| ImpactClosure.TaskAncestors | harness_framework/recovery.py:89-104 | exactly the known tasks the given one depends on, directly or not, and itself |
| ImpactClosure.ClosureAncestorsDual | harness_framework/recovery.py:89-104 | t is in the closure of s if and only if s is among the ancestors of t |
| ImpactClosure.ValidateRecoveryTarget | harness_framework/recovery.py:107-117 | a target passes exactly when the current task is it or depends on it, directly or not, and it is on the allow-list if there is one |
| ImpactClosure.RootsGenerateClosedSets | harness_framework/requirement_changes.py:161-172 | on an acyclic graph, the closure of the roots equals the declared set if and only if that set is closed under dependents |
| ImpactClosure.RootsAreLeast | harness_framework/requirement_changes.py:161-168 | every set that generates the declared one contains the computed roots |
| ImpactClosure.AssessImpact | harness_framework/requirement_changes.py:151-172 | an assessment goes through exactly for nonempty, known, disjoint declarations whose invalidated set is closed under dependents; the roots generate it |
| Scheduler.Instance.constructor | harness_framework/job_flows.py:798-804 | the loop gives exactly the tasks of the template a state: PENDING if the task lists no dependencies, otherwise BLOCKED |
| Scheduler.Instance.ReadDependencies | harness_framework/aggregator.py:131-145 | the dependency states in order, and whether one of them is a failure |
| Scheduler.Instance.VisitTask | harness_framework/aggregator.py:123-169 | one iteration of the activation loop is the value-level visit |
| Scheduler.Instance.ActivationPass | harness_framework/aggregator.py:123-169 | the loop that updates the shared dictionary is the fold of the visits in dictionary order |
| Scheduler.Instance.Rewind | harness_framework/job_flows.py:1188-1239 | the target is PENDING if its dependencies have succeeded, its closure waits, nothing else changes |
| Scheduler.Instance.InvalidateImpacted | harness_framework/incremental.py:41-73 | the closure is reset; a member is PENDING exactly when all its dependencies lie outside and are DONE |
| SchedulerProofs.SettledExists | harness_framework/aggregator.py:123-169 | on a ranked graph the recursive assignment exists: failed upstream means skipped, all succeeded means pending, otherwise waiting |
| SchedulerProofs.SettledUnique | harness_framework/aggregator.py:123-169 | it is unique, QUEUED and BLOCKED identified |
| SchedulerProofs.VisitSettles | harness_framework/aggregator.py:123-169 | once its dependencies are settled, a single visit settles a task whatever happened before |
| SchedulerProofs.ActivationConverges | harness_framework/aggregator.py:123-169 | as many passes as there are tasks reach that assignment, each pass in any order of the dictionary |
| SchedulerVerdict.QuietPassHasWork | harness_framework/aggregator.py:123-169 | no deadlock: on a validated graph, a pass that changes nothing while some task is unfinished leaves a task pending, running, in review or with a human |
| SchedulerVerdict.SkippedExcused | harness_framework/aggregator.py:147-151 | a task that ends a pass skipped has a dependency that has not succeeded, or was already skipped without dependencies |
| SchedulerVerdict.FailureHasCulprit | harness_framework/aggregator.py:147-184 | when all tasks are terminal, every failed, aborted or skipped task leads to a FAILED or ABORTED one, or to one that was skipped without dependencies all along |
| SchedulerVerdict.HonestVerdict | harness_framework/aggregator.py:171-184 | when a pass leaves every task terminal, the verdict is SUCCEEDED if and only if every task succeeded; every skipped task is downstream of a FAILED or ABORTED one if and only if no task without dependencies was skipped before; and FAILED means that some task failed or was aborted exactly when that is so or one did |
| SchedulerVerdict.VerdictAnswers | harness_framework/aggregator.py:171-184 | no verdict while the instance is empty or some task is in a state other than DONE, SUCCEEDED, FAILED, ABORTED and SKIPPED; otherwise SUCCEEDED if all are DONE or SUCCEEDED, else FAILED |
| SchedulerVerdict.RunSkipsHaveDeps | harness_framework/aggregator.py:123-169 | in every state reachable from a created instance, a skipped task has dependencies |
| SchedulerVerdict.EveryVerdictHonest | harness_framework/aggregator.py:123-184 | in every reachable state, a pass that finishes the instance leaves each skipped task downstream of a failed or aborted one, and its verdict is SUCCEEDED if and only if all succeeded, FAILED if and only if one failed or was aborted |
| SchedulerVerdict.UnexplainedSkipFails | harness_framework/aggregator.py:154-157 | the failing side: in a state no run reaches, an instance whose only task is skipped without dependencies ends FAILED although nothing failed |
| SchedulerRuns.PassSafe | harness_framework/aggregator.py:123-169 | a pass releases a task only over succeeded dependencies |
| SchedulerRuns.RewindSafe | harness_framework/job_flows.py:1188-1239 | a rewind with its downstream closure keeps that |
| SchedulerRuns.RewindAloneSafe | harness_framework/job_flows.py:1188-1191 | a rewind of the task alone keeps it if and only if no direct dependent has been released |
| SchedulerRuns.RewindAloneBreaksSafety | harness_framework/job_flows.py:1188-1239 | two finished tasks in a row: rewinding the first alone leaves the second DONE over a PENDING one |
| SchedulerRuns.InvalidateSafe | harness_framework/incremental.py:41-73 | invalidation keeps it, on any graph |
| SchedulerRuns.RewindAnswers | harness_framework/job_flows.py:1188-1239 | a rewound task is PENDING exactly if its dependencies are DONE or SUCCEEDED, else BLOCKED; what is downstream becomes BLOCKED if asked for; every other state stays |
| SchedulerRuns.InvalidateAnswers | harness_framework/incremental.py:41-73 | what is reset is PENDING exactly if its dependencies are DONE and not reset, else BLOCKED; every other state stays |
| SchedulerRuns.EveryRunSafe | harness_framework/aggregator.py:123-169 | from a created instance, through any passes, claims, reviews, completions, failures, requeues, aborts, rewinds and invalidations, no released task has a dependency that has not succeeded |
| CheckRollback.InstanceRecord.GroupFailures | harness_framework/aggregator.py:213-229 | the failed checks in dictionary order, grouped by target in order of first appearance |
| CheckRollback.InstanceRecord.Recover | harness_framework/aggregator.py:230-296 | counts the failure once per round of the group's task and, within the budget, blocks the failed checks and sends the target back |
| CheckRollback.InstanceRecord.RecoverFailedChecks | harness_framework/aggregator.py:202-296 | the loop over the groups is the fold of the single recoveries |
| CheckRollback.InstanceRecord.ClearSpentFailBudgets | harness_framework/aggregator.py:333-351 | deletes the budgets of exactly the groups, trimmed, with a finished member |
| CheckRollbackBudget.GroupCountedOnce | harness_framework/aggregator.py:230-296 | for any group of failed checks: the stored count grows by one exactly if the stored round is not the attempt count of the group's task, and within max_fail_count exactly the checks are BLOCKED and the target PENDING |
| CheckRollbackBudget.FailureCountedOnce | harness_framework/aggregator.py:202-296 | the same through a whole pass, for a sole check whatever the other groups do: the task goes back if and only if the new count is at most max_fail_count |
| CheckRollbackBudget.ClearedExactly | harness_framework/aggregator.py:333-351 | a budget is cleared if and only if some DONE or SUCCEEDED task names its group, trimmed |
| CheckRollbackBound.ByTargetGrouped | harness_framework/aggregator.py:213-229 | the groups hold exactly the failed checks, each group only those of its target, and no target has two groups |
| CheckRollbackBound.RecoveredEffect | harness_framework/aggregator.py:230-296 | what recovering does to a sole check and its task, whatever the other groups do |
| CheckRollbackBound.PassFrozen | harness_framework/aggregator.py:123-169 | a check behind a task that has not started its new round is not released by any pass |
| CheckRollbackBound.RollbacksBounded | harness_framework/aggregator.py:202-296 | in every run without manual retries, between two passes a sole check rolls its task back at most max_fail_count times, and the failure after that stays FAILED |
| CheckRollbackBound.NoEdgeNoBound | harness_framework/aggregator.py:242-256 | from any state where a check that does not depend on its task has failed on succeeded dependencies within its budget, any number of rollbacks follows without that task running and without the budget moving |
| CheckRollbackExact.NoRollbacksAllowed | harness_framework/aggregator.py:234-256 | with a negative max_fail_count a sole check never sends its task back, with or without the edge |
| CheckRollbackExact.AnyNumberOfRollbacks | harness_framework/aggregator.py:202-296 | in an acyclic flow where a sole check does not depend on its task and may roll back at all, every number is the rollback count of some run from a new instance: its ancestors complete in dependency order, it fails, and the cycle repeats |
| CheckRollbackExact.BoundedIffEdge | harness_framework/aggregator.py:202-296 | over all runs from a new instance, the rollbacks of a sole check are at most max_fail_count if and only if the check depends directly on the task it sends back or max_fail_count allows none |
| CheckRollbackBudget.BoundAttained | harness_framework/aggregator.py:202-296 | with the edge, on a validated graph, every number of rollbacks up to max_fail_count is that of some run from a new instance |
| RollbackSafety.RollbackSafeExactly | harness_framework/aggregator.py:230-296 | from a safe state, recovering a group of failed checks keeps safety if and only if its budget is used up, or the target's dependencies have succeeded and no other task on top of the target is released |
| RollbackSafety.ForeignFallbackBreaksSafety | harness_framework/aggregator.py:283-291 | three tasks in a row, the last falling back to the first: the middle one stays DONE over a PENDING one |
| RollbackSafety.EveryRollbackRunSafe | harness_framework/aggregator.py:123-296 | where each check depends on the task it sends back and is the only one to do so, every run of passes with rollbacks, claims, completions, failures, rewinds and invalidations from a new instance is safe |
| TemplateFlow.AdmittedBoundedIffEdge | harness_framework/job_flows.py:134-203 | for every template the validator admits, the bound holds exactly when the check depends on the task it sends back or max_fail_count allows none |
| TemplateFlow.EdgeNotRequired | harness_framework/job_flows.py:158-184 | the validator admits a check without a dependency on the task it sends back |
| TemplateFlow.AdmittedWithoutBound | harness_framework/aggregator.py:242-256 | such an admitted template, two tasks and a budget of one, runs into any number of rollbacks |
| KvStore.LocalStore.KvGet | harness_framework/local_store.py:138-143 | the value and its modify index, or nothing and the global index |
| KvStore.LocalStore.KvPut | harness_framework/local_store.py:145-157 | writes if there is no condition or the key's index (0 if absent) equals it; the new index is one above every other |
| KvStore.LocalStore.KvDelete | harness_framework/local_store.py:159-171 | removes the key; the index moves only if it was there |
| KvStore.LocalStore.KvDeleteRecurse | harness_framework/local_store.py:159-171 | removes exactly the selected keys; the index moves once if there were any |
| KvStore.NoAba | harness_framework/local_store.py:145-157 | after a read of a present key and any history, the swap on its index succeeds if and only if nothing wrote or deleted the key since, and then the value is the one read |
| KvStore.CasZeroCreates | harness_framework/local_store.py:148-152 | after any history, cas=0 succeeds if and only if the key is absent |
| KvStore.MissedReadNeverWrites | harness_framework/local_store.py:138-152 | the global index a missed read returns never lets a later swap on that key through |
| KvStore.IndexCountsChanges | harness_framework/local_store.py:145-171 | over any history the global index grows by exactly the number of operations that wrote or removed something |
| KvStore.WriteCarriesIndex | harness_framework/local_store.py:145-157 | a write that goes through carries the new global index and leaves the other entries; a new store is empty at index 100 |
| SideEffects.StepStory | harness_framework/side_effects.py:20-139 | in one store step a record appears only with an EXECUTE of its creator and keeps its owner; RESUME only meets a record with the same attempt and epoch |
| SideEffects.AtMostOneExecute | harness_framework/side_effects.py:20-53 | in every interleaving each idempotency key of a task is EXECUTEd at most once, and a RESUME repeats the very attempt and epoch that was told to EXECUTE |
| SideEffects.RecordsMoveForward | harness_framework/side_effects.py:55-139 | records only move from IN_PROGRESS to COMPLETED, or to FAILED and on to COMPENSATED, and never change hands or disappear |
| SideEffects.CompletedReplays | harness_framework/side_effects.py:30-36 | once COMPLETED, every later begin that answers at all replays the same record, whatever happens in between |
| SideEffectResults.RecordsTold | harness_framework/side_effects.py:55-139 | in every interleaving a COMPLETED record carries the result of a complete call of its owner that answered with it, a FAILED one the error of a fail call of its owner, a COMPENSATED one also the task and attempt of the call that marked it |
| SideEffectResults.ReplayCarriesResult | harness_framework/side_effects.py:30-36 | in every interleaving a replay answers with the result that an earlier complete call on the same task and key was given |
| SideEffects.CompensatedOnce | harness_framework/side_effects.py:91-115 | under every interleaving at most one call marks a record COMPENSATED, and it stays so |
| SideEffects.FailedOnce | harness_framework/side_effects.py:64-89 | under every interleaving at most one call moves a record to FAILED, so at most one releases its compensation task |
| SideEffectLedger.Ledger.ValidateOwner | harness_framework/side_effects.py:141-149 | passes exactly when the stored attempt and epoch are the caller's, and is the owner check of the steps |
| SideEffectLedger.Ledger.BeginEffect | harness_framework/side_effects.py:20-53 | alone, the method does what its steps do |
| SideEffectLedger.Ledger.Finish | harness_framework/side_effects.py:117-139 | alone, the owner's record is finished by one swap, an already completed one is returned as it is |
| SideEffectLedger.Ledger.CompleteEffect | harness_framework/side_effects.py:55-62 | alone, the method does what its steps do |
| SideEffectLedger.Ledger.FailEffect | harness_framework/side_effects.py:64-89 | alone, the method does what its steps do, the second owner check and the release of the compensation task included |
| SideEffectLedger.Ledger.MarkEffect | harness_framework/side_effects.py:91-115 | alone, only a FAILED record is marked compensated, by one swap |
| SideEffectAnswers.BeginAnswers | harness_framework/side_effects.py:20-53 | begin, alone: fenced, blank key, EXECUTE with a new record, collision, REPLAY, RESUME of the owner's own record, owned by another, waiting for compensation, or compensated, each in exactly its case |
| SideEffectAnswers.CompleteAnswers | harness_framework/side_effects.py:55-62 | complete, alone: the owner's IN_PROGRESS record becomes COMPLETED with the given result and nothing else changes; a completed record is returned; every other case raises and writes nothing |
| SideEffectAnswers.FailAnswers | harness_framework/side_effects.py:64-72 | fail_and_compensate, alone: the owner's IN_PROGRESS record becomes FAILED with the given error before the compensation task is looked at |
| SideEffectAnswers.ReleaseAlone | harness_framework/side_effects.py:73-89 | after that, a BLOCKED compensation task becomes PENDING and is told task and key; none named, or another status, raises and writes nothing |
| SideEffectAnswers.MarkAnswers | harness_framework/side_effects.py:91-115 | mark_compensated, alone: a FAILED record becomes COMPENSATED by the given task and attempt; every other case raises and writes nothing |
| TaskClaims.EachIntervalClosedOnce | harness_framework/acp_dispatcher.py:339-428 | in every interleaving of dispatchers, watchdog and others who may write any status, each claim and each other write of IN_PROGRESS opens an interval of its own, and an interval is closed at most once, after it was opened |
| TaskClaims.StaleAttemptFenced | harness_framework/acp_dispatcher.py:924-977 | a closing call whose attempt check comes after its attempt was cleared or replaced writes nothing and closes nothing |
| TaskClaims.WatchdogRetryBound | harness_framework/watchdog.py:162-198 | the watchdog puts a task back to PENDING at most max_retry - 1 times in its life |
| TaskClaims.StaleWorkerClosesNextInterval | harness_framework/acp_dispatcher.py:928-931 | a run in which a worker that passed the attempt check is fenced before it reads the status and then closes the next attempt's interval |
| TaskClaims.AnsweredQuestionReopens | harness_framework/adaptive_control.py:472-513 | a run in which a question is opened and answered while an attempt runs: the attempt closes the interval the answer opened, and the one its claim opened is never closed |
| TaskOwnership.RunOwned | harness_framework/acp_dispatcher.py:924-977 | in every interleaving a running status carries the index of the interval opened last, be it by a claim or by an answered question; a stored attempt id is that of a claim that has opened an interval, and so is the attempt of every closing |
| TaskOwnership.ClosesOwnIntervalExactly | harness_framework/acp_dispatcher.py:924-977 | every closing is made for an attempt whose claim opened an interval before; it closes the interval opened last, so the claim's own if and only if no other claim and no answered question opened one in between |
| TaskOwnership.AnswersTellLog | harness_framework/acp_dispatcher.py:339-428 | in every interleaving a call answers Claimed exactly after it opened an interval, and Closed, or clears the attempt of a release, exactly after it closed one |
| TaskDispatcher.Dispatcher.ClaimTask | harness_framework/acp_dispatcher.py:339-428 | alone, the method does what the claim's steps do, the approval gate included |
| TaskDispatcher.Dispatcher.AttemptIsCurrent | harness_framework/acp_dispatcher.py:1087-1090 | current exactly when stored attempt and epoch are the claim's |
| TaskDispatcher.Dispatcher.CloseTask | harness_framework/acp_dispatcher.py:924-977 | alone, complete, fail, wait and release do what their steps do |
| TaskDispatcher.Watchdog.Recover | harness_framework/watchdog.py:162-198 | alone, recovery does what its steps do |
| TaskAnswers.ClaimAnswers | harness_framework/acp_dispatcher.py:339-446 | a claim, alone: a PENDING task that needs an approval it does not have becomes AWAITING_REVIEW; otherwise the approval is used up and, if it can be routed, the task is IN_PROGRESS under the new attempt and the next epoch |
| TaskAnswers.CloseAnswers | harness_framework/acp_dispatcher.py:924-1017 | a closing, alone: the current attempt of an IN_PROGRESS task leaves DONE on complete, FAILED on fail, WAITING_FOR_HUMAN on wait, ABORTED or PENDING on release, and only a release clears the attempt; every other case writes nothing |
| TaskAnswers.RecoverAnswers | harness_framework/watchdog.py:162-198 | a recovery, alone: an expired IN_PROGRESS task of the attempt seen loses its attempt, counts one retry and becomes PENDING below max_retry, else FAILED |
| TaskAnswers.LoggedIsWritten | harness_framework/acp_dispatcher.py:928-1017 | in every interleaving a logged opening wrote IN_PROGRESS, a logged closing the state of its kind over the interval it names, a logged recovery its target |
| EventKeys.PaddedOrder | harness_framework/event_journal.py:77 | within the width, the order of zero-padded numbers is the order of the numbers |
| EventKeys.RecordKeyInjective | harness_framework/event_journal.py:77 | different sequences have different record keys, beyond 20 digits too |
| EventKeys.KeysSpelled | harness_framework/event_journal.py:48-104 | the keys of the stream events/global, written out |
| EventAppenders.AppendersKeptApart | harness_framework/event_journal.py:56-82 | in every interleaving of appends and trims, appends that hold a sequence hold different ones, the record write with cas=0 never fails, the head counts the sequences given out, and an append gives up only after a hundred others were served while it ran |
| EventAppenders.NextSequenceGranted | harness_framework/event_journal.py:60-68 | a sequence is given out by exactly one store call, as the next number, and is never given out again |
| EventWholeAppend.WholeAppend | harness_framework/event_journal.py:56-104 | run without interruption, the interleaved append stores its event under the next sequence and moves the window by one: the journal invariant holds of the longer log |
| EventWholeAppend.RetentionAtLeastHundred | harness_framework/event_journal.py:54 | an append keeps at least a hundred events, whatever retention it is given |
| EventWholeAppend.TrimMovesOn | harness_framework/event_journal.py:92-104 | a trim takes the sequences one after the other up to the cutoff, passes over missing records, and deletes a record and, if it names one, its id |
| EventWholeAppend.HundredTries | harness_framework/event_journal.py:60-68 | a lost race for the head is tried again unless it was the hundredth, which ends the append without a sequence |
| EventSlowAppend.SlowRecordOutlivesTrim | harness_framework/event_journal.py:84-104 | a run in which a hundred appends overtake one: the trim passes over its missing record, which is then written below trimmed_until |
| EventReplay.Journal.Append | harness_framework/event_journal.py:56-82 | with nothing in between, the log grows by the event, its sequence is the new length, and the window moves |
| EventReplay.Journal.Trim | harness_framework/event_journal.py:84-104 | restores the window after the head has moved: what fell out of it is deleted, record and id |
| EventReplay.Journal.Replay | harness_framework/event_journal.py:106-137 | through the real paged listing, the answer is the next retained events in order, or a reset exactly when the given id is not retained |
| EventReplay.Scan | harness_framework/event_journal.py:120-135 | the page loop collects exactly the first requested events after the given sequence |
| EventReplay.ReplayTells | harness_framework/event_journal.py:106-137 | a replay brings the events after the given one, or from the oldest retained one if none or an empty id is given, as many as asked for within 1 to 1000 and there are; it resets exactly if the given one is not retained |
| EventReplay.WindowExact | harness_framework/event_journal.py:84-104 | the retained records are exactly those of the last retention_events events (all while there are fewer), and the id keys are their inverse |
| EventReplay.OthersKeepJournal | harness_framework/event_journal.py:48-54 | writes under keys that do not begin with the stream's base and a slash leave the journal intact |
| EventReplay.FreshStoreIsJournal | harness_framework/event_journal.py:48-54 | a store without any of the stream's keys is its journal with nothing appended |
| EventReplay.PollExtends | harness_framework/event_journal.py:106-137 | one replay from the last id extends what was received, asks for a reset if and only if that event is gone, and catches up to the head when it brings fewer than asked for |
| EventReplay.FollowHasNoGap | harness_framework/event_journal.py:106-137 | however the journal grows and trims between replays, the client holds one stretch of the log, in order, each event once |
| EventJournal.RecordsListed | harness_framework/event_journal.py:121-123 | below 10^20 events the store lists the window in sequence order |
| KvCursor.Base64RoundTrip | harness_framework/kv_pagination.py:16-27 | decoding encoded bytes gives them back |
| KvCursor.PaddingRestored | harness_framework/kv_pagination.py:16-24 | the padding that was stripped is what -len mod 4 restores |
| KvCursor.UnescapeEscape | harness_framework/kv_pagination.py:15-27 | a string read back from its JSON escape is the string with each adjacent high and low surrogate merged |
| KvCursor.EncodedDecodes | harness_framework/kv_pagination.py:13-34 | a cursor decodes to its key under the prefix it was made for and is invalid under every other |
| KvCursor.CursorRoundTrip | harness_framework/kv_pagination.py:13-34 | the key comes back unchanged if and only if neither text has a high surrogate directly before a low one |
| KvCursor.PairedKeyChanges | harness_framework/kv_pagination.py:13-34 | the failing side: the key of the two surrogates D800 DC00 comes back as the one code point 10000 |
| KvCursor.NothingSkippedExactly | harness_framework/kv_pagination.py:56-58 | every later key under the prefix is past the decoded cursor of a key if and only if that key has no high surrogate directly before a low one |
| KvCursor.ScalarRoundTrip | harness_framework/kv_pagination.py:13-34 | so it does for all texts of Unicode scalar values, and another prefix is rejected |
| KvCursor.CursorUrlSafe | harness_framework/kv_pagination.py:13-16 | a cursor is never empty and uses only letters, digits, minus and underscore |
| KvCursorWire.DigitsInOrder | harness_framework/kv_pagination.py:13-16 | the digits are A to Z, a to z, 0 to 9, minus and underscore, in this order |
| KvCursorWire.DigitsRead | harness_framework/kv_pagination.py:20-24 | a character is read as a digit exactly if it is one of them |
| KvCursorWire.Base64Spells | harness_framework/kv_pagination.py:13-16 | every three bytes are one number in four digits, and one or two bytes left over are filled up with zero bits and padded |
| KvCursorWire.PayloadIs | harness_framework/kv_pagination.py:15 | the JSON text is the object of prefix and key in this order without spaces |
| KvCursorWire.EscapeTable | harness_framework/kv_pagination.py:15 | quote, backslash and five control characters have short escapes; other printable ASCII stands for itself |
| KvCursorWire.EscapeHex | harness_framework/kv_pagination.py:15 | every other character is a \u escape in four lower-case hex digits, or two for the surrogates of a character beyond the first plane |
| KvCursorWire.HexInOrder | harness_framework/kv_pagination.py:15-22 | the hex digits in order; either case is read |
| KvCursorWire.UnescapeTable | harness_framework/kv_pagination.py:21-24 | exactly the eight short escapes are read back, each as its character |
| KvCursorWire.EmptyIsNoCursor | harness_framework/kv_pagination.py:20-21 | a missing and an empty cursor start from the beginning, and no other |
| KvCursorWire.WellPaddedExactly | harness_framework/kv_pagination.py:23-26 | the digits are read if and only if they come in whole groups of four in which only the last one or two characters of the text are padding |
| KvCursorWire.StringsQuoted | harness_framework/kv_pagination.py:24 | a string that is read stands between quotes, what is left is what follows the closing one, and a bare control character is refused |
| KvCursorWire.ObjectsBraced | harness_framework/kv_pagination.py:24-28 | an object that is read stands between braces and its first member is a name and a colon; the empty object is read |
| KvPagination.KvList | harness_framework/local_store.py:188-198 | refuses exactly a limit out of range or an invalid cursor; otherwise the page holds the least matching keys of the store past the cursor, at most limit, with their entries, and a next cursor if and only if some are left |
| KvPagination.PageMeaning | harness_framework/kv_pagination.py:47-64 | a page is the least matching keys beyond the cursor, at most limit, with their entries, and has a next cursor if and only if some are left |
| KvPagination.BadRequestsRefused | harness_framework/kv_pagination.py:28-34 | a request with a cursor of the encoder is refused if and only if its prefix is another or the limit is out of range, whatever the store holds |
| KvPagination.ScanComplete | harness_framework/kv_pagination.py:47-64 | a scan over a changing store never fails and returns strictly increasing keys with the entries of their page's store; once it ends, a key present throughout has been returned if and only if no page's cursor skipped it |
| KvPagination.UnpairedSkipsNothing | harness_framework/kv_pagination.py:47-64 | if no listed key has a high surrogate directly before a low one, nothing is skipped |
| KvPagination.PairedPrefixRefused | harness_framework/kv_pagination.py:28-34 | with such a pair in the prefix, the second page of a scan is refused |
| KvPagination.PairedKeyHidesAnother | harness_framework/kv_pagination.py:56-58 | the failing side: two keys listed one by one, of which the second is never returned |
| KvPagination.UnchangedScan | harness_framework/kv_pagination.py:47-64 | on an unchanged store a finished scan concatenates to the sorted matching keys if and only if none of them was skipped, and an unfinished one has at most as many pages as there are keys |
| LiveSessions.LiveSessionHub.constructor | harness_framework/live_sessions.py:23-29 | an empty hub with limits of at least one |
| LiveSessions.LiveSessionHub.PublishUpdate | harness_framework/live_sessions.py:31-62 | buffers stay the ends of their logs, the three maps share one key set of at most max_tasks, and the task's log grows by the update, its sequence the new length |
| LiveSessions.LiveSessionHub.TakeSnapshot | harness_framework/live_sessions.py:64-82 | reading the ring buffer gives the snapshot of the unbounded log, activity included |
| LiveSessions.SnapshotAnswers | harness_framework/live_sessions.py:64-82 | a snapshot brings the kept updates after the position, at most the limit, which is 500 if 0 and within 1 to 2000; its cursor is the last one brought or the position |
| LiveSessions.LiveSessionHub.ClearTask | harness_framework/live_sessions.py:84-89 | forgets the task in all maps and leaves the others |
| LiveSessions.RunInv | harness_framework/live_sessions.py:31-62 | in every run at most max_tasks tasks are kept, in the order of their last publication |
| LiveSessions.LeastRecentlyPublishedGo | harness_framework/live_sessions.py:40-45 | every evicted task was last published to before every kept one |
| LiveSessions.EvictsOneWhenFull | harness_framework/live_sessions.py:40-47 | publishing evicts exactly when a new task comes to a full hub, and then only the task at the head of the order; otherwise no task goes |
| LiveSessions.TruncatedWhenLost | harness_framework/live_sessions.py:73-74 | truncated is set if and only if the client has a position and an update after it is no longer in the buffer |
| LiveSessions.ActiveWhenRecent | harness_framework/live_sessions.py:78 | a task shows as active if and only if something was published to it less than ten seconds ago |
| LiveSessions.FollowReproducesLog | harness_framework/live_sessions.py:64-82 | following the cursor from any position reproduces the log from there, from position 0 the log from the oldest update kept at the first poll, without gap or repeat unless a poll said truncated |
| TemplateValidation.CheckGroups | harness_framework/job_flows.py:185-203 | passes exactly when all members of a group share fallback target and budget |
| TemplateValidation.CheckContracts | harness_framework/job_flows.py:134-203 | passes exactly the templates whose contract rules hold, or that use no contract fields, for on_fail missing, empty, an object or a text |
| TemplateValidation.Manifest | harness_framework/job_flows.py:255-361 | admits exactly nonempty templates with legal distinct ids, list-shaped dependencies, nonempty types, supported agents, known acyclic references and valid contracts |
| TemplateErrors.RefusedExactly | harness_framework/job_flows.py:134-361 | a template is refused exactly for one of the errors raised: none or duplicate or illegal ids, list shape, type, agent, unknown dependency, cycle, do or description missing, wrong fallback, output format missing, disagreeing group |
| TemplateErrors.LowerLetters | harness_framework/agent_providers.py:32-34 | agent names are compared with A to Z lowered to a to z, letter by letter |
| Texts.StripIs | harness_framework/job_flows.py:46 | trimming takes whitespace off both ends until neither has any left, and nothing else |
| Texts.WhitespaceIs | harness_framework/job_flows.py:46 | whitespace is the 29 characters of str.isspace |
| RalphFlow.ValidateSteps | harness_framework/ralph_flow_import.py:193-238 | passes exactly the compilable workflows |
| RalphFlow.CompileWorkflow | harness_framework/ralph_flow_import.py:174-325 | rejects exactly the workflows that are not compilable and otherwise emits the specified tasks in order |
| RalphFlowFields.RejectedExactly | harness_framework/ralph_flow_import.py:193-238 | a workflow is rejected exactly for one of the errors raised: no steps, a blank or repeated id, a sub-workflow, a missing field, a budget below one, an unknown target, empty or blank voting, an unknown manual step |
| RalphFlowFields.CompiledTasksAre | harness_framework/ralph_flow_import.py:261-325 | the compiled tasks are exactly the runs and checks of the steps, in order, every field as the step and the settings say: texts, criterion, agent, fallback, budget, group, approval |
| RalphFlowFields.ApprovalOfManualSteps | harness_framework/ralph_flow_import.py:314 | if no step id is a check id, a compiled task asks for approval if and only if it is a check of a manual step |
| RalphFlowFields.DependenciesAre | harness_framework/ralph_flow_import.py:254-259 | a step's run waits for the checks of the steps that go on to it, step by step and in voting order, each once |
| RalphFlow.CollectDependencies | harness_framework/ralph_flow_import.py:254-259 | every step collects the checks of the steps that go on to it, in step order |
| RalphFlowIds.CheckIdsApart | harness_framework/ralph_flow_import.py:243-252 | whatever the step ids are, a check id is not its step's id, tells that id, and differs from the step's other check ids |
| RalphFlowProofs.CompiledDistinct | harness_framework/ralph_flow_import.py:261-325 | all compiled task ids are distinct if no step id is a check id |
| RalphFlowProofs.CompiledLowered | harness_framework/ralph_flow_import.py:254-325 | the compiled graph: checks depend on their step alone, steps on exactly the checks of the steps that go on to them |
| RalphFlowProofs.CompiledContracts | harness_framework/ralph_flow_import.py:289-324 | the compiled tasks meet every contract rule of the validator |
| RalphFlowProofs.CompiledHeaders | harness_framework/ralph_flow_import.py:265-324 | the compiled tasks pass the agent and type checks if and only if the agent of the steps and that of the checks are supported and the type is not empty |
| RalphFlowProofs.ClashRefused | harness_framework/ralph_flow_import.py:243-252 | a step id that is a check id of any step, voted or not, makes two task ids equal |
| RalphFlowProofs.AdmittedExactly | harness_framework/ralph_flow_import.py:174-325 | for every workflow that compiles with trimmed ids, the validator admits the template if and only if on_pass has no cycle, step ids are legal and no check ids, and agents and type pass |
| RalphFlowProofs.DoWaitsForUpstreamChecks | harness_framework/ralph_flow_import.py:254-272 | the DO of a step depends, directly or not, on a check if and only if the check's step leads to it along on_pass |
| RalphFlowRuns.CompiledRollbacksBounded | harness_framework/ralph_flow_import.py:312-319 | a compiled step with one check that falls back to itself alone is sent back at most max_fail_count times between passes, in every run |
| RalphFlowRuns.CompiledRunsSafe | harness_framework/ralph_flow_import.py:254-324 | an acyclic compiled workflow whose steps each have one check that falls back to its own step keeps scheduler safety in every run, rollbacks included |
| RoutingBudget.ConsumedKeepsCounts | harness_framework/adaptive_control.py:579-602 | consuming an affordable route keeps total, edge counts and fingerprint counts equal to what was routed, summing alike, within the limits |
| RoutingBudget.BudgetBounds | harness_framework/adaptive_control.py:339-417 | in every interleaving at most one submission is in the locked part, total is the sum of edge counts and of fingerprint counts, each within its limit, and applied routes number at most total |
| RoutingBudget.AdaptiveControl.ConsumeRouteBudget | harness_framework/adaptive_control.py:579-602 | writes the increased counts exactly when no limit is broken, otherwise hands the source task to a human and leaves the budget |
| RoutingBudget.AdaptiveControl.ApplyLocked | harness_framework/adaptive_control.py:339-417 | alone, the locked part does what its steps do, whatever the invalidation and the new run write or where they raise, the release of its own lock included |
| RoutingBudget.AloneIsRun | harness_framework/adaptive_control.py:339-417 | that lone execution is one of the interleavings, with the writes of applying a route among those of others |
| RoutingBudgetExact.SubmissionAnswers | harness_framework/adaptive_control.py:339-417 | a submission, alone: under a taken lock it raises and writes nothing; otherwise it is applied if and only if total, edge and fingerprint counts are below the limits (8, 2 and 2 if none are stored) and applying does not raise; then each of the three counts is one more, else the source waits for a human; the lock is free again |
| RoutingBudgetExact.BudgetAttained | harness_framework/adaptive_control.py:579-602 | any number of routes up to max_total_routes on fresh edges with fresh fingerprints is consumed and applied in some run |

## Left out

- HTTP, processes, git, files, the dashboard and the registries: plumbing, or plain create-read-update-delete.
- `budgets`, `versioning`, `changesets`, `message_bus`, `human_interaction`: the read-then-swap pattern of the ledger with weaker consequences.
- Parallel and aggregate composite nodes: an aggregate activates its downstream without looking at the other dependencies, so scheduler safety is not meant for them.
- `retry_task` and the retry control: operator overrides that set PENDING unconditionally; the scheduler-safety and rollback statements are about runs without them.
- Several verifiers in one group, and checks whose fallback is another step, in the rollback bound: a finished sibling clears the shared budget, and a foreign target does not advance the round.
- `get_or_create_run` as a concurrent protocol.
- Times of day, audit events, prompts and other payload text; "expired", "routable" and the monotonic clock are arguments of the calls that ask.
- uuid4: attempt ids of claims and lock ids are new by the rules of the model, event ids by a precondition of `Append`.
- SHA-256: a parameter; the ledger compares the full key anyway.
- Key paths of the ledger, the claims and the routing budget are structured keys rather than slash-joined strings; journal keys are the strings themselves.
- Stored values that do not parse (broken JSON, non-numeric counters) are not modelled.
- Persistence, heartbeats, blocking reads and recursive reads of the local store.
- Python's recursion limit in the depth-first visit.
- Aggregator passes are atomic against the dispatcher's writes in the scheduler and rollback models; `EveryRunSafe` is about passes without rollback, `RollbacksBounded` and `EveryRollbackRunSafe` about passes with it. Questions and answers of `adaptive_control` act on workflow tasks, not on the instances of these models.
- More than one watchdog, and a watchdog that dies between its writes.
- TaskClaims.EachIntervalClosedOnce: does not say that an attempt closes its own interval, because the code allows it to close another; TaskOwnership says exactly when it does. The scripts of `skills/stage-bridge`, which claim tasks of other agents under attempt ids of their own, are not among the writers: others only ever clear attempt ids here.
- EventReplay.Journal.Append: whole appends are atomic there; interleaved ones are in EventAppenders, and EventSlowAppend shows what trimming then misses.
- EventReplay.Journal.constructor: one retention per journal; a journal reopened with a larger one would move trimmed_until back.
- EventReplay.Journal.Replay: needs fewer than 10^20 events, as the code does for its order.
- KvCursor.EncodedDecodes: foreign cursors with characters outside the alphabet or after the padding, non-ASCII bytes, insignificant JSON whitespace or members that are not strings read as invalid; the original skips or accepts some of these.
- RalphFlow.CompileWorkflow: step ids come trimmed; with an untrimmed id the original fails on a missing dictionary key.
- TemplateValidation.Manifest: parameters, parameter schemas and provenance are not checked; tasks given as an object, numeric ids and agents, types or budgets of other types than text and number are taken as converted or refused before.
- RoutingBudget.AdaptiveControl.ApplyLocked: what the invalidation and the new run write is an argument; it touches neither lock nor budget.
