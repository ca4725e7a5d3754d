# Verified models of the mmdash core state machines

Dafny 4.11 models, with proofs, of the parts of mmdash where correctness depends on
interleavings, crashes, leases or identities rather than on one function body:

| part | what it is about | modules |
|---|---|---|
| Box Gateway spool | executors, one synchronisation pass at a time, Core, crash and reload | `Spool`, `GatewayProtocol`, `GatewayDelivery`, `GatewayRuns`, `GatewayTheorems`, `GatewayStops`, `GatewayWitnesses`, `GatewayHistory`, `GatewayProgress`, `GatewayObject`, `LogBudget` |
| Run approvals | a queue of approvals per run, claimed under a lease, resolved over two channels | `Approvals`, `ApprovalTheorems`, `ApprovalEffects`, `ApprovalStore` |
| Commit operations | a leased work queue with several owners, retries and crashes | `CommitOperations`, `CommitQueue`, `CommitEffects`, `CommitStore` |
| Folders | a cycle-checked forest, path creation, deletion, and the tree built from a flat list | `FolderForest`, `FolderTransactions`, `FolderEffects`, `FolderStore`, `FolderTree` |
| Multipart blobs | the part plan in 64-bit arithmetic, the store, and splitting and joining files | `MultipartPlan`, `Blobs`, `SplitJoin`, `BlobEffects`, `BlobStore` |
| Reviews | block reviews and chapter reviews across flushes, restores and accepted patches | `Documents`, `DocumentTheorems`, `DraftCoherence`, `Drafts`, `ReviewTheorems`, `ReviewDecisions`, `ReviewEffects`, `ChapterTheorems`, `ChapterEffects`, `DraftStore` |

Each part has the same shape. Transition functions on values say what one critical section,
transaction or store call does. A theorem module proves what every run of them keeps. A
class (`GatewayObject`, `ApprovalStore`, `CommitStore`, `FolderStore`, `BlobStore`,
`DraftStore`) does the work as the source does it, field by field and loop by loop, and is
proved against the same functions, so the theorems speak about it.

The modules `ApprovalEffects`, `CommitEffects`, `FolderEffects`, `BlobEffects`, `ReviewEffects`,
`ChapterEffects`, `LogBudget`, `GatewayHistory` and `GatewayProgress` say what the transition
functions mean without using them: when an operation succeeds and what it leaves, written on
columns, bytes and steps alone, with the constants of the source spelled out; and that open
work can always go on.

`dafny verify dfyconfig.toml` checks everything.

## What is taken as given

- One transaction, one store call or one critical section of the Gateway's `mu` is one step.
- Database-generated orders increase with insertion; primary keys and unique indexes refuse a step and leave no trace.
- SHA-256 is injective: a fingerprint is the digested content itself. The MD5 part digest and ETag trimming are arbitrary functions.
- The Gateway's state file is always written. Core acknowledges only log entries it has received. The runtime writes nothing after its `Run` has returned.
- A Git workspace answers the same idempotency key with the same commit.
- Generated identities are fresh and not blank.

## Where the code does not do what its text says

- **Recursive folder deletion.** The comment at `folders_postgres.go:311` and the audit record intend the selected subtree to go. The second statement clears the parent edges of the whole subtree before the third computes the subtree again, so only the selected folder is deleted and its descendants become roots. The deletion is accepted exactly when the names that become names of roots are pairwise different up to case and free among the other roots (`RecursiveDeletionEffect`). It removes the subtree exactly when the folder has no children and no other root carries its name (`RecursiveDeletionRemovesSubtreeIff`). `ParentWithChildWitness` and `CollidingLeafWitness` show both ways to fail; the leaf of the second is refused although a plain deletion takes it.
- **Log delivery.** A last batch that Core acknowledges only in part is not sent again within the pass. `DeliveredBeforeDeleted` therefore states log delivery as an if-and-only-if on that acknowledgement; `NothingLostWhenCoreAcksInFull` is the case in which nothing is lost, and `RemovesAfterPartialAcknowledgement` is a run that loses an entry.
- **Retry delay.** The five-minute cap of `commitOperationRetry` is never reached: the delay stops at 128 seconds (`RetryDelayBackoff`).
- **Changed heading type.** `reconcileChapterTagState` has two branches for a heading that became another block. Its caller passes `currentExists` only for headings, and every stored tag has type `heading`, so a flush always reports the heading as missing (`RetypedHeadingReportedMissing`).
- **Stale flushes and reviews.** A block review does not advance the draft revision, so a flush that was prepared before a review is toggled and stored after it replaces the decision. A flush stores exactly the decisions of the draft it was prepared from (`FlushStoresDecisionOfPreparation`). Compared with the draft it replaces, the stored decision survives exactly when an even number of toggles lies between preparing and storing (`StaleFlushDecision`): with an odd number a withdrawn review comes back (`WithdrawnReviewComesBack`) and a given review is dropped (`GivenReviewIsDropped`). `StaleFlushAgreement` also covers a client that guessed a later revision.
- **Provenance of accepted patches.** It contains `reviewed_by`, so by `ToggleTwice` toggling the review of such a block twice restores its tag but not its provenance.
- **Stopped tasks.** `execute` dereferences the local record after queueing "uploading" (gateway.go:526-530). The record is missing there exactly when, since this executor was launched, a stop that had found no control removed it, or the cleanup that an earlier executor owed did (`RecordMissingExactly`). Stops that meet the executor's own control never take it away before the executor leaves (`OwnStopsKeepRecord`), so a missing record is announced at launch. `BuildsWithoutRecord` is a run that gets there.

## Model

| member | source | states |
|---|---|---|
| `GatewayTheorems.DeliveredBeforeDeleted` | box/gateway/gateway.go:661-735 | In every interleaving with crashes, a task that Core keeps continuing is removed only after Core took every status ever queued; a successful one only after its artifact and result. Every accepted log entry is then acknowledged if and only if Core acknowledged the last batch of the removing pass in full. |
| `GatewayTheorems.NothingLostWhenCoreAcksInFull` | box/gateway/gateway.go:762-818 | If Core acknowledges each batch through its last sequence, a removed task has every status taken and every log entry acknowledged and held by Core. |
| `GatewayTheorems.OnlyThePassRemoves` | box/gateway/gateway.go:727-734 | A task that Core never stopped disappears by the last step of a pass and by no other step. |
| `GatewayTheorems.RecordPresentWhileBuilding` | box/gateway/gateway.go:525-530 | If Core never stopped the task, its record exists while the executor builds the bundle. |
| `GatewayStops.RecordMissingExactly` | box/gateway/gateway.go:525-530 | In every run, the record is missing at the dereference if and only if, since this executor's launch, a stop that had found no control removed it or an earlier executor's owed cleanup did. |
| `GatewayStops.OwnStopsKeepRecord` | box/gateway/gateway.go:859-895 | If no removal was due at launch, the record is there at every stage that relies on it, however often Core stops the task. |
| `GatewayStops.EveryExecutorWasLaunched` | box/gateway/gateway.go:350-378 | Every executor at work has a launch since which it was at work throughout. |
| `GatewayStops.RunKeepsOrderly` | box/gateway/gateway.go:380-570 | Stopped or not, in every run a task with an executor that has not left is unfinished, and only a finished task is uploaded, reported or removed. |
| `GatewayWitnesses.BuildsWithoutRecord` | box/gateway/gateway.go:336-378 | A run of eighteen steps that reaches the dereference without the record: stopped while no control exists, launched before the pass removes the record. |
| `GatewayWitnesses.RemovesAfterPartialAcknowledgement` | box/gateway/gateway.go:796-817 | A run that is about to remove a task Core never stopped, one of whose log entries was never acknowledged. |
| `GatewayTheorems.LogsNeverLostOrRepeated` | box/gateway/gateway.go:762-818 | At every moment of every run, what Core acknowledged followed by the spooled entries above it is exactly what was ever accepted, numbered from 1 without gap; Core's own list is a prefix of it. |
| `GatewayTheorems.StatusesInOrderAcrossCrashes` | box/gateway/gateway.go:737-760 | With crashes and lost answers anywhere, Core sees the queued statuses in order, skips none, and repeats one only for an answer that was lost; without losses, delivered and pending statuses together are the queued sequence. |
| `GatewayTheorems.StopHandshake` | box/gateway/gateway.go:859-895 | Once applyStopAction, attachRuntime and the executor's exit have finished in any interleaving, the stopped task's record is gone and every attached runtime of a stopped control was told to cancel. |
| `GatewayTheorems.ControlsBounded` | box/gateway/gateway.go:350-359 | At most `MaxConcurrent` tasks have an executor and a control at any time. |
| `GatewayTheorems.RemovalIsComplete` | box/gateway/gateway.go:820-857 | The state just before removal: all statuses taken, terminal or with artifact and result at Core, and logs acknowledged exactly if the last batch was. |
| `GatewayRuns.RunKeepsInvariant` | box/gateway/gateway.go:319-378 | Every state of every run keeps log conservation, status order, delivery order, the stop handshake, the lock discipline and the capacity. |
| `GatewayRuns.LeaveSyncKeeps` | box/gateway/gateway.go:661-686 | The executor goes on from `queueStatus` only when no pass is under way; this is the step that waiting for `syncMu` makes safe. |
| `GatewayRuns.ReloadKeeps` | box/gateway/state.go:95-139 | A crash at any point, keeping only the persisted record, keeps every per-task invariant. |
| `GatewayDelivery.ExecutorKeepsDelivery` | box/gateway/gateway.go:380-568 | No executor step breaks the delivery order: past the status flush a concluding task has an empty queue and silent writers. |
| `GatewayDelivery.PassKeepsDelivery` | box/gateway/gateway.go:688-735 | No step of a pass breaks the delivery order, stopped tasks aside. |
| `GatewayDelivery.PassKeepsResultFirst` | box/gateway/gateway.go:820-857 | The record of a successful task outlives the upload and the report to Core. |
| `GatewayDelivery.PassKeepsLogs` | box/gateway/gateway.go:712-717 | Every step of a pass keeps log conservation, including the cumulative acknowledgement taken from a resume answer. |
| `GatewayDelivery.PassKeepsStatuses` | box/gateway/gateway.go:737-760 | Every step of a pass keeps the status queue and Core's list in step, paying each repetition with a lost answer. |
| `GatewayDelivery.PassKeepsStop` | box/gateway/gateway.go:870-895 | Every step of a pass keeps the promise of cleanup and the notice to cancel. |
| `Spool.BatchIsContiguous` | box/gateway/gateway.go:769-790 | A batch is the contiguous slice of at most 200 entries that starts one above the acknowledgement; nothing is sent only when everything is acknowledged. |
| `Spool.AcknowledgeKeepsSpooled` | box/gateway/gateway.go:796-812 | After an acknowledgement the spool is again exactly the tail of what was accepted. |
| `LogBudget.AcceptedIsLongestPrefix` | box/gateway/gateway.go:928-964 | For any writes and acknowledgements, exactly the longest prefix of the writes whose kept bytes fit the budget is taken; entry k + 1 carries the stream and the first 20000 bytes of write k; the spool holds the latest of these entries, all but those that a batch answer acknowledged; counters stand still after truncation. |
| `LogBudget.WriteTakes` | box/gateway/gateway.go:928-964 | One more write keeps the entries ever taken equal to what the budget takes of the writes, and the counters of the record in step with them. |
| `LogBudget.WriteEffect` | box/gateway/gateway.go:928-964 | A write that fits the budget appends the entry with the next sequence, the writer's stream and the first 20000 bytes; any other write only marks the record truncated. |
| `GatewayHistory.CoreReceivesWrites` | box/gateway/gateway.go:762-818 | In every run with crashes and lost answers, entry k of Core's list has sequence k + 1, and the stream and the first 20000 bytes of write number k of the runtime; exactly the longest prefix of the writes that fits the budget is accepted, and what Core lacks is in the spool. |
| `GatewayHistory.CoreHearsReports` | box/gateway/gateway.go:380-568 | In every run Core's statuses are the reports of the steps of `execute`, in order and none skipped; the record says started, finished, terminal, built or uploaded exactly if a step of that kind found it, and its phase is the one they last set. |
| `GatewayProgress.PassFlow` | box/gateway/gateway.go:688-735 | From any state of a task, a pass whose calls are all answered runs to its end: Core has the whole queue in order and all log entries, and the record is gone exactly if its result was pending or it was terminal. |
| `GatewayProgress.EveryTaskCanBeDelivered` | box/gateway/gateway.go:672-735 | From every reachable state without a pass under way, the run can go on with a pass over any task, and if its calls are answered everything of the task is delivered. |
| `GatewayObject.Gateway.StartTask` | box/gateway/gateway.go:319-334 | Ignores a task with an invalid identity, records an unknown one once, and launches it within the capacity. |
| `GatewayObject.Gateway.LaunchTask` | box/gateway/gateway.go:350-359 | Registers one control per task and never exceeds the capacity. |
| `GatewayObject.Gateway.Unfinished` | box/gateway/gateway.go:336-348 | Collects exactly the tasks whose runtime has not finished. |
| `GatewayObject.Gateway.AttachRuntime` | box/gateway/gateway.go:859-868 | Attaches to the live control and reports whether it was asked to stop. |
| `GatewayObject.Gateway.ApplyStop` | box/gateway/gateway.go:870-895 | Marks the control, or removes the record at once when there is none. |
| `GatewayObject.Gateway.ExitExecutor` | box/gateway/gateway.go:360-372 | Gives up the control and keeps a promised cleanup. |
| `GatewayObject.Gateway.CleanupTask` | box/gateway/gateway.go:897-912 | Removes exactly this record. |
| `GatewayObject.Gateway.QueueStatus` | box/gateway/gateway.go:661-670 | Appends to the queue of a known task and leaves unknown tasks alone. |
| `GatewayObject.Gateway.TerminalTask` | box/gateway/gateway.go:632-659 | Finishes the runtime, marks the task terminal and queues the terminal status. |
| `GatewayObject.Gateway.FlushStatuses` | box/gateway/gateway.go:737-760 | Removes exactly the confirmed prefix, the whole queue if every call is answered; Core saw that prefix and at most the next status besides. |
| `GatewayObject.Gateway.Write` | box/gateway/gateway.go:928-964 | One log write: the entry carries the writer's stream and the first 20000 bytes if they fit the budget (`WriteEffect`), and refused writes leave the spool alone. |
| `GatewayObject.Gateway.CollectBatch` | box/gateway/gateway.go:769-777 | The loop collects the first 200 unacknowledged entries. |
| `GatewayObject.Gateway.KeepAbove` | box/gateway/gateway.go:804-810 | The loop keeps exactly the entries above the acknowledgement. |
| `GatewayObject.Gateway.Acknowledge` | box/gateway/gateway.go:796-812 | The critical section after an acknowledged batch. |
| `GatewayObject.Gateway.FlushLogs` | box/gateway/gateway.go:762-818 | With no writer running and batches acknowledged in full it terminates, succeeds if every call is answered, and on success Core holds every entry ever accepted. |
| `GatewayObject.Gateway.FinishBundle` | box/gateway/gateway.go:556-566 | Makes the result pending on a known task. |
| `GatewayObject.Gateway.FlushBundle` | box/gateway/gateway.go:820-857 | Uploads only what Core does not have, removes the record only after Core accepted the result, and succeeds if every call is answered. |
| `GatewayObject.Gateway.SyncTask` | box/gateway/gateway.go:688-735 | Undisturbed: a failed resume changes nothing, a stop marks the control or removes the record, and after "continue" a pass succeeds if every call is answered; one that succeeds leaves Core with the whole queue and all logs, and removes the task exactly if its result was pending or it was terminal. |
| `GatewayObject.Gateway.AcknowledgeResume` | box/gateway/gateway.go:712-717 | Takes over the acknowledgement of the resume answer if it is ahead. |
| `GatewayObject.Gateway.DeliverTask` | box/gateway/gateway.go:718-734 | The deliveries after a "continue" answer, in order, each only if the one before succeeded; all of them succeed if every call is answered. |
| `ApprovalTheorems.QueueDiscipline` | backend/internal/agent/postgres.go:803-1207 | In every sequence of transactions at most one approval is being responded to, it is the lowest-order open one, and a running or ended run has no open approval. |
| `ApprovalTheorems.ClosedForever` | backend/internal/agent/postgres.go:803-853 | A resolved or expired approval never changes again, even if it is recorded again. |
| `ApprovalTheorems.ClaimsAreLeaseApart` | backend/internal/agent/postgres.go:855-898 | Two successful claims of one approval without a release between them are at least the ten-minute lease apart, whatever else happens. |
| `ApprovalTheorems.TakenOverClaimIsPowerless` | backend/internal/agent/postgres.go:900-984 | After a takeover, completing or releasing with the old claim is refused and changes nothing, at any later time. |
| `ApprovalTheorems.ChannelsCommute` | backend/internal/agent/postgres.go:934-1034 | From a claimed approval the HTTP completion and the targeted event both succeed in either order exactly when the run waits; they reach the same run up to times, resolve one approval and bump the version once. |
| `ApprovalTheorems.SlowerChannelSucceeds` | backend/internal/agent/service.go:1321-1487 | After one channel resolved the approval and any operations followed, the other channel is still answered with success and changes nothing. |
| `ApprovalTheorems.ResolvingCountsOne` | backend/internal/agent/postgres.go:1084-1115 | Resolving an unresolved approval raises the number of resolved ones by one. |
| `ApprovalEffects.ClaimEffect` | backend/internal/agent/postgres.go:872-886 | A claim succeeds if and only if the run waits, no row of lower order is open, and the row is pending or was last touched at least ten minutes ago while responding; then the row is responding under the new token since now and nothing else changes. |
| `ApprovalEffects.RecordedIsClaimable` | backend/internal/agent/postgres.go:817-886 | An approval recorded while no other is open can be claimed at the same instant and at any later one. |
| `ApprovalEffects.ReleasedIsClaimable` | backend/internal/agent/postgres.go:900-932 | A released row can be claimed again at once, under any token. |
| `ApprovalEffects.QueueDrains` | backend/internal/agent/postgres.go:855-984 | Once earlier leases are over, one client can claim and complete the open approvals of a waiting run one after another; then all of them are resolved, closed ones are untouched and the run is running. |
| `ApprovalEffects.RecordEffect` | backend/internal/agent/postgres.go:803-853 | Recording is refused exactly for an ending run; a new approval joins the queue as pending and makes the run wait; a closed one changes nothing. |
| `ApprovalEffects.ReleaseEffect` | backend/internal/agent/postgres.go:900-932 | A release succeeds if and only if the row is responding under this token; it is pending again, and nothing else changes. |
| `ApprovalEffects.CompleteEffect` | backend/internal/agent/postgres.go:934-984 | The exact outcome of the HTTP completion in every state of row and run; the run waits on exactly as long as another row is open. |
| `ApprovalEffects.RespondEffect` | backend/internal/agent/postgres.go:986-1034 | The exact outcome of the targeted event in every state of row and run. |
| `ApprovalEffects.RespondNextEffect` | backend/internal/agent/postgres.go:1036-1082 | The untargeted event succeeds exactly if the run waits with an open row, and resolves the open row of lowest order. |
| `ApprovalEffects.UpdateEffect` | backend/internal/agent/postgres.go:1117-1207 | An ending status expires every open row and clears its claim; "running" becomes waiting while a row is open; closed rows stay. |
| `ApprovalEffects.UnknownIsRefused` | backend/internal/agent/postgres.go:855-1034 | Claim, release, completion and event for an unknown approval are refused without effect. |
| `Approvals.FirstOpen` | backend/internal/agent/postgres.go:1036-1082 | The open approval with the lowest order, if any is open. |
| `ApprovalStore.Store.RecordRunApproval` | backend/internal/agent/postgres.go:803-853 | The transaction, row by row, does what the specification says: inserts once, and starts waiting unless the row is closed. |
| `ApprovalStore.Store.ClaimRunApproval` | backend/internal/agent/postgres.go:855-898 | Claims the lowest open row of a waiting run if it is pending or its lease has expired, and refuses everything else without effect (`ClaimEffect`). |
| `ApprovalStore.Store.ReleaseRunApprovalClaim` | backend/internal/agent/postgres.go:900-932 | Returns a row to pending under its own claim only. |
| `ApprovalStore.Store.CompleteRunApproval` | backend/internal/agent/postgres.go:934-984 | Resolves under the claim; repeating a completed claim succeeds without effect. |
| `ApprovalStore.Store.ApplyRunApprovalResponse` | backend/internal/agent/postgres.go:986-1034 | Resolves the named row; a resolved row is answered with success. |
| `ApprovalStore.Store.ApplyNextRunApprovalResponse` | backend/internal/agent/postgres.go:1036-1082 | Resolves the lowest open row of a waiting run. |
| `ApprovalStore.Store.UpdateRun` | backend/internal/agent/postgres.go:1117-1207 | Keeps a run with open approvals waiting, and expires all open rows when the run ends. |
| `ApprovalStore.Store.ExpireOpen` | backend/internal/agent/postgres.go:1117-1207 | The loop closes every open row and touches no other. |
| `ApprovalStore.Store.ResolveRow` | backend/internal/agent/postgres.go:1084-1115 | Resolving a row sets the run to waiting or running by what is still open. |
| `CommitQueue.NoTwoUnexpiredLeases` | backend/internal/article/commit_operations.go:140-221 | In every run, with crashes and abandoned work, no two attempts hold unexpired leases on one operation, and the holder is the one named on the row. |
| `CommitQueue.TakenOverWorkIsPowerless` | backend/internal/article/commit_operations.go:210-332 | Work for an attempt that is no longer current can renew, bind, finish or fail and changes no table. |
| `CommitQueue.OverlappingClaimBreaksFence` | backend/internal/article/commit_operations.go:430-468 | A run of coordinators that do not wait for their earlier work: the stale first attempt binds and finishes the operation while the second attempt is at work on it. |
| `CommitQueue.ClaimedAtMostMaxAttempts` | backend/internal/article/commit_operations.go:140-208 | `attempts` counts the claims of an operation and never exceeds `max_attempts`. |
| `CommitQueue.EveryClaimDescends` | backend/internal/article/commit_operations.go:140-208 | Between any two states of a run operations only advance: final rows stay, a bound commit is never replaced, and each claim uses up an attempt. |
| `CommitQueue.SucceededIsCommitted` | backend/internal/article/commit_operations.go:223-311 | A succeeded operation names a recorded commit. |
| `CommitQueue.RunKeepsInvariant` | backend/internal/article/commit_operations.go:140-332 | Rows and work items agree in every run: while a row runs under an owner's name it is that owner's latest attempt. |
| `CommitEffects.ClaimPicksReady` | backend/internal/article/commit_operations.go:159-166 | A claim may pick exactly the rows that are queued, running or waiting for a retry, have an attempt left, are due and carry no unexpired lease. |
| `CommitEffects.ClaimEffect` | backend/internal/article/commit_operations.go:150-173 | One claim: picked rows run under the owner's name with one more attempt and a full lease, rows that used their attempts fail with their last error, all others stay; each picked row is handed out once. |
| `CommitEffects.NoOpenRowIsStuck` | backend/internal/article/commit_operations.go:150-166 | In every reachable state an open row has an unexpired lease, or is not running and waits for its time, or has used its attempts, or can be claimed now by any idle coordinator; a row that used its attempts fails with the next claim once its lease has passed. |
| `CommitEffects.RetriedWhenDue` | backend/internal/article/commit_operations.go:313-332 | Over runs: after a failure that is not terminal, with attempts left, and until a claim picks the row again, it keeps its error and an idle coordinator can claim it if and only if its retry time has come. |
| `CommitEffects.EveryOperationCanEnd` | backend/internal/article/commit_operations.go:430-589 | From every reachable state any idle coordinator can bring an open operation to its end in at most four steps: success if an attempt is left and its commit can be recorded, failure if not. |
| `CommitEffects.StatementEffect` | backend/internal/article/commit_operations.go:210-332 | Renewing, finishing and failing, column by column: without the row under the owner's name nothing changes, and no other row ever does. |
| `CommitEffects.BindEffect` | backend/internal/article/commit_operations.go:223-297 | Binding adopts a commit that is recorded under the hash, records the row's own ID otherwise, and changes nothing if another commit has that ID. |
| `CommitEffects.RunKeepsFit` | backend/internal/article/commit_operations.go:140-332 | In every run status, stage, attempts, due time and error of a row belong together. |
| `CommitStore.TerminalExactly` | backend/internal/article/commit_operations.go:591-617 | Given up for good are exactly a changed head, an empty or invalid commit, and an invalid, conflicting or dangling publication. |
| `CommitStore.OrderIsTotal` | backend/internal/article/commit_operations.go:165 | Claims are ordered by due time and then by age. |
| `CommitOperations.RetryDelayBackoff` | backend/internal/article/commit_operations.go:619-631 | The delay doubles from one second, never shrinks and stops at 128 seconds. |
| `CommitStore.Store.PickEarliest` | backend/internal/article/commit_operations.go:159-166 | The loop takes the earliest rows up to the limit, in order of next attempt and creation. |
| `CommitStore.Store.ClaimCommitOperations` | backend/internal/article/commit_operations.go:140-208 | Fails exhausted rows, claims the earliest unlocked claimable rows up to the limit, and touches no other row; which rows these are is `ClaimPicksReady`. |
| `CommitStore.Store.RenewCommitOperationLease` | backend/internal/article/commit_operations.go:210-221 | Extends the lease under the owner's name only. |
| `CommitStore.Store.BindCommitOperation` | backend/internal/article/commit_operations.go:223-297 | Records or finds the commit and binds it; a refused update leaves neither table changed. |
| `CommitStore.Store.CompleteCommitOperation` | backend/internal/article/commit_operations.go:299-311 | Succeeds under the owner's name only. |
| `CommitStore.Store.FailCommitOperation` | backend/internal/article/commit_operations.go:313-332 | Fails for good when the error is terminal or the attempts are used up, otherwise schedules a retry. |
| `CommitStore.Coordinator.Process` | backend/internal/article/commit_operations.go:470-589 | With lease renewals before the answer: a row that runs under this owner leaves it, succeeding exactly if its kind is known and commit, binding and publication succeeded; otherwise it keeps the error and fails for good exactly if error or attempt was final; a row that was taken over is not touched. |
| `CommitStore.Coordinator.KeepLease` | backend/internal/article/commit_operations.go:489-507 | Renewals touch nothing but the lease, and nothing at all once the row was taken over. |
| `CommitStore.Coordinator.RunOnce` | backend/internal/article/commit_operations.go:430-468 | Returns only when every claimed row was settled; every other row is unchanged or exhausted. |
| `FolderTransactions.EveryRunKeepsForest` | backend/internal/artifact/folders_postgres.go:20-411 | Any sequence of folder transactions keeps the graph acyclic with every parent present, keeps sibling names unique up to case, loses no artifact and leaves none in a missing folder. |
| `FolderTransactions.RecursiveDeletionEffect` | backend/internal/artifact/folders_postgres.go:293-350 | A recursive deletion, stated without its steps: it is accepted if and only if the names of the subtree are distinct and free among the other roots; then the selected folder goes, its descendants become roots, the artifacts of the subtree are unfiled, and everything stays sound. |
| `FolderTransactions.RecursiveDeletionRemovesSubtreeIff` | backend/internal/artifact/folders_postgres.go:311-344 | For every project and folder, the subtree is removed, as the comment intends, if and only if the folder has no children and no other root has its name up to case. |
| `FolderTransactions.ParentWithChildWitness` | backend/internal/artifact/folders_postgres.go:311-344 | Failing input: the child of a recursively deleted folder survives as a root. |
| `FolderTransactions.CollidingLeafWitness` | backend/internal/artifact/folders_postgres.go:314-330 | Failing input: the recursive deletion of a leaf that carries a root's name is refused, the plain one is accepted. |
| `FolderTransactions.EnsurePathEffect` | backend/internal/artifact/folders_postgres.go:52-113 | The returned folder's ancestor names spell the path up to case; existing folders are untouched and no two siblings differ only in case. |
| `FolderTransactions.EnsurePathIsIdempotent` | backend/internal/artifact/folders_postgres.go:52-113 | Ensuring the path again, with other generated IDs, returns the same folder and adds none. |
| `FolderTransactions.ExistingPathIsFound` | backend/internal/artifact/folders_postgres.go:82-93 | A path that is already spelled out is found and nothing is created. |
| `FolderEffects.MoveEffect` | backend/internal/artifact/folders_postgres.go:195-262 | A move is refused exactly for a missing folder, itself as parent, a missing parent, a parent in its own subtree or a taken name, in this order; an accepted one sets the requested parent and the requested or old position, and keeps the name, every other folder and every artifact. |
| `FolderEffects.MoveMovesSubtree` | backend/internal/artifact/folders_postgres.go:195-262 | After an accepted move the moved folder and those below it keep their subtrees; every other folder has exactly the moved subtree more if the new parent lies below it, and none of it otherwise. |
| `FolderEffects.CreateEffect` | backend/internal/artifact/folders_postgres.go:20-47 | A folder is created under the requested parent, behind its last child; refused exactly for an invalid name, a taken identity or name, or a missing parent; nothing else changes. |
| `FolderEffects.RenameEffect` | backend/internal/artifact/folders_postgres.go:169-193 | A rename changes the name and nothing else; refused exactly for a missing folder, an invalid or a taken name. |
| `FolderEffects.PlainDeletionEffect` | backend/internal/artifact/folders_postgres.go:272-379 | A plain deletion removes a folder without children, unfiles its artifacts and changes nothing else; a folder with children is refused. |
| `FolderEffects.RecursiveDeletionOnFields` | backend/internal/artifact/folders_postgres.go:293-350 | What an accepted recursive deletion leaves, folder by folder and artifact by artifact. |
| `FolderEffects.FilingEffect` | backend/internal/artifact/folders_postgres.go:381-411 | Filing succeeds exactly for an artifact that is not trashed and a folder that exists, and changes the artifact's folder alone. |
| `FolderEffects.EnsurePathAddsBranch` | backend/internal/artifact/folders_postgres.go:52-113 | With unused identities and valid names a path is always ensured: its longest existing part is found, and exactly one folder is added for each remaining segment, each inside the one before, the first behind the children that were there. |
| `FolderEffects.InvalidNameIsRefused` | backend/internal/artifact/folders_postgres.go:52-113 | One invalid name refuses the whole path. |
| `FolderForest.MoveKeepsForest` | backend/internal/artifact/folders_postgres.go:195-262 | Moving outside one's own subtree keeps the forest. |
| `FolderForest.MoveBelowItselfBreaksForest` | backend/internal/artifact/folders_postgres.go:226-241 | The cycle check is necessary: any move it refuses would break the forest. |
| `FolderForest.DetachedSubtreeIsAlone` | backend/internal/artifact/folders_postgres.go:314-344 | After the second statement the selected folder's subtree is that folder alone. |
| `FolderStore.Store.Descendants` | backend/internal/artifact/folders_postgres.go:227-241 | The recursive query, which removes no duplicates, ends on a forest and returns exactly the subtree. |
| `FolderStore.Store.NextPosition` | backend/internal/artifact/folders_postgres.go:29-33 | One more than the greatest sibling position, or 0. |
| `FolderStore.Store.CreateFolder` | backend/internal/artifact/folders_postgres.go:20-47 | Takes effect as specified or is refused without a trace. |
| `FolderStore.Store.RenameFolder` | backend/internal/artifact/folders_postgres.go:169-193 | Takes effect as specified or is refused without a trace. |
| `FolderStore.Store.MoveFolder` | backend/internal/artifact/folders_postgres.go:195-262 | Puts the folder under the requested parent at the requested or old position, after refusing exactly the missing folder, missing parent, cycle and taken name, in this order (`MoveEffect`). |
| `FolderStore.Store.DeleteFolder` | backend/internal/artifact/folders_postgres.go:264-379 | Both modes, statement by statement. |
| `FolderStore.Store.FileArtifact` | backend/internal/artifact/folders_postgres.go:381-411 | Moves an artifact that is not trashed into a folder that exists. |
| `FolderStore.Store.EnsureSegment` | backend/internal/artifact/folders_postgres.go:60-108 | Creates the segment unless its ID or name is taken, and otherwise resolves it by folded name. |
| `FolderStore.Store.EnsureFolderPath` | backend/internal/artifact/folders_postgres.go:52-113 | The loop over the segments is the recursive specification, rolled back on failure. |
| `FolderTree.TreeHoldsRootedFoldersOnce` | backend/internal/artifact/folders_postgres.go:141-167 | For any flat list with distinct IDs, cycles and dangling parents included, the tree holds each folder whose chain reaches a root exactly once and no other. |
| `FolderTree.SiblingsKeepListOrder` | backend/internal/artifact/folders_postgres.go:146-166 | Roots and siblings appear in list order, each node with its own row and its own children. |
| `FolderTree.DepthIsBounded` | backend/internal/artifact/folders_postgres.go:154-161 | A chain to a root is shorter than the number of folders; this bounds the recursion on any list. |
| `FolderTree.FillTables` | backend/internal/artifact/folders_postgres.go:141-153 | The loop builds the row map, the child lists and the root list in list order. |
| `FolderTree.BuildFolderTree` | backend/internal/artifact/folders_postgres.go:141-167 | The procedure terminates on every such list and returns the specified forest. |
| `FolderTree.BuildNode` | backend/internal/artifact/folders_postgres.go:154-161 | One call of the recursive closure returns the specified subtree. |
| `MultipartPlan.PlanSucceedsExactly` | backend/internal/artifact/blobstore.go:114-149 | A plan is found if and only if 0 <= size <= maximum <= 5 TiB, maximum >= 1 and the configured size is within provider limits; the last two refusals never happen. All arithmetic stays within int64. |
| `MultipartPlan.PartBytesAreLeast` | backend/internal/artifact/blobstore.go:130-137 | The part size is the least MiB multiple that is at least the configured size and fits the object into 10000 parts. |
| `MultipartPlan.PlanCovers` | backend/internal/artifact/blobstore.go:138-148 | The parts cover the object with none to spare, within the part limit. |
| `MultipartPlan.PartSizeIsInterval` | backend/internal/artifact/blobstore.go:152-164 | On such a plan nothing wraps around, each part is exactly its interval of the object, and every non-final part is full. |
| `MultipartPlan.PartsSumToSize` | backend/internal/artifact/blobstore.go:152-164 | For every valid request the part sizes sum to the object size. |
| `MultipartPlan.DivideRoundUp` | backend/internal/artifact/blobstore.go:184-189 | The least quotient whose multiple reaches the value. |
| `MultipartPlan.RoundUp` | backend/internal/artifact/blobstore.go:191-196 | A multiple of the boundary, at least the value and less than one boundary above it. |
| `SplitJoin.SplitJoin` | backend/internal/artifact/local_blobstore.go:123-317 | The planned slices, put in any order with any repeats among broken transfers and foreign operations, and then completed, store exactly the file; it fails only on parts beyond the plan or a taken key. |
| `SplitJoin.RunKeepsUploading` | backend/internal/artifact/local_blobstore.go:123-183 | Throughout such a run the upload holds what it held before plus the slices sent. |
| `SplitJoin.JoiningGivesFile` | backend/internal/artifact/local_blobstore.go:260-284 | Joining the slices in order gives the file. |
| `SplitJoin.CompletingSlices` | backend/internal/artifact/local_blobstore.go:225-317 | The outcome and the new store contents of completing an upload that holds every slice, in all three cases. |
| `SplitJoin.CompletionIsExact` | backend/internal/artifact/local_blobstore.go:225-317 | Completing succeeds only with the list that names every stored part in its place; the object is these parts in order and has the requested total size. |
| `SplitJoin.ObjectsChangeOnlyBy` | backend/internal/artifact/local_blobstore.go:379-419 | An object leaves its key if and only if it is deleted or promoted away, and promotion moves its bytes to a free key. |
| `SplitJoin.StoredBytesNeverChange` | backend/internal/artifact/local_blobstore.go:225-407 | No sequence of other operations changes the bytes under an existing key. |
| `BlobEffects.CompletionSucceedsExactly` | backend/internal/artifact/local_blobstore.go:225-317 | Completing succeeds if and only if the handle names an open upload, the list names every stored part by number, size and digest, and the key is free; then the object appears, the upload closes and nothing else changes. |
| `BlobEffects.PartsLieInOrder` | backend/internal/artifact/local_blobstore.go:255-284 | In the completed object every part lies, byte for byte, where the sizes of the parts before it say. |
| `BlobEffects.PutEffect` | backend/internal/artifact/local_blobstore.go:123-183 | A part is kept if and only if its number is in range, the upload is open and as many bytes arrive as announced; it replaces the part of that number and touches nothing else. |
| `BlobEffects.AbortEffect` | backend/internal/artifact/local_blobstore.go:320-335 | Aborting removes exactly the named upload and fails only on an invalid key. |
| `BlobEffects.CreateEffect` | backend/internal/artifact/local_blobstore.go:76-108 | Opening adds an upload without parts if and only if key and identity are fit for it. |
| `BlobEffects.PromoteEffect` | backend/internal/artifact/local_blobstore.go:379-407 | Promotion succeeds if and only if the source is there and the destination free; it moves the bytes and touches nothing else. |
| `BlobEffects.DeleteEffect` | backend/internal/artifact/local_blobstore.go:410-419 | Deleting removes exactly this key. |
| `BlobStore.LocalBlobStore.CreateMultipart` | backend/internal/artifact/local_blobstore.go:76-108 | Opens an empty upload under an unused identity. |
| `BlobStore.LocalBlobStore.PutPart` | backend/internal/artifact/local_blobstore.go:123-183 | Replaces a part exactly if the announced number of bytes arrives, and is refused without a trace otherwise. |
| `BlobStore.LocalBlobStore.ListUploadedParts` | backend/internal/artifact/local_blobstore.go:186-221 | The stored parts with number, size and digest, in ascending order. |
| `BlobStore.LocalBlobStore.CompareCompletedParts` | backend/internal/artifact/local_blobstore.go:508-525 | The loop accepts exactly the gap-free list that equals the stored parts. |
| `BlobStore.LocalBlobStore.CompleteMultipart` | backend/internal/artifact/local_blobstore.go:225-317 | The copying loop publishes the parts in order, never over an existing object, and closes the upload. |
| `BlobStore.LocalBlobStore.AbortMultipart` | backend/internal/artifact/local_blobstore.go:320-335 | Drops exactly this upload; a missing one is no error. |
| `BlobStore.LocalBlobStore.PromoteObject` | backend/internal/artifact/local_blobstore.go:379-407 | Moves an object to a free key. |
| `BlobStore.LocalBlobStore.DeleteObject` | backend/internal/artifact/local_blobstore.go:410-419 | Removes one key, present or not. |
| `BlobStore.UploadParts` | backend/internal/artifact/model_import.go:108-127 | The part loop, from a fresh or left-over session: it sends exactly the planned slices and copies the whole file. |
| `BlobStore.Archive` | backend/internal/artifact/article.go:177-211 | Upload and completion store the file whole exactly when the session holds nothing beyond the plan and the key is free; the size check cannot fail. |
| `DocumentTheorems.ClientTagsAreIgnored` | backend/internal/article/document.go:127-154 | Two documents that differ only in the tags and provenance of their top-level nodes are prepared identically or refused identically. |
| `DocumentTheorems.SanitizeTwice` | backend/internal/article/document.go:918-960 | Sanitizing is idempotent on every document tree. |
| `DocumentTheorems.SanitizedIsSafe` | backend/internal/article/document.go:918-960 | Nowhere in the tree does a transient address or signed image source survive, and the plain text is unchanged. |
| `DocumentTheorems.SanitizedExactly` | backend/internal/article/document.go:918-960 | Sanitizing removes transient addresses of artifact references and signed image sources everywhere in the tree, and nothing else. |
| `DocumentTheorems.CoreOfNormalized` | backend/internal/article/document.go:19-65 | The fingerprinted content of a normalized node depends on the content of the node alone. |
| `DraftCoherence.PreparedIsCoherent` | backend/internal/article/document.go:19-71 | What is prepared is a coherent draft: each block projects its node, is clean, identified and known by its fingerprint. |
| `DraftCoherence.ReflushChangesNothing` | backend/internal/article/document.go:127-154 | Sending a stored document back, with any review attributes, changes no block, tag, provenance or time. |
| `ReviewEffects.SameCoreExactly` | backend/internal/article/document.go:183-201 | Two nodes have the same fingerprint if and only if they agree in everything but the attributes tag and provenance. |
| `ReviewEffects.ReviewedContentIsUnchanged` | backend/internal/article/postgres.go:123-203 | In every reachable draft a reviewed block was accepted by an earlier review, and its node has the content that it had then, tag and provenance aside. |
| `ReviewEffects.ReviewFollowsContent` | backend/internal/article/service.go:254-270 | In what a write is about to store, a block is reviewed if and only if the stored block of its identity is reviewed and its node has the same content, tag and provenance aside. |
| `ReviewEffects.PreparesExactly` | backend/internal/article/document.go:19-50 | A document is prepared if and only if it is one, each top-level node is an object with a type, and there are identities for those without. |
| `ReviewEffects.PreparedRepresents` | backend/internal/article/document.go:19-71 | Each prepared node and block is the item of the document in its place: its content cleaned, its own identity or the next generated one, its type and its text. |
| `ReviewEffects.ReviewBlockEffect` | backend/internal/article/postgres.go:162-203 | A review succeeds if and only if the block is there with the expected fingerprint; it turns the review of this block over, with actor, time and the tag to return to, and touches nothing else. |
| `ReviewEffects.PersistEffect` | backend/internal/article/postgres.go:112-160 | Storing succeeds if and only if the patch is still proposed, the revision is the expected one, identities are distinct and there are identities for new chapter tags; otherwise nothing changes. |
| `ReviewEffects.TextIsRead` | backend/internal/article/document.go:669-681 | The text of a node is its own text or that of its content, in order. |
| `ReviewTheorems.ReviewedWasAccepted` | backend/internal/article/postgres.go:123-203 | In every reachable draft a block tagged reviewed was accepted by an earlier block review with exactly its present fingerprint, whatever clients, restores, patches and stale flushes carried. |
| `ReviewTheorems.FlushDecides` | backend/internal/article/service.go:254-270 | In what a flush stores, a block is reviewed if and only if the stored block of that identity was reviewed with the same fingerprint; unchanged blocks keep tag, provenance and time, edited ones become revisions and new ones drafts of the writer. |
| `ReviewDecisions.FlushStoresDecisionOfPreparation` | backend/internal/article/service.go:239-270 | In every run a stored block is reviewed if and only if the block of its identity was reviewed with the same content when the flush was prepared, whatever happened to reviews since. |
| `ReviewDecisions.StaleFlushDecision` | backend/internal/article/postgres.go:123-203 | Between preparing and storing, exactly as many flushes are stored as the expected revision is ahead; with none, a block is reviewed after the flush if and only if the replaced draft holds it with the same content and its decision there agrees with an even number of toggles since. |
| `ReviewDecisions.StaleFlushAgreement` | backend/internal/article/postgres.go:123-203 | The same comparison measured from any state since which no flush was stored, for every expected revision. |
| `ReviewDecisions.TogglesDecide` | backend/internal/article/postgres.go:162-203 | While no flush is stored, blocks keep identity and content, and each review is turned over exactly by an odd number of toggles. |
| `ReviewDecisions.RevisionCountsStores` | backend/internal/article/postgres.go:123-160 | The revision advances by one with every stored flush and with nothing else. |
| `ReviewDecisions.WithdrawnReviewComesBack` | backend/internal/article/postgres.go:162-203 | A run in which a review withdrawn after a flush was prepared is back once the flush is stored. |
| `ReviewDecisions.GivenReviewIsDropped` | backend/internal/article/postgres.go:162-203 | A run in which a review given after a flush was prepared is gone once the flush is stored. |
| `ReviewTheorems.StoringAgainKeepsReviews` | backend/internal/article/service.go:833-849 | In every reachable draft, storing the stored document again prepares exactly the stored blocks. |
| `ReviewTheorems.ToggleTwice` | backend/internal/article/postgres.go:162-213 | Toggling a review twice restores the tag; the provenance comes back if and only if it had no review entries. |
| `ReviewTheorems.DraftsStayCoherent` | backend/internal/article/postgres.go:123-160 | Every reachable draft and every write under way is coherent. |
| `ReviewTheorems.StepEffect` | backend/internal/article/postgres.go:313-337 | Only preparing adds writes under way, and only storing, with or without accepting a patch, and reviewing change blocks. |
| `ChapterEffects.SamePrintExactly` | backend/internal/article/document.go:203-215 | Two blocks have the same heading fingerprint if and only if they agree in type, in text and in every attribute other than id, tag and provenance. |
| `ChapterEffects.ReviewedChapterIsUnchanged` | backend/internal/article/chapter_tags_postgres.go:147-260 | In every reachable state a chapter marked reviewed was reviewed by an earlier step, by the actor it names, and its heading has the type, the text and the remaining attributes that it had then. |
| `ChapterEffects.FlushKeepsReviewExactly` | backend/internal/article/chapter_tags_postgres.go:207-260 | After a stored flush a reviewed tag is still reviewed if and only if its heading is there with the type, text and remaining attributes it had when it was reviewed; otherwise a review is due, because the heading is missing or because its content changed. |
| `ChapterEffects.FlushMakesTags` | backend/internal/article/chapter_tags_postgres.go:245-258 | A stored flush makes a tag for every heading that had none, bound to the heading as stored, unedited if its text is blank and unreviewed otherwise. |
| `ChapterEffects.ReconcileEffect` | backend/internal/article/chapter_tags.go:22-43 | What a flush does to one tag, read off its heading: untouched exactly if the heading is there and shows the digest of the tag. |
| `ChapterEffects.EditedHeadingLosesReview` | backend/internal/article/chapter_tags.go:32-38 | A reviewed tag whose heading got another text needs review because of its content. |
| `ChapterEffects.ReviewTagEffect` | backend/internal/article/chapter_tags_postgres.go:147-205 | Reviewing succeeds if and only if the heading is in the draft and shows the digest of the tag; otherwise the tag is marked as missing, of another type or changed, and the caller gets a conflict. |
| `ChapterEffects.UpdateTagEffect` | backend/internal/article/chapter_tags_postgres.go:97-128 | An update succeeds if and only if the status is an unreviewed one and the heading is there; it binds the tag to what the heading shows now. |
| `ChapterEffects.CreateTagEffect` | backend/internal/article/chapter_tags.go:116-149 | Creating succeeds exactly for a heading with an identity and an unreviewed status; a heading that has a tag keeps it. |
| `ChapterEffects.DeleteTagEffect` | backend/internal/article/chapter_tags_postgres.go:130-145 | Deletes one tag and keeps all others in order. |
| `ChapterTheorems.ReviewedChapterMatchesHeading` | backend/internal/article/chapter_tags_postgres.go:97-260 | In every reachable state a reviewed chapter tag has its heading in the draft, as a heading, with the fingerprint it was reviewed at (what that covers is `SamePrintExactly`); no heading has two tags. |
| `ChapterTheorems.FlushesNeverClearReview` | backend/internal/article/postgres.go:146-154 | No number of flushes, restores, patches and block reviews takes a tag from reviewed or needs-review to unedited or unreviewed. |
| `ChapterTheorems.FlushBindsHeadings` | backend/internal/article/chapter_tags_postgres.go:207-260 | After a stored flush every heading has a tag, every tag is bound to its present heading or waits for review because it is gone, and a reviewed tag stays reviewed if and only if its heading is unchanged. |
| `ChapterTheorems.ReconciledTag` | backend/internal/article/chapter_tags.go:22-43 | What reconciling does to one tag, by cases on its heading. |
| `ChapterTheorems.RetypedHeadingReportedMissing` | backend/internal/article/chapter_tags.go:22-43 | A heading that became another block is reported missing; the changed-type reason never comes from a flush. |
| `ChapterTheorems.TagsStaySound` | backend/internal/article/chapter_tags_postgres.go:37-260 | Every step keeps one tag per heading and every review bound to its heading. |
| `DraftStore.Normalize` | backend/internal/article/document.go:19-65 | The loop normalizes the nodes in order and fails as the specification does. |
| `DraftStore.ReconcileBlockTags` | backend/internal/article/document.go:127-154 | The loop settles tags, provenance and times in place, in the blocks and in the shared node attributes. |
| `DraftStore.Store.PrepareProjectDraft` | backend/internal/article/service.go:254-270 | Normalizes, reads the stored draft and reconciles. |
| `DraftStore.Store.InsertBlocks` | backend/internal/article/postgres.go:140-145 | The insertion loop fails exactly on a repeated identity. |
| `DraftStore.Store.PersistDraft` | backend/internal/article/postgres.go:123-160 | One transaction: revision check, block replacement, chapter tags, and the patch when one is accepted. |
| `DraftStore.Store.ReconcileChapterTags` | backend/internal/article/chapter_tags_postgres.go:207-260 | The two loops over existing tags and untagged headings; each tag is settled as `ReconcileEffect` and `FlushMakesTags` say. |
| `DraftStore.Store.ReviewOneBlock` | backend/internal/article/postgres.go:162-203 | Toggles the review of a block whose fingerprint is the expected one. |
| `DraftStore.Store.UpdateChapterTag` | backend/internal/article/chapter_tags_postgres.go:97-128 | Binds a tag to its present heading with an editable status. |
| `DraftStore.Store.ReviewChapterTag` | backend/internal/article/chapter_tags_postgres.go:147-205 | Reviews a tag exactly if its heading still has the type, text and attributes it was bound to, and marks a stale one (`ReviewTagEffect`). |
| `DraftStore.Store.CreateChapterTag` | backend/internal/article/chapter_tags.go:116-149 | Creates a tag unless the heading has one. |
| `DraftStore.Store.DeleteChapterTag` | backend/internal/article/chapter_tags_postgres.go:130-145 | Deletes exactly this tag. |
| `Drafts.ReviewSourceTag` | backend/internal/article/postgres.go:205-213 | Always one of the four unreviewed tags. |

## Left out

Box Gateway:

- `resumeLocalTasks` and `launchTask` are one step. Split further, a task that finishes in between can be launched a second time.
- SyncTask: runs without interference, like all methods of `GatewayObject`; interleavings are the subject of `GatewayProtocol`.
- Whether Core learned of a log truncation: the flag is set from the state at acknowledgement time, not from the batch that was sent.
- Requests that time out and still arrive after a later request; failing writes of the state file; reuse of task IDs.
- The content of bundles, manifests and run specifications, file removal, UTF-8 repair of log messages, time stamps, the width of byte counters, registration and heartbeats.

Run approvals:

- Activation of a queued run, events, messages and the calls to the agent runtime; the untargeted response is inside the queue discipline but is not claimed to be idempotent.
- A claim token is assumed not to be issued twice in `TakenOverClaimIsPowerless`.

Commit operations:

- Process: assumes that its store statements reach the database; a goroutine whose statement fails abandons its work in `CommitQueue`.
- The clock is common to all coordinators, and a renewal counts from the time of its statement.
- RunOnce: processes the claimed rows one after another with no other owner in between, because a method runs undisturbed; runs with several owners, renewals, abandoned work and crashes are in `CommitQueue`.
- The contents of commits and publications.

Folders:

- Concurrent moves under READ COMMITTED isolation: two moves that pass the cycle check at the same time are not modelled, since each transaction is one step.
- The unique index is (parent, folded name) with roots as one parent; case folding is an arbitrary function; negative positions do not occur.
- DeleteRecursively: a name collision in the second statement is reported as the name conflict, where the source returns the database error as it is.

Multipart blobs:

- Keys as file-system paths: a key that is a directory of another key, temporary files and file modes. Each store call is one step, so the window between checking a destination and renaming onto it is not modelled.
- Cancelled contexts and I/O errors, other than transfers that break off; S3 and MinIO adapters; signed routes; upload sessions in the database; deduplication.
- Validation of keys and upload IDs is an arbitrary predicate.

Reviews:

- Markdown rendering, references, the abstract and paper information, audit and outbox records.
- Two first flushes of a project without a draft row; reading the draft row and its blocks in two queries, which matters only for rows without a fingerprint.
- ReviewedWasAccepted starts from an empty draft. A reviewed row written before fingerprints existed keeps its review when its node is unchanged.
- Blank collaboration fields of a flush are refused before anything is prepared.
- `ensureChapterTags` is a sequence of tag creations.
