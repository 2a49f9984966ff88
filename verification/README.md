# Tutoring workspace: a verified model

The application keeps tutoring lessons, billing cycles and payments on a device and in a cloud
database, and has to get through retries, crashes, lost replies and several devices without losing a
lesson or a penny. This project models the parts that carry that weight and proves what they keep.

- **Workspace sync** (`WorkspaceLease`, `WorkspaceRevision`, `RevisionPolicy`, `SyncServer`, `SyncOutbox`,
  `SyncProtocol`, `SyncTheorems`, `SyncRefusals`,
  `SyncProgress`, `SnapshotTables`): one row per workspace serializes writers by revision and
  token; clients push an outbox at a base revision and pull only when nothing is pending. Requests are
  machines that take one database statement at a time; a run is any interleaving of any number of clients,
  pushes, snapshot reads and other writers, with lost replies and crashes. The data is the history of all
  writes, so that "applied" and "published as revision n" are facts about it.
- **Server imports** (`ImportJournal`, `ImportProgress`): a journal row per import id on top of the same lease.
- **Client workflows** (`LocalFirst`, `LocalFirstRuns`, `LocalFirstFailures`, `LocalFirstProgress`,
  `ClientWorkflows`): importing a backup,
  resuming it, promoting a local workspace, the mutex and the gate in front of a sync. A lineage names one wholesale
  copy of the data; a view is the link record as a screen read it, possibly long before the operation got the mutex.
- **Receipts over obligations** (`Waterfall`, `Ledger`, `Collection`, `CollectionLaws`, `CollectionRuns`, `CollectionOrder`, `Rebalance`,
  `FinancialReconcile`, `ReceiptCorrections`, `CycleStatus`, `CycleAgreement`, `RebuildBills`, `LocalRebalance`, `BalanceHistory`): the
  greedy allocation, its closed form as overlap of prefix-sum intervals, crash and retry over whole histories, deleting and restoring, the
  status of cycles after a rebuild, the client loop against the server service, totals over histories.
- **Family accounts** (`FamilyCycles`, `FamilyBilling`, `FamilyStore`): the cycles of a family derived from its
  students, and the rebalance in three transactions.
- **Package cycles** (`PackageCycles`, `Renumbering`, `Attendance`, `Reopening`, `TutoringCommands`, `BillingTerms`, `TutoringStore`,
  `ServerReopen`, `ReopenCrash`, `ReopenRetry`, `ServerConfigure`, `LessonCompletion`, `LessonService`): numbered positions
  with integer shares, completing, reopening, configuring and paying on the client; on the server the shift-and-renumber loop and what
  a crash in it leaves, configuring and the retryable completion.
- **Forecast, reports, module graph** (`Packages`, `Forecast`, `DueReports`, `ModuleGraph`).

Code that changes things step by step is a class or a method with loops, proved against a function of its
input or of the old state; the laws are lemmas about those functions. `dafny verify dfyconfig.toml` checks
everything.

## Where the code does not meet its promise

Each item is proved; where it depends on the input, so is the exact condition.

- A receipt whose obligation was raised after a first allocation makes `collect` throw ALLOCATION_CONFLICT or
  report pence that no row holds (`FaithfulIffNoCollision`, `RaisedObligationConflicts`).
- An import whose local restore fails marks the link ready again. That is unsafe when the cloud never confirmed the
  copy it started from, and when the restore failed after its rows were written, which
  `src/client/backup/workspace-backup.ts` lines 262-265 allow: the error is thrown without aborting the transaction
  (`FailedImportIsSafeIff`, `UnsafeLinkIsOverwritten`, and a whole run in `FailedRestoreLosesData`).
- Import and resume act on the link record that the screen read before they waited for the mutex. A resume that finds
  an older request completed declares the link ready over a newer copy (`ResumeStaysSafeIff`, `StaleResumeLosesData`;
  a current view is enough if nothing went wrong before, `CurrentViewIsEnough`). An import that did not see the link
  replaces the copy without marking it. That is safe for good only if the link is not ready, none is being set up and
  the link waits for no request that was sent; else a ready link, or the next resume, overwrites the new copy
  (`UnlinkedImportIsSafeIff`, `StaleImportLosesData`, `StaleImportWhilePendingLosesData`).
- The first link of a local workspace does not take the mutex, so an import beside it is lost in every phase
  (`LinkEndsSafelyIff`, `ImportWhileLinkingIsSafeIff`, `ImportDuringUploadLosesData`).
- A server reopen that stops behind the DELETE is not repaired by sending it again: the handler finds no affected
  cycle. Between two cycles, links and cycle rows are right if and only if each remaining lesson was the last of its
  cycle and the row of that cycle was open, locked and without dates (`RetryAfterCrash`, `RetryAfterDelete`); within
  the repair of a cycle, if and only if all its rows had been renumbered, its row was under way and nothing was left
  for the later ones, so rows may wait at their shifted positions for good (`RetryWithinCycle`). The hook behind every
  tutoring mutation rights status and dates of a locked cycle that is not cancelled (`HookRightsCycleIff`), not the links.
- The retry rebuilds the allocations of those who attended, and of nobody once the lesson is scheduled, and the hook
  releases nothing. The pence of a billed student who did not attend, or of anybody after a stop behind the batch, stay on
  a target that is no longer owed (`RetryReleasesIff`).
- One rebuild of a student's allocations collects against the status that it only corrects afterwards. It settles the
  student for all money if and only if the correction changes no bill (`RebuildSettlesIff`, `DifferentBillsMovePence`);
  a wrong status with a price always changes one (`WrongStatusUnsettles`), rows without a price never do
  (`PricedRowsRightSettle`), and a second rebuild always settles (`TwoRebuildsSettle`).
- For completing a lesson the server counts cancelled cycles for the next sequence number and the client does not, the
  server keeps a date of payment that the client clears, and it refuses a plan without size or price for which the
  client uses defaults (`ServerMatchesClientIff`, `CancelledCycleIsCounted`).
- After payments server and client agree on the status of every cycle, but not always on its dates: the server clears
  the date of completion of an incomplete cycle and fills missing dates, the client leaves them (`SameRowsIff`).
- Configuring a student whose billing mode changes after lessons that made no cycle is accepted by the client and
  refused by the server; with every cycle cancelled the two store different cycles (`MatchesClientIff`).
- A push that asks for the lease just while an import holds it, and reads the row again after the import gave it back
  without a revision, is refused for good although nothing changed, and the device gives its edits up
  (`RefusedAtOwnBaseIff`, `LostRaceGivesUpTheEdit`).
- A journal row that expired may belong to an import that was applied (`ExpiredMayBeApplied`); a row that a request
  failed itself may not (`RefusedMeansNotApplied`).

## Model

| member | source | states |
|---|---|---|
| `WorkspaceLease.GrantKeepsLease` | src/server/sync/workspace-revision.ts:89-98 | granting the lease keeps every published revision and starts from data equal to the current one; while another writer holds it the statement changes nothing |
| `WorkspaceLease.WriteKeepsLease` | src/server/sync/workspace-revision.ts:186-203 | a write under the lease belongs to the holder, at the held revision, after everything published |
| `WorkspaceLease.PublishKeepsLease` | src/server/sync/workspace-revision.ts:143-151 | publishing adds exactly one revision, whose content is all data so far, and frees the lease |
| `WorkspaceLease.FinalizeKeepsLease` | src/server/sync/workspace-revision.ts:138-156 | finalizing publishes for the holder and is a no-op for anybody else |
| `WorkspaceLease.RecoverKeepsLease` | src/server/sync/workspace-revision.ts:26-38 | recovering a stale lease publishes what its dead writer left and frees the lease |
| `WorkspaceLease.AbortKeepsLeaseIffClean` | src/server/sync/workspace-revision.ts:120-136 | releasing without a new revision is sound if and only if nothing was written under the lease |
| `WorkspaceLease.CleanStaysSame` | src/server/sync/workspace-revision.ts:158-183 | equal revisions with no unpublished data mean equal data and no unpublished data in between |
| `WorkspaceLease.OneWriterPerRevision` | src/server/sync/workspace-revision.ts:72-106 | rows written by different grants carry different revisions |
| `WorkspaceRevision.LeaseDatabase.ReadState` | src/server/sync/workspace-revision.ts:40-61 | the revision and the busy flag are read together; not busy means the data is the published revision |
| `WorkspaceRevision.LeaseDatabase.Reserve` | src/server/sync/workspace-revision.ts:72-106 | granted means: this token holds the lease, at the expected revision, over unmodified data; declined reports the state read last |
| `WorkspaceRevision.LeaseDatabase.WithStableRead` | src/server/sync/workspace-revision.ts:158-183 | whatever other requests do between the statements, a stable result names a revision not older than the start and every query saw exactly that revision |
| `WorkspaceRevision.LeaseDatabase.RunQueries` | src/server/sync/routes.ts:218-222 | queries see the revision read before them unless a write began meanwhile |
| `WorkspaceRevision.LeaseDatabase.FinalizeWrite` | src/server/sync/workspace-revision.ts:138-156 | a returned revision is newer than before and is read with the lease free; a lost lease returns none |
| `WorkspaceRevision.MovesKeepLease` | src/server/sync/workspace-revision.ts:26-156 | any sequence of statements of other requests keeps the lease invariant and takes back neither data nor revisions |
| `RevisionPolicy.Partition` | src/server/sync/revision-policy.ts:8-24 | the split keeps order, and a reservation is needed exactly when some mutation is not done |
| `RevisionPolicy.PartsMakeBatch` | src/server/sync/revision-policy.ts:8-18 | the two parts together are the batch, as multisets |
| `SyncServer.PushStepKeepsPush` | src/server/sync/routes.ts:143-207 | every statement keeps: acknowledged results name done mutations, a reply answers the whole batch in order, rows are written at the base revision only, a batch done from the start stays on the duplicate path |
| `SyncOutbox.Outbox.ProcessResponse` | src/client/sync/engine.ts:202-212 | after the loop exactly the acknowledged mutations have left the outbox; a mutation is pending exactly if its last word was a failure to be retried, a dead letter exactly if it was refused for good, and as it was if nothing was said |
| `SyncOutbox.ResponseSettles` | src/client/sync/engine.ts:202-212 | the same for the specification, for entries in any order and repeated entries |
| `SyncOutbox.AttemptsAreCounted` | src/client/sync/outbox.ts:76-93 | a record that is still queued counts one more attempt for every entry that named it |
| `SyncRefusals.NotGrantedIsRetriedIffBusy` | src/server/sync/routes.ts:167-187 | without the lease a push answers duplicate for what it found done and failed for the rest, to be retried if and only if another writer holds the lease at that moment |
| `SyncRefusals.VerdictIsTheHandlers` | src/server/sync/routes.ts:102-111 | a failure that a push collects under the lease is the verdict of the handler of that mutation |
| `SyncRefusals.DeadLettersWereRefused` | src/server/sync/routes.ts:150-207 | in every run each dead letter was refused for good in a statement of some push, by a handler or for want of the lease, at a moment at which nobody held it: a busy server never costs an edit |
| `SyncRefusals.RefusedAtOwnBaseIff` | src/server/sync/workspace-revision.ts:72-106 | a push is refused for good at its own base revision if and only if it lost the lease to a writer that gave it back without a revision before the row was read again |
| `SyncRefusals.LostRaceGivesUpTheEdit` | src/server/sync/workspace-revision.ts:96-103 | a run in which a device gives up an edit although nobody ever changed anything |
| `SyncOutbox.SettleMembers` | src/client/sync/outbox.ts:69-102 | a response entry removes nothing but the mutation it acknowledges |
| `SyncOutbox.PendingMembers` | src/client/sync/outbox.ts:53-63 | the pending list holds exactly the records that are not dead letters |
| `SyncOutbox.RevivedIff` | src/client/sync/outbox.ts:104-122 | retrying a dead letter makes exactly this one pending again |
| `SyncRefusals.RetriedIsPending` | src/client/sync/outbox.ts:104-122 | an idle device may retry what it gave up: exactly that mutation is pending again, so that its next sync pushes it |
| `SyncProtocol.PushRunsKeeps` | src/server/sync/routes.ts:143-207 | a push statement keeps the invariant of the whole system of clients and requests |
| `SyncProtocol.RecoverStaleKeeps` | src/server/sync/workspace-revision.ts:26-38 | lease recovery keeps it, the recovered writer being stopped |
| `SyncProtocol.ProcessKeeps` | src/client/sync/engine.ts:202-231 | working off a response entry, and deciding whether to pull, keeps it: no mutation of the device is lost track of |
| `SyncProtocol.BeginKeeps` | src/client/sync/engine.ts:189-201 | starting a sync keeps it; what is pending is pushed first |
| `SyncProtocol.ReceiveKeeps` | src/client/sync/engine.ts:233-239 | writing a snapshot over the local tables keeps it |
| `SyncProtocol.RunKeepsInv` | src/client/sync/engine.ts:189-245 | the invariant holds after every interleaving of clients, pushes, reads, writers, lost replies, crashes and recoveries |
| `SyncTheorems.EveryStepIsSerialized` | src/server/sync/workspace-revision.ts:20-156 | in every run: revisions never decrease, stay constant while one lease is held, data changes only under a live lease, and a lease that changed data is released with exactly one new revision containing it |
| `SyncTheorems.OneWriterPerBase` | src/server/sync/routes.ts:159-186 | of two pushes from one base revision at most one ever changes data |
| `SyncTheorems.AppliedExactlyOnce` | src/server/sync/routes.ts:76-112 | a mutation becomes done at most once and its handler writes nothing afterwards |
| `SyncTheorems.RemovedMeansDone` | src/client/sync/engine.ts:202-206 | a mutation that leaves a client outbox is done on the server |
| `SyncTheorems.SettledBatchIsDuplicate` | src/server/sync/routes.ts:150-166 | a batch that was done when its push arrived is refused or answered with duplicates only, at any base revision |
| `SyncTheorems.RetryAfterLostReply` | src/server/sync/routes.ts:150-166 | after a fully acknowledged push whose reply was lost, a new push of the batch finds all of it done, whatever its base |
| `SyncTheorems.ServedSnapshotIsStable` | src/server/sync/routes.ts:213-228 | every query behind a served snapshot saw the data of the revision it is served with |
| `SyncTheorems.PullsOverwriteOnlySyncedEdits` | src/client/sync/engine.ts:189-239 | push-first safety: when a snapshot overwrites local tables nothing is pending, and each mutation ever made on the device is a dead letter or part of the revision pulled |
| `SyncProgress.PushAloneSucceeds` | src/server/sync/routes.ts:143-207 | a push at the published revision of an idle workspace whose handlers finish or refuse: a refused mutation stops no other; the rest is done, applied or recognized as a duplicate, published as the next revision, and the answer says of each entry what became of it |
| `SyncProgress.RepeatedPushIsRecognized` | src/server/sync/routes.ts:150-166 | a batch that was done before is answered with duplicates at the published revision and changes nothing |
| `SyncProgress.EntriesAreWorkedOff` | src/client/sync/engine.ts:202-212 | entry by entry a client works off a whole response, in any state of the rest of the system |
| `SyncProgress.SyncAloneSucceeds` | src/client/sync/engine.ts:189-245 | progress: from every reachable state in which an idle client knows the published revision and nobody writes, a sync left alone empties the outbox of everything pending and pulls the next revision |
| `SyncProgress.ThirdDisturbanceEndsRead` | src/server/sync/workspace-revision.ts:158-183 | a snapshot read that finds somebody writing is repeated and gives up the third time |
| `SyncProgress.ThrowReleasesLease` | src/server/sync/routes.ts:188-200 | a push that throws under its lease still publishes what its handlers wrote, frees the lease and answers an error |
| `SyncProgress.WriterAlone` | src/server/sync/workspace-revision.ts:186-203 | another writer that takes the lease, writes and commits publishes the next revision; one that wrote nothing gives the lease back without a trace |
| `SyncProgress.CrashedPushIsSilent` | src/server/sync/routes.ts:143-207 | a push whose process died issues no further statement |
| `SnapshotTables.Table.ReplaceWorkspaceRows` | src/client/sync/engine.ts:113-126 | afterwards a key holds what the snapshot brought last, else what another workspace had, else nothing |
| `SnapshotTables.Table.MergeWorkspaceRows` | src/client/sync/engine.ts:103-111 | the workspace rows of the snapshot are laid over the table and nothing is deleted |
| `SnapshotTables.LastEntryCounts` | src/client/sync/engine.ts:95-111 | of several entries for one key the last one counts |
| `SnapshotTables.OwnEntries` | src/client/sync/engine.ts:103-111 | only entries of the workspace are merged, in their order |
| `SnapshotTables.ReplacedHolds` | src/client/sync/engine.ts:113-126 | a replaced table holds the last entry for each key, the rows of other workspaces without one, and nothing else |
| `SnapshotTables.MergedHolds` | src/client/sync/engine.ts:103-111 | a merged table holds the last entry of the workspace for each key, else what it held |
| `ImportJournal.ImportStepKeeps` | src/server/backup/routes.ts:769-869 | every statement of an import keeps: only the creator of the journal row proceeds, the lease is held at the expected revision while restoring, a completing import is part of the revision it names |
| `ImportJournal.OtherImportsStable` | src/server/backup/routes.ts:670-689 | requests that did not create the row are unaffected by the one that did |
| `ImportJournal.RunKeepsInv` | src/server/backup/routes.ts:623-869 | all of this holds after every interleaving with writers, crashes, expiry and lease recovery |
| `ImportJournal.AppliedAtMostOnce` | src/server/backup/routes.ts:623-716 | the backup of an import id is applied at most once |
| `ImportJournal.CompletedMeansApplied` | src/server/backup/routes.ts:835-839 | completed implies that the data is in the applied revision, which is greater than the expected one |
| `ImportJournal.CompletedIsAbsorbing` | src/server/backup/routes.ts:691-702 | no later failure, expiry or retry changes a completed row |
| `ImportJournal.RefusedMeansNotApplied` | src/server/backup/routes.ts:849-864 | a row that a request itself marks failed belongs to a backup that was not applied |
| `ImportJournal.AnswersAreTrue` | src/server/backup/routes.ts:786-870 | in every run each answer is true of the journal row and of the data when it is given: imported and replayed revisions contain the backup |
| `ImportJournal.SecondRequestIsTold` | src/server/backup/routes.ts:786-812 | a request that finds the row of another one is answered at once by its fingerprint, expected revision and status, and changes nothing |
| `ImportJournal.ExpiredMayBeApplied` | src/server/backup/routes.ts:623-633 | a row that expired may belong to a backup that was applied: a concrete run |
| `ImportProgress.ImportAloneSucceeds` | src/server/backup/routes.ts:797-847 | at the expected revision of an idle workspace an import writes its backup, publishes it as the next revision, completes its row with it and answers it |
| `ImportProgress.RequestedImportSucceeds` | src/server/backup/routes.ts:771-847 | the same in any run of the whole system, for an import id that nobody used before |
| `ImportProgress.FailedRestoreLeavesNoTrace` | src/server/backup/routes.ts:848-864 | a restore batch that fails leaves data, revision and lease as they were and a failed row |
| `ImportProgress.RefusedImportLeavesNoTrace` | src/server/backup/routes.ts:816-828 | while somebody writes, or at another revision, an import touches nothing but its row, which fails |
| `ImportProgress.LostLeaseLeavesNoTrace` | src/server/sync/workspace-revision.ts:89-106 | the same for an import that loses the lease between its read and its UPDATE |
| `ImportProgress.RecoveredImportStaysOpen` | src/server/backup/routes.ts:831-864 | an import whose lease was recovered before it could publish answers an error, and its row stays in progress although its backup is applied |
| `ImportProgress.CrashedImportIsSilent` | src/server/backup/routes.ts:771-869 | an import whose process died changes nothing any more, not even its row |
| `LocalFirstRuns.NoPullOverUnpublishedData` | src/client/backup/import-workflow.ts:24-76 | for every failure pattern of the dependencies, every moment at which the cloud applies a request, every view of the link that a screen may still hold and every closing of the tab: no pull overwrites a local copy that the cloud does not have and the link is not ready before the cloud has it, in runs whose imports know whether there is a link and run beside no first link, whose resumes know which import is pending unless the link is ready, and whose local restores fail harmlessly |
| `LocalFirst.StepKeepsInv` | src/client/cloud/link-workflow.ts:60-132 | a dependency call of an import, a resume, a promotion, a first link or a sync keeps that safety if the device was told that the cloud has its copy before it makes the link ready, and replaces the copy under no ready link |
| `LocalFirst.StepIsSafeIff` | src/client/adapters/indexeddb/platform.repository.ts:236-258 | a step is safe whatever the cloud may hold beyond what it told this device if and only if it is of that kind |
| `LocalFirst.ImportKeepsInv` | src/client/backup/import-workflow.ts:40-75 | the same for the import, call by call |
| `LocalFirst.ResumeKeepsInv` | src/client/backup/workspace-backup.ts:444-456 | the same for the publishing half of a resume |
| `LocalFirstFailures.ResumeIsSafeIff` | src/client/backup/workspace-backup.ts:403-430 | a resume that finds the request of its view completed makes the link ready, which is safe if and only if that request carried the copy now on the device or the device was told that the cloud has it |
| `LocalFirstFailures.ResumeStaysSafeIff` | src/client/backup/workspace-backup.ts:403-430 | from any state that guarded runs reach, and whatever the cloud holds, no guarded run that goes on with a resume ever makes the link ready over an unpublished copy or overwrites one, if and only if the request of its view was never sent, or carried the copy on the device, or the device was told that the cloud has that copy |
| `LocalFirstFailures.CurrentViewIsEnough` | src/client/backup/workspace-backup.ts:403-430 | wherever a guarded run has got to, a resume whose view is current stays safe for good |
| `LocalFirstFailures.UnlinkedImportIsSafeIff` | src/client/backup/workspace-backup.ts:356-400 | an import that was asked for before there was a link, at its restore: no guarded run that goes on from there ever makes the link ready over an unpublished copy or overwrites one, if and only if nothing is replaced, or the link is not ready, none is being set up and the link waits for no request that was sent |
| `LocalFirstFailures.FailedImportIsSafeIff` | src/client/backup/import-workflow.ts:44-51 | marking the link ready after a failed local restore stays safe, whatever the cloud holds and however a guarded run goes on, if and only if the restore replaced nothing and the device was told that the cloud has the copy the import started from |
| `LocalFirst.UnsafeLinkIsOverwritten` | src/client/sync/engine.ts:83-92 | a ready link over an unpublished copy is overwritten by the next sync |
| `LocalFirstProgress.PromotionSucceeds` | src/client/cloud/link-workflow.ts:112-132 | a promotion in which nothing fails uploads the local copy and makes the link ready with its last call |
| `LocalFirstProgress.ResumeSucceeds` | src/client/backup/workspace-backup.ts:403-456 | a resume that knows of no completed request publishes the copy anew and, once the cloud has applied that, makes the link ready |
| `LocalFirstProgress.FinishedResumeSucceeds` | src/client/backup/workspace-backup.ts:403-430 | a resume that finds its request completed makes the link ready without another request |
| `LocalFirstProgress.LinkingSucceeds` | src/client/cloud/link-workflow.ts:60-96 | the first link registers, marks, uploads and ends ready over the captured copy |
| `LocalFirstProgress.SyncPullsIffReady` | src/client/sync/engine.ts:83-92 | a sync takes over what it pulled if and only if the link is ready; else it changes nothing |
| `LocalFirstProgress.LinkedImportPublishes` | src/client/backup/import-workflow.ts:40-60 | an import into a linked workspace has marked the link and replaced the copy before it sends the request, which carries that copy |
| `LocalFirstProgress.FailureEndsWorkflow` | src/client/backup/import-workflow.ts:40-75 | a call that fails before its effect changes no data and ends the workflow; only a failed restore of a linked import is rolled back first |
| `LocalFirstProgress.LocalImportSucceeds` | src/client/backup/import-workflow.ts:40-55 | an import into a workspace without a link replaces the local copy and nothing else |
| `LocalFirstFailures.LinkEndsSafelyIff` | src/client/cloud/link-workflow.ts:60-96 | from any phase of the first link on, finishing it makes the link ready, which is safe if and only if the device still holds the captured copy or one that the cloud confirmed |
| `LocalFirstFailures.ImportWhileLinkingIsSafeIff` | src/client/cloud/link-workflow.ts:60-96 | after an import in any phase of the first link, finishing the link is safe if and only if the import replaced nothing and it was safe before |
| `LocalFirstFailures.FailedRestoreLosesData` | src/client/backup/import-workflow.ts:44-51 | a run from a fresh workspace in which a failed restore costs the local copy |
| `LocalFirstFailures.StaleImportLosesData` | src/client/backup/workspace-backup.ts:356-400 | a run in which an import with an old view costs the local copy at once |
| `LocalFirstFailures.StaleImportWhilePendingLosesData` | src/client/backup/workspace-backup.ts:356-430 | a run in which it does so although the link was not ready: an earlier import is pending, and a resume with the current view finds it completed |
| `LocalFirstFailures.StaleResumeLosesData` | src/client/backup/workspace-backup.ts:403-430 | a run in which a resume with an old view does |
| `LocalFirstFailures.ImportDuringUploadLosesData` | src/client/cloud/link-workflow.ts:60-96 | a run in which an import beside the first link does |
| `ClientWorkflows.Device.ExecuteLocalFirstImport` | src/client/backup/import-workflow.ts:24-76 | whatever call fails and whenever the cloud applies the request, the workflow as written ends in the world of a run of the state machine; it answers synced if and only if no call failed, but for a lost reply, and the cloud applied the request before its journal was read, and then the link is ready over the imported copy and the cloud has it |
| `ClientWorkflows.Device.PublishCloud` | src/client/backup/import-workflow.ts:57-69 | answers synced exactly when the request was sent, the journal was read after the cloud applied it and the link was stored as ready; then the link is ready over a copy that the cloud has, and the calls made are a run of the state machine |
| `ClientWorkflows.ImportStaysSafe` | src/client/backup/import-workflow.ts:24-76 | at every call of an import the device is safe, whatever fails and whatever the cloud applies in between, unless the local restore fails after replacing data or over a copy that the cloud never confirmed |
| `ClientWorkflows.SyncedIsReachable` | src/client/backup/import-workflow.ts:53-69 | from any linked state there is a run in which the import is synced |
| `ClientWorkflows.CloudOnlyAdds` | src/server/backup/routes.ts:797-869 | the cloud acting in between changes nothing on the device and completes only requests that were sent |
| `ClientWorkflows.WorkspaceOperations.Begin` | src/client/sync/workspace-operation.ts:12-23 | refuses exactly while an operation is active, else enters it under a token not in use |
| `ClientWorkflows.WorkspaceOperations.Release` | src/client/sync/workspace-operation.ts:19-22 | ends its own operation and no later one |
| `Waterfall.WaterfallClosedForm` | src/modules/finance/allocation.service.ts:82-101 | the greedy loop gives from receipt i to obligation j exactly the overlap of their prefix-sum intervals |
| `Waterfall.DrainAllClosedForm` | src/modules/finance/allocation.service.ts:82-101 | what stays outstanding, obligation by obligation, in closed form |
| `Waterfall.OldestFirst` | src/modules/finance/allocation.service.ts:82-101 | once a receipt reaches an obligation every earlier one is full and no later receipt gives to it |
| `Waterfall.WaterfallConserves` | src/modules/finance/allocation.service.ts:104-109 | a run moves exactly the smaller of receipts and obligations and leaves the rest outstanding |
| `Ledger.FinanceGateway.RecordReceipt` | src/server/adapters/d1/finance.gateway.ts:40-73 | stores a new receipt, accepts an identical one again, answers a conflict otherwise, and changes nothing else |
| `Ledger.FinanceGateway.AllocateReceipt` | src/server/adapters/d1/finance.gateway.ts:75-122 | inserts one row, finds the same row, or answers the error; the ledger invariant is kept |
| `Ledger.AllocatingIff` | src/server/adapters/d1/finance.gateway.ts:75-122 | each answer of an allocation by the rows of the table: the own row of the pair decides first, then the receipt and what it has left |
| `Ledger.FinanceGateway.DeleteRowsOf` | src/server/integrations/financial-reconcile.ts:104-112 | removes exactly the rows of the given receipts |
| `Ledger.InsertKeepsLedger` | migrations/0008_domain_integrity.sql:30-55 | no receipt gives away more than it holds and pairs stay unique |
| `Collection.SortIsSortedPermutation` | src/modules/finance/allocation.service.ts:31-39 | sorting obligations yields a sorted permutation under the comparator |
| `CollectionOrder.SortPutsOlderFirst` | src/modules/finance/allocation.service.ts:31-39 | in the sorted list an earlier due date comes first, and on equal dates the smaller module, type and id |
| `CollectionOrder.OlderAreServedFirst` | src/modules/finance/allocation.service.ts:74-101 | whatever the ledger and however long the process lives: if a call adds a row for an obligation, every older listed one has nothing outstanding, unless the receipt had a row for it before |
| `CollectionOrder.OldestAreMetFirst` | src/modules/finance/allocation.service.ts:74-101 | after any history of obligations, calls and reconciles a call adds a row only if every older obligation of its payer has nothing outstanding |
| `CollectionOrder.CollectIsRefusedIff` | src/modules/finance/allocation.service.ts:57-72 | which commands are refused before the loop, by their fields and the ledger; such a call adds no row, and in any answer allocated and credit pence add up to the amount |
| `Collection.RunFollowsPlan` | src/modules/finance/allocation.service.ts:82-101 | without an earlier row that has both credit and debt left, a run inserts its plan, or a prefix of it when the process dies; ALLOCATION_CONFLICT is unreachable |
| `Collection.ResumePlansTheRest` | src/modules/finance/allocation.service.ts:61-69 | after any prefix of the inserts a fresh attempt plans exactly the missing ones |
| `Collection.RunKeepsLedger` | src/modules/finance/allocation.service.ts:82-101 | any run, stopped anywhere, keeps the ledger conserved and pairs unique |
| `Collection.FinanceCollectionService.AllocateOne` | src/modules/finance/allocation.service.ts:84-100 | one obligation receives the smaller of what is left and what is outstanding, or the error of the gateway |
| `Collection.FinanceCollectionService.AllocateOver` | src/modules/finance/allocation.service.ts:82-101 | rows, rest, error and report of the loop equal the specified run |
| `Collection.FinanceCollectionService.Collect` | src/modules/finance/allocation.service.ts:56-111 | the whole call: recorded receipt, rows and answer as specified, ledger kept valid |
| `CollectionRuns.HistoryKeepsShop` | src/modules/finance/allocation.service.ts:41-111 | after any history of new obligations, calls of collect and reconciles, each of which may die after any of its writes and be made again, the ledger is valid and every row has an exhausted receipt or a satisfied target |
| `CollectionRuns.PaymentMeetsCharge` | src/modules/finance/allocation.service.ts:55-110 | a charge is owed from then on, and the first payment of its payer meets it with exactly the smaller of the two amounts |
| `CollectionRuns.EventsTakeEffect` | src/modules/finance/allocation.service.ts:55-110 | after any history a new charge is owed, and a reconcile inserts the plan of its payer as far as it lives |
| `CollectionRuns.ConflictIsUnreachable` | src/modules/finance/allocation.service.ts:41-48 | no call in such a history is answered with ALLOCATION_CONFLICT or any other refusal but one of its own command |
| `CollectionRuns.OwedByIff` | src/modules/finance/allocation.service.ts:74-81 | a payer is listed exactly the obligations that are his |
| `CollectionRuns.CollectCrashThenRetry` | src/modules/finance/allocation.service.ts:41-111 | a call that died anywhere, before or after it recorded the receipt, and is made again leaves the receipts and rows of one uninterrupted call and answers the same pence |
| `CollectionLaws.CrashThenRetry` | src/modules/finance/allocation.service.ts:82-101 | the obligation loop alone: without a row that has both credit and debt left, the second attempt ends in the rows of an uninterrupted one |
| `CollectionLaws.CrashLeavesNoOpenPair` | src/modules/finance/allocation.service.ts:41-48 | if there was none before, a crash of the loop leaves no row whose receipt has credit and whose target has debt |
| `CollectionLaws.PlanIsPour` | src/modules/finance/allocation.service.ts:69-101 | the inserted rows are the pour over the outstanding amounts |
| `CollectionLaws.FaithfulIffNoCollision` | src/server/adapters/d1/finance.gateway.ts:80-95 | collect succeeds and reports what the ledger holds if and only if no obligation it still reaches already has a row of the receipt |
| `CollectionLaws.RaisedObligationConflicts` | src/server/adapters/d1/finance.gateway.ts:92-95 | the failing inputs: a raised obligation throws, or silently over-reports |
| `Rebalance.RebalanceClosedForm` | src/server/integrations/financial-reconcile.ts:79-95 | a run over all receipts gives each pair the overlap of the prefix intervals of remaining credit and outstanding debt |
| `Rebalance.LaterOnlyWhenEarlierFull` | src/server/integrations/financial-reconcile.ts:79-95 | an obligation receives pence only if every earlier one ends up full |
| `Rebalance.BulkPlanIsWaterfall` | src/server/integrations/financial-reconcile.ts:79-95 | the rows of such a run are the matrix of the waterfall |
| `CollectionRuns.ReconcileFollowsPlan` | src/server/integrations/financial-reconcile.ts:79-95 | in such a history a reconcile of the stored receipts of a payer inserts its plan in order, or as much of it as it lives for |
| `CollectionRuns.ReconcileCrashThenRetry` | src/server/integrations/financial-reconcile.ts:66-97 | a reconcile that died after any of its inserts and is made again leaves exactly what one uninterrupted reconcile leaves |
| `FinancialReconcile.ReconcileResumes` | src/server/integrations/financial-reconcile.ts:79-95 | on a settled ledger, stopping after any number of inserts leaves exactly the remaining ones to the next reconcile |
| `FinancialReconcile.PlanKeepsSettled` | src/modules/finance/allocation.service.ts:82-101 | each receipt leaves every row with an exhausted receipt or a satisfied target |
| `FinancialReconcile.StudentReconciler.Reconcile` | src/server/integrations/financial-reconcile.ts:79-95 | on a settled ledger the loop over stored receipts produces the bulk plan, or a prefix of it when the process dies |
| `FinancialReconcile.StudentReconciler.Rebuild` | src/server/sync/finance.sync.ts:186-215 | deleting and replaying gives each pair its closed-form amount |
| `CycleStatus.CycleTable.Normalize` | src/server/sync/finance.sync.ts:117-174 | the loop of updates leaves each cycle of the student normalized and touches no other |
| `CycleStatus.NormalizedAgain` | src/server/sync/finance.sync.ts:117-174 | normalizing again changes nothing |
| `CycleStatus.ChargeIff` | src/server/integrations/tutoring-obligations.provider.ts:31-51 | the obligations of a student are exactly the prices of his due and paid rows, on the day they were completed or else started |
| `CycleAgreement.SameRowsIff` | src/server/sync/finance.sync.ts:117-174 | server and client give every cycle the same status; they leave the same rows if and only if each incomplete row had no date of completion, each complete one had one, and a row paid without a dated payment bore that date |
| `RebuildBills.PaidIff` | src/server/sync/finance.sync.ts:176-217 | after a rebuild a charged cycle is paid if and only if it is complete and others had covered it or the receipts of the student together reach the end of its interval among the sorted obligations |
| `CycleStatus.ChargesKeptIff` | src/server/sync/finance.sync.ts:117-174 | normalizing leaves the obligations of a student alone if and only if the status of each of his cycles said whether it is complete and its date was the one that is written |
| `CycleStatus.RebuildSettles` | src/server/sync/finance.sync.ts:176-217 | if the rows of the student were in order, a second rebuild changes no row and no cycle |
| `RebuildBills.RebuildSettlesIff` | src/server/sync/finance.sync.ts:176-217 | one rebuild settles a student, whatever receipts there are and whatever is allocated, if and only if normalizing his rows changes no bill: neither which obligations take money, nor how much, nor their order |
| `RebuildBills.DifferentBillsMovePence` | src/server/sync/finance.sync.ts:176-217 | otherwise a single receipt is enough for the second rebuild to change what some target holds |
| `RebuildBills.PricedRowsRightSettle` | src/server/sync/finance.sync.ts:176-217 | rows that cost nothing never matter: one rebuild settles when all others were in order |
| `RebuildBills.WrongStatusUnsettles` | src/server/sync/finance.sync.ts:176-217 | one cycle with a price and the wrong status is enough that it does not |
| `CycleStatus.TwoRebuildsSettle` | src/server/sync/finance.sync.ts:176-217 | whatever the rows were, a third rebuild changes nothing |
| `CycleStatus.OneRebuildMayNotSettle` | src/server/sync/finance.sync.ts:176-217 | the failing input: a cycle left due although it is not complete |
| `FinancialReconcile.RebuiltClosedForm` | src/server/integrations/financial-reconcile.ts:99-115 | after a rebuild the amount from receipt i to obligation j is the overlap of full receipt and obligation intervals |
| `LocalRebalance.LocalStore.PourReceipt` | src/client/finance/local-rebalance.ts:144-165 | the loop over the tally map generates the plan of the receipt and keeps the tally exact |
| `LocalRebalance.LocalStore.Generate` | src/client/finance/local-rebalance.ts:131-166 | all receipts in order generate the bulk plan; an over-allocated receipt aborts before anything is written |
| `LocalRebalance.LocalStore.Rebalance` | src/client/finance/local-rebalance.ts:79-170 | the stored rows grow by exactly that plan |
| `LocalRebalance.ClientRefinesServer` | src/client/finance/local-rebalance.ts:131-166 | without rows of other payers on the same targets the client loop yields the rows of the server service on each receipt in order |
| `BalanceHistory.RunTotals` | src/client/finance/local-rebalance.ts:138-166 | after a rebalance total credit is what exceeds the debt and total debt what exceeds the credit |
| `BalanceHistory.SecondRebalanceIsEmpty` | src/client/tutoring/family-billing.ts:183-264 | a second rebalance generates nothing |
| `BalanceHistory.TotalsIgnoreHistory` | src/modules/reports/student-finance.ts:97-183 | whatever the order in which payments and obligations are added, each followed by a rebalance, credit and debt are the two sides of received minus charged |
| `ReceiptCorrections.RebuildForgets` | src/server/sync/finance.sync.ts:176-217 | a rebuild depends on nothing that an earlier one left: neither on the receipts and obligations that one saw nor on where it was cut short |
| `ReceiptCorrections.RestoreUndoesDelete` | src/server/sync/finance.sync.ts:297-319 | restoring a deleted receipt of a student brings the ledger back, even after a deletion that was cut short |
| `ReceiptCorrections.DeletedPaysNothing` | src/server/sync/finance.sync.ts:297-319 | once the rebuild behind a deletion is through, no row of the deleted receipt is left, and no other receipt was marked |
| `ReceiptCorrections.ReceiptHandler.SetDeleted` | src/server/sync/finance.sync.ts:297-319 | an unknown receipt is refused and nothing changes; otherwise the mark is set and the rows are those of a rebuild, or of one that died after some of its inserts |
| `FamilyCycles.CurrentAfter` | src/client/tutoring/family-billing.ts:124-150 | each sequence that a required student has entered keeps its row or gets one, brought up to date |
| `FamilyCycles.ReconciledStatus` | src/client/tutoring/family-billing.ts:152-174 | that row is open until every required student has completed the sequence, then due until its price is covered, then paid |
| `FamilyCycles.ReconciledDates` | src/client/tutoring/family-billing.ts:131-174 | it starts with the first of the required students, completes with the last and is paid by the last of its payments |
| `FamilyCycles.ReconciledDatesKept` | src/client/tutoring/family-billing.ts:131-174 | where no student and no payment gives a date, a row keeps its own, or takes the one before it; none while it is not complete or not paid |
| `FamilyCycles.ReconciledTerms` | src/client/tutoring/family-billing.ts:137-150 | a new row has the size and the price of the account, an old one keeps its own |
| `FamilyCycles.RequiredIff` | src/modules/tutoring/domain/billing-account.ts:80-96 | a shared account waits for its primary student, any other for each active member |
| `FamilyCycles.SequenceCompleteIff` | src/modules/tutoring/domain/billing-account.ts:98-122 | complete means that each of them counts at least as many lessons in the sequence as it holds, and that there is one |
| `FamilyCycles.ReconcilingAgain` | src/client/tutoring/family-billing.ts:62-181 | a second reconcile creates nothing and moves no date whatever was paid in between, and changes nothing at all if nothing was |
| `FamilyCycles.IdsStayUnique` | src/client/tutoring/family-billing.ts:139-150 | ids stay unique at every point of the writes |
| `FamilyBilling.ObligationsStay` | src/client/tutoring/family-billing.ts:26-35 | paying and reconciling leave the obligations of a family as they were, in the same order |
| `FamilyBilling.ObligationIff` | src/client/tutoring/family-billing.ts:24-35 | the obligations of an account are exactly the prices of its due and paid rows, on the day they were completed, else started, else at the end of time |
| `FamilyBilling.RetryFinishesRebalance` | src/client/tutoring/family-billing.ts:183-264 | stopped between any two of its three transactions, a rebalance that is run again ends where an uninterrupted one does; a finished one is a fixed point |
| `FamilyBilling.DueMeansNoCreditLeft` | src/client/tutoring/family-billing.ts:183-264 | afterwards a cycle is paid exactly when complete and covered, and while one is due no receipt of the account has credit left |
| `FamilyStore.StoreNext` | src/client/tutoring/family-billing.ts:177-179 | storing one more row under its id replaces the row of its sequence or appends it, and touches no other |
| `FamilyStore.FamilyTables.Reconcile` | src/client/tutoring/family-billing.ts:62-181 | computing all rows first and storing them afterwards ends in the specified tables |
| `FamilyStore.FamilyTables.Rebalance` | src/client/tutoring/family-billing.ts:183-264 | reconcile, pour and reconcile as specified; an over-allocated receipt stops it after the first reconcile |
| `PackageCycles.ShareIsFair` | src/modules/tutoring/domain/billing.ts:17-30 | every position earns the whole quotient of the price or one penny more |
| `PackageCycles.CycleEarnings` | src/modules/tutoring/domain/billing.ts:17-30 | the shares of a cycle sum to the difference of two floors |
| `PackageCycles.FullCycleEarnsPrice` | src/modules/tutoring/domain/billing.ts:28-29 | a full cycle without opening progress sums to its price |
| `PackageCycles.ReopenedRows` | src/client/tutoring/attendance-corrections.ts:256-284 | removing a lesson and closing the gap leaves the rows that replaying the other lessons builds |
| `Renumbering.RenumberStep` | src/client/tutoring/attendance-corrections.ts:267-275 | one turn of the renumbering loop stores the next row and no other |
| `Renumbering.RenumberDone` | src/client/tutoring/attendance-corrections.ts:267-275 | when all remaining rows were stored the gap is closed |
| `Renumbering.NeverCollidesShifting` | src/server/sync/tutoring.sync.ts:201-205 | no two rows of a cycle share a position at any point of the bulk shift |
| `Renumbering.NeverCollidesRenumbering` | src/server/sync/tutoring.sync.ts:211-221 | nor at any point of the renumbering |
| `Attendance.CompletingIsSound` | src/client/tutoring/attendance-commands.ts:124-184 | completing a lesson for a student always succeeds on sound tables and keeps them sound: positions, counts, limits, status, unique links |
| `Attendance.CompletingLinks` | src/client/tutoring/attendance-commands.ts:127-131 | it appends at most one link and leaves a packaged student linked |
| `Attendance.CompletingAppends` | src/client/tutoring/attendance-commands.ts:160-184 | it appends the lesson to at most one existing cycle and leaves all terms alone |
| `Attendance.EveryBilledStudentIsLinked` | src/client/tutoring/attendance-commands.ts:123-184 | after the loop every packaged student the lesson is billed to is linked to it |
| `Attendance.CompleteAllOnlyAdds` | src/client/tutoring/attendance-commands.ts:123-184 | old links, cycles and plans stay |
| `Attendance.OpenCycle` | src/client/tutoring/attendance-commands.ts:133-136 | the open cycle with the highest sequence number |
| `Reopening.RemovalIsSound` | src/client/tutoring/attendance-corrections.ts:256-284 | removing one link keeps the tables sound |
| `Reopening.RemovingTakesLesson` | src/client/tutoring/attendance-corrections.ts:256-284 | it takes the lesson out of its own cycle and leaves the lessons of every other cycle alone |
| `Reopening.RemoveAll` | src/client/tutoring/attendance-corrections.ts:254-284 | afterwards no link of the lesson is left and the tables are sound |
| `Reopening.ReopenIsReplay` | src/client/tutoring/attendance-corrections.ts:256-284 | reopening equals replaying: every cycle holds exactly the rows that completing its remaining lessons in order builds |
| `Reopening.ReopenIsRefusedIff` | src/client/tutoring/attendance-corrections.ts:206-211 | reopening is refused exactly if no link of the lesson is known and somebody of its session has a cycle; otherwise no link of the lesson is left |
| `TutoringCommands.ConfiguringIsSound` | src/client/tutoring/local-commands.ts:108-214 | configuring keeps the tables sound and never touches a link or a cycle that holds a lesson |
| `TutoringCommands.ReopenUndoesComplete` | src/client/tutoring/attendance-corrections.ts:256-284 | completing a new lesson and reopening it gives every cycle its old rows back |
| `BillingTerms.CompleteThenReopen` | src/client/tutoring/attendance-corrections.ts:256-284 | the same of the two commands one after the other, whoever the lesson was billed to and whoever is in its session |
| `TutoringCommands.EarningsAfterAnyRun` | src/client/tutoring/attendance-commands.ts:124-184 | after any history of complete, reopen, configure and payments a cycle never exceeds its limit, counts its links and earns the prefix shares |
| `TutoringCommands.BalancingIsSound` | src/client/finance/local-rebalance.ts:174-199 | payments keep the tables sound, and a cycle that is not cancelled is paid afterwards if and only if it is complete and covered |
| `BillingTerms.FirstPackage` | src/client/tutoring/local-commands.ts:192-213 | a package for a student without cycles is refused exactly if the opening progress exceeds it; else one cycle is added with its size, price, progress, anchor or effective date, due exactly when the progress fills it |
| `BillingTerms.FirstPackageOnServer` | src/modules/tutoring/services/billing.service.ts:87-112 | the same row on the server |
| `BillingTerms.AllCancelled` | src/modules/tutoring/services/billing.service.ts:94-112 | a student whose cycles are all cancelled: the client adds none; the server adds a first one unless a cancelled row has the number 1, and then fails behind the plan |
| `BillingTerms.NextPackage` | src/client/tutoring/local-commands.ts:101-164 | for a student with a current cycle: the refusals by the fields of that cycle; else the plan is replaced and only the progress of the cycle is corrected |
| `BillingTerms.NextPackageOnServer` | src/modules/tutoring/services/billing.service.ts:32-112 | the same on the server |
| `BillingTerms.PackageEarnsItsPrice` | src/client/tutoring/local-commands.ts:192-213 | a configured package that then takes as many lessons as it holds has exactly these lessons in order, which earn exactly the configured price, and is due on the date of the last |
| `BillingTerms.LessonEntersOpenCycle` | src/client/tutoring/attendance-commands.ts:124-196 | a lesson enters the open cycle at the next position; only progress, status and dates of that row change, and the last lesson makes it due on its date |
| `BillingTerms.LessonOpensNextCycle` | src/client/tutoring/attendance-commands.ts:124-196 | without an open cycle the lesson opens one under the terms of the plan, numbered behind all that are not cancelled, and starting on its date |
| `BillingTerms.ServerLessonEntersOpenCycle` | src/modules/tutoring/services/billing.service.ts:111-199 | the same on the server, where a date of payment stays; a full open cycle blocks the lesson and nothing changes |
| `BillingTerms.ServerLessonOpensNextCycle` | src/modules/tutoring/services/billing.service.ts:145-199 | without an open cycle the first write creates one, numbered behind all cycles of the student, and the lesson is linked to it |
| `BillingTerms.ServerClosesLinkedCycle` | src/modules/tutoring/services/billing.service.ts:120-143 | a lesson that is linked already only makes its full open cycle due, on its date |
| `BillingTerms.PaymentsDateCycles` | src/client/finance/local-rebalance.ts:174-199 | after a rebalance a paid cycle bears the date of its last payment, any other none, nothing else of a row changes, and the same payments again change nothing |
| `TutoringStore.BillingTables.Balance` | src/client/finance/local-rebalance.ts:174-199 | the loop over the cycles of the student stores exactly the rows that payments leave |
| `TutoringCommands.CycleAlreadyCompleteIsUnreachable` | src/client/tutoring/attendance-commands.ts:160-161 | no history makes completing a lesson fail for want of room |
| `TutoringCommands.CurrentCycle` | src/client/tutoring/local-commands.ts:101-104 | the uncancelled cycle with the highest sequence number, if any |
| `ServerConfigure.BillingServer.Configure` | src/modules/tutoring/services/billing.service.ts:31-109 | the refusals of the server, and up to three statements that end in the specified store unless the process dies between two of them or the last row is ignored |
| `ServerConfigure.ConfigureResumes` | src/modules/tutoring/services/billing.service.ts:31-109 | wherever an accepted command died, sending it again is accepted and ends in the store of an uninterrupted run, failing in its last statement if and only if that run did |
| `ServerConfigure.MatchesClientIff` | src/client/tutoring/local-commands.ts:83-163 | the server answers and stores what the client did if and only if the mode does not change after lessons without a cycle and the cycles of the student are not all cancelled |
| `TutoringStore.BillingTables.CompleteOne` | src/client/tutoring/attendance-commands.ts:124-184 | the loop body equals the specified step and never reports an error |
| `TutoringStore.BillingTables.Complete` | src/client/tutoring/attendance-commands.ts:123-184 | the loop over billed students equals the specified fold |
| `TutoringStore.BillingTables.Renumber` | src/client/tutoring/attendance-corrections.ts:265-275 | the inner loop closes the gap |
| `TutoringStore.BillingTables.RemoveOne` | src/client/tutoring/attendance-corrections.ts:256-284 | working from the rows read beforehand equals removing the link from the current rows |
| `TutoringStore.BillingTables.Reopen` | src/client/tutoring/attendance-corrections.ts:179-284 | the loop over affected links equals the specified removal; the guard answers CORRECTION_REQUIRES_SYNC and changes nothing |
| `TutoringStore.BillingTables.Configure` | src/client/tutoring/local-commands.ts:83-229 | plan, first cycle and corrected progress as specified; a refusal changes nothing |
| `ServerReopen.ClientClosesAllGaps` | src/server/sync/tutoring.sync.ts:185-221 | deleting all links first and closing the gaps afterwards yields the client table |
| `ServerReopen.BillingDatabase.ShiftPositions` | src/server/sync/tutoring.sync.ts:201-205 | row by row, all rows of the cycle move by the constant and positions stay unique throughout |
| `ServerReopen.BillingDatabase.RenumberCycle` | src/server/sync/tutoring.sync.ts:201-221 | shift, reread in order and renumber close the gap, with unique positions at every step |
| `ServerReopen.BillingDatabase.ReopenOccurrence` | src/server/sync/tutoring.sync.ts:154-239 | the server loop ends in exactly the tables of the client, with unique positions throughout |
| `ReopenCrash.RetryAfterCrash` | src/server/sync/tutoring.sync.ts:185-231 | after a stop between two affected cycles a retry of the handler repairs nothing, and links and cycle rows are right if and only if each remaining lesson was the last of a cycle whose row was open, locked and without dates |
| `ReopenCrash.RetryWithinCycle` | src/server/sync/tutoring.sync.ts:190-230 | after a stop within the repair of a cycle, behind its shift and any number of renumbered rows, neither, and they are right if and only if all its rows had been renumbered, its row was open, locked and without dates, and nothing was left to do for the later ones |
| `ReopenCrash.RetryAfterDelete` | src/server/sync/tutoring.sync.ts:185-200 | the same right behind the DELETE |
| `ReopenCrash.LinksRightIff` | src/server/sync/tutoring.sync.ts:191-212 | the links alone are right if and only if each remaining lesson was the last of its cycle |
| `ReopenCrash.CyclesRightIff` | src/server/sync/tutoring.sync.ts:213-230 | the cycle rows alone are right if and only if each remaining cycle was under way |
| `ReopenRetry.HookRightsCycleIff` | src/server/integrations/financial-reconcile.sync-hook.ts:17-27 | the hook behind the retry rights status and dates of a cycle that was not repaired if and only if the cycle is locked and not cancelled, whatever money there is |
| `ReopenRetry.RetryReleasesIff` | src/server/sync/tutoring.sync.ts:233-252 | an uninterrupted reopen releases what a student who attended, or whose cycle lost the lesson, had paid on a target that is no longer owed; after a stop behind all repaired cycles a retry and its hook release it if and only if the stop was before the batch and he attended, or there was nothing |
| `LessonCompletion.WriteProgresses` | src/modules/tutoring/services/billing.service.ts:111-199 | every repository write brings the student closer to completion and keeps links unique |
| `LessonCompletion.Settle` | src/modules/tutoring/services/billing.service.ts:111-199 | the remaining writes end with nothing left to write |
| `LessonCompletion.WriteUntouched` | src/modules/tutoring/services/billing.service.ts:111-199 | writes for one student change nothing that billing another looks at |
| `LessonCompletion.ServerMatchesClientIff` | src/modules/tutoring/services/billing.service.ts:111-199 | on sound tables server and client record a lesson in the same tables if and only if the student has no package, or his plan names its size and price and the lesson is linked already, or it goes to an open cycle that has no date of payment or is filled by it, or no cancelled cycle has the highest sequence number of the student |
| `LessonCompletion.CancelledCycleIsCounted` | src/server/adapters/d1/tutoring-billing.repository.ts:178-185 | the failing input: the only cycle of the student was cancelled |
| `LessonService.Billed` | src/modules/tutoring/domain/session.ts:108-122 | the payer alone for a whole session that names one of its students, otherwise exactly the participants who are students of the session; each is listed once |
| `LessonService.RequestIsAcceptedIff` | src/modules/tutoring/services/occurrences.service.ts:39-80 | which occurrence states and which lists of participants are accepted, and the error for each other one |
| `LessonService.CompletingStoresAttendance` | src/modules/tutoring/services/occurrences.service.ts:60-108 | a refused command changes nothing; an accepted one stores the listed participants, or all students of the session, unless the lesson was completed before |
| `LessonService.LessonServer.Write` | src/modules/tutoring/services/billing.service.ts:145-190 | a write that is reached takes effect; a stopped process leaves the tables as they were; the goal of the writes is unchanged |
| `LessonService.LessonServer.Record` | src/modules/tutoring/services/billing.service.ts:111-199 | look-up, creation, link and closing equal the settled tables; stopped anywhere, the rest leads to the same tables; it fails exactly when the student cannot be billed |
| `LessonService.LessonServer.RecordAll` | src/modules/tutoring/services/occurrences.service.ts:96-103 | the loop over billed students, stopped anywhere, leaves the rest of the same outcome |
| `LessonService.LessonServer.Complete` | src/modules/tutoring/services/occurrences.service.ts:39-108 | stopped at any repository call and issued again, the command ends in the state and the answer of an uninterrupted one |
| `LessonService.EveryoneBilledOnce` | src/modules/tutoring/services/occurrences.service.ts:47-59 | a completed command leaves every packaged student it bills linked, and links stay unique |
| `Packages.AdvancedClosedForm` | src/modules/reports/monthly-forecast.ts:586-600 | progress, terms and sequence after any number of lessons, by division |
| `Packages.ChargedClosedForm` | src/modules/reports/monthly-forecast.ts:592-600 | the first completed cycle costs the open price, each further one the price of the plan |
| `Packages.CompletedClosedForm` | src/modules/reports/monthly-forecast.ts:589-590 | the completed sequences are the old ones and the next in a row |
| `Forecast.ChargeSession` | src/modules/reports/monthly-forecast.ts:553-571 | the charges of one slot to students who pay per session |
| `Forecast.ChargeFamily` | src/modules/reports/monthly-forecast.ts:614-630 | each sequence that is complete for all required members and not accounted for is charged once |
| `Forecast.ProjectedNewDue` | src/modules/reports/monthly-forecast.ts:451-635 | the loops come to the sum of the session charges, the closed form of each student outside families and one price per newly complete family sequence |
| `Forecast.SessionChargeCounts` | src/modules/reports/monthly-forecast.ts:553-571 | a slot priced per student costs its price for every participant outside families whose per-session plan has started by its date; a slot with one price costs it once if its payer is such a student |
| `Forecast.SessionTotalsAddUp` | src/modules/reports/monthly-forecast.ts:553-571 | the session charges of two stretches of slots add up |
| `Forecast.LessonsAreCounted` | src/modules/reports/monthly-forecast.ts:573-590 | a package advances by exactly the slots, on or after the start of its plan, that name the student or that he pays for as a whole |
| `Forecast.NothingBeforeStart` | src/modules/reports/monthly-forecast.ts:558-582 | slots before the start of a plan are forecast as if the student had none |
| `Forecast.StudentDueClosedForm` | src/modules/reports/monthly-forecast.ts:579-601 | the part of one student, however slots interleave |
| `Forecast.FamilyClosedForm` | src/modules/reports/monthly-forecast.ts:605-631 | which family sequences are charged: complete for every required member at the end, not accounted for before |
| `ModuleGraph.ValidateModuleGraph` | src/platform/modules/types.ts:40-73 | terminates on every input and accepts exactly graphs with unique keys, no repeated capability, existing dependencies and no cycle; keys enter visited in topological order |
| `ModuleGraph.GraphCheck.Visit` | src/platform/modules/types.ts:61-70 | a failing visit proves a cycle; a successful one marks the key and leaves the visits under way as they were |
| `ModuleGraph.TopologicalMeansAcyclic` | src/platform/modules/types.ts:61-72 | a topological order of all keys excludes cycles |
| `ModuleGraph.StackClosesCycle` | src/platform/modules/types.ts:63 | reaching a key under visit closes a cycle |
| `ModuleGraph.KeyCount` | src/platform/modules/types.ts:41-43 | the sizes agree exactly when no key is declared twice |
| `DueReports.CurrentDue` | src/modules/reports/insights.ts:166-233 | the walk over cycles and occurrences equals the sum of the student summaries, and with the covered part of all due targets it adds up to their prices |
| `DueReports.StudentDue` | src/modules/reports/student-finance.ts:121-171 | what one student owes and the covered part of his bill add up to the prices of his due cycles and lessons |
| `DueReports.OneMoreAllocation` | src/modules/reports/insights.ts:176-180 | one more allocation to a due target lowers the total by exactly what of it was still outstanding, and any other allocation by nothing |
| `DueReports.NothingDueIff` | src/modules/reports/insights.ts:176-215 | nothing is due if and only if the allocations of every due target reach its price |
| `DueReports.AttendeesAreStudents` | src/modules/reports/insights.ts:207-217 | summing over attendees or over all students is the same when nobody is listed twice |

## Left out

Assumptions of the sync and import models:

- A writer whose lease was recovered as stale issues no further statement; the code does not fence it.
- No local command changes the outbox while a sync of the same workspace is under way.
- The atomic restore batch of an import either commits and succeeds or fails without effect; the lease token
  derived from the import id is modelled as a token of the request, since only the creator of the row reserves.
- The clock of stale leases and stale journal rows is a step that may happen at any time.
- Two browser tabs, whose in-memory mutexes do not see each other.

Assumptions of single members:

- LocalFirstRuns.NoPullOverUnpublishedData: excludes imports that do not know of the link, resumes that know of another pending import, imports beside a first link, and a local restore that fails after replacing data or over a copy that the cloud never confirmed, because the code fails there (see above).
- ClientWorkflows.ImportStaysSafe: excludes the same local restores.
- FinancialReconcile.StudentReconciler.Reconcile: the settled ledger that it requires is what every history of `CollectionRuns` keeps; the normalization that follows the loop is `CycleStatus.CycleTable.Normalize`.
- CollectionLaws.CrashThenRetry: a lemma about the loop alone; `CollectionRuns.CollectCrashThenRetry` is the statement about the whole call.
- ReceiptCorrections.ReceiptHandler.SetDeleted: receipts of students; the receipts of a family account are reconciled by the server's own family code, which is not part of this model, and the status of the cycles is `CycleStatus`.
- Rebalance.RebalanceClosedForm: receipts are distinct and active and obligations have distinct targets, as the tables and the obligation provider guarantee.
- LocalRebalance.ClientRefinesServer: excludes allocations of other payers on the same targets, which the client tally does not count.
- LessonService.LessonServer.Complete: the session and the other tables are unchanged between the attempts; the order of a stored attendance is the order in which it was given; the lock timestamp of a cycle belongs to the write that links a lesson.
- Forecast.ProjectedNewDue: starts from given packages and given family accounts; how they are derived from stored cycles, and the generation of the slots, are not part of this model.
- FamilyBilling.DueMeansNoCreditLeft: speaks of sequences that a required student has an uncancelled cycle for; a family cycle without one is left as it was, as the code does.
- DueReports.CurrentDue: no family accounts, one plan per student, sessions and snapshots already resolved into the price of a lesson.

Not modelled:

- The SQL of the obligation provider; what it lists is a parameter, and for the cycles of a student outside family accounts the rows that are due or paid.
- A complete cycle without a date of completion, a completed lesson or a starting date, which the normalization refuses.
- Editing the amount or the payer of a receipt.
- Family accounts that are inactive or unknown, for which the client does nothing; the server's own version of the reconcile.
- Cancelling, restoring and rescheduling occurrences.
- SQL, IndexedDB, HTTP, zod parsing, authentication, UUIDs and time zones; a statement or transaction is one atomic step.
- Floating point and safe-integer limits: pence are integers.
- Handlers of single mutations: a push handler writes any rows of its mutation and then succeeds or fails.
