# Verified model of the job platform's backend

This project models the parts of the backend whose correctness rests on more than one function, and proves what they promise. It covers the SQLite provider.

* **The document store.** A JSON tree is kept as a flat table of anchored documents with a global revision counter. `JsonTree` has the tree operations, `DocumentTable` the table and its refinement of the tree, `SqliteStore` the store as an object changed in place, `StoreTransactions` the optimistic asynchronous transactions of any number of processes, `JobSave` the three-way field merge of `Job.save`.
* **The durable lease queue.** `QueueRecord` has the record of one job and its seven transactions as guarded functions. `QueueRuns` is the step system of whole timed runs: many jobs, many runtimes, clock readings with a bounded error, and every await of the runner and of `cancelJob` an interleaving point; the clean-up of a failed creation may delete a record at any time. `QueueSafety`, `QueueLeases` and `QueueHandover` prove the safety theorems, `QueueOutcomes` what becomes of a job, `Recovery` the recovery pass, `DrainScheduler` the event-loop scheduler of one runtime.
* **Job creation.** `JobIds` has the job id format and the search for a free id. `JobCreation` is the step system of interleaved creations in one process: the two mutexes made of maps of promises, the search, the creation and the clean-up after a failure.
* **Skill packages.** `Glob` has the compiler from include patterns to regular expressions, `Fingerprint` the byte stream behind a package fingerprint, `Dependencies` the recursive loader.
* **Smaller stateful parts.** `Subscriptions` is the two-way subscription index, `SettingsImport` the revision-bound import of settings.

`Wrappers` holds `Option` and `Result`, `Decimals` the decimal notation of numbers. To verify everything, run `dafny verify dfyconfig.toml`.

## How to read the run theorems

A run is a finite sequence of steps folded over a state; a step that is not enabled changes nothing, so every sequence is a run. A theorem names the hypotheses it needs as predicates on runs:

* `FreshRun`: records are created as `createSkillJob` creates them, and enqueueing commits only on records that have never left `queued`; enqueues that the guards refuse are allowed. `ReplaysExactly` shows that this is the boundary.
* `OnTimeRun`: clock readings lie between the common time and that time plus the clock error, and no heartbeat of a claimed job that is still `queued` is overdue. `UndisturbedRun`, for one job: between a claim of it and the runner's first save neither a cancellation of a running job nor a shutdown of the executor commits. `DisciplinedRun` is both, for all jobs. `EarlyCancelAdmitsSecondExecutor` and `EarlyShutdownAdmitsSecondExecutor` show what happens to a disturbed job, `OnlyInterferenceAdmitsSecond` that nothing else does it.
* `ActiveLoadsRun`: a runner loads a record whose status is not terminal.
* `LeaseRun`: heartbeats stay on time until the status is terminal; the readings of one runtime grow from each claim or renewal of a job to the next; the executor is not shut down while it executes the job; and a runtime that finalizes a job while it executes it a second time does not read the very heartbeat that a pending cancellation has loaded. Readings of different runtimes are not compared.
* `HandoverRun`: cancellations use `allowRunning = false` and do not read the very heartbeat that they have loaded from an earlier cancellation; a runtime claims a job at a later reading than it has stored for it before, and its clock does not run backwards between its heartbeats; runners load records that are not terminal. Readings of different runtimes are not compared.
* `NoFailure`: no creation with the given key meets an exception.
* `FreshAdds`: a websocket client is added only while it has no subscriptions. `NeverAnsweredLate`: no subscription is answered for a client that is not connected.
* `SeparateSteps`: no enqueue lands on an id that became known to the runtime while the enqueue was suspended, and no local cancellation cuts its job out of the queue after an entry at or before that job's has left it.
* `CallsIncrement`: whatever the updater of a call at the measured document may answer is one more than what it read, and calls elsewhere neither contain nor lie below that document. `WritesElsewhere`: no direct write does either.
* `PlainRun`: every committed write names its members, continues below no truthy primitive and places only objects as members of nested collections. A write names its members (`NamesMembers`) when no key that becomes part of a row path is empty: the source stores a row with an empty key under a shorter path. The last two parts are the exact conditions of `WriteSimulates`.

## Where the code does less than it might seem to

* A write that continues below a stored truthy primitive commits but changes nothing, or throws when the path goes on through a missing member (`PrimitiveKeepsDocument`). Of a member of a nested collection that is no object the source stores whatever entries it has: of a text one document for each character (`TextMemberSplits`), of a number nothing (`NumberMemberVanishes`). `WriteSimulates` proves that these are the only two cases in which a committed table write is not the tree write; whether a write is one of the second can be seen from its path and value alone.
* `claimJob` guards the queue states `claimed` and `running` only. `OwnerTakenExactly` says exactly when a foreign transaction takes a running lease away, and `EarlyCancelAdmitsSecondExecutor` is a run in which a cancellation between claim and first save leads to two executors. `ExecutorsDisjointExactly` says for every run, whatever its clocks and cancellations do, which step is the first to put a second runtime beside an executor.
* `enqueueJob` puts any active record without a running lease back to `queued`. `EnqueueReplaysExactly` says exactly when one enqueue does that, `ReplaysExactly` that in a run nothing else does.
* A runner that fails after its result was saved overwrites one terminal status by another. `FailureReplacesCompletion` is such a run from any fresh job, and `TerminalMovesExactly` proves for every run that a terminal status changes exactly at a committed runner save from an object that had loaded that status.
* A runtime that shuts down gives its lease up while its runners are still there.
* An enqueue that was suspended while a recovery queued the same id duplicates the local entry (`LateEnqueueDoubles`). A local cancellation cuts by an index remembered across an await, so that a drain in between makes it cut out another job's entry: that job stays known to the runtime and is never queued again (`LateCutStrands`, `StrandedForGood`). `NextKeepsOneEach` gives the exact condition for both steps and proves that no other step breaks the entries.
* A subscription answered after its client was removed leaves a subscriber that is not connected (`LateAnswerLeavesSubscriber`). `NextKeepsConnected` proves that this is the only event that does.
* A field that a job object has filled in while loading can never be changed by a save while the stored record lacks it (`FilledFieldConflicts`).
* A question mark in an include pattern is passed on as a quantifier. `PatternReadsAsIntended` proves that it is the only character read otherwise than intended.
* A carriage return before a line feed that belongs to the content is lost in normalisation. `CheckoutKeepsFingerprint` gives the exact condition.
* Adding a websocket client that already has subscriptions breaks the agreement of the two indexes. `AddKeepsAgreement` gives the exact condition, `SecondAddSplitsIndexes` a run.

## Model

| member | source | states |
|---|---|---|
| JsonTree.GetLoop | backend/src/db/jsonTree.js:25-32 | the walking loop finds what is stored at a path, null when a step is missing or not an object |
| JsonTree.PatchLoop | backend/src/db/jsonTree.js:45-51 | applying `set` once per field, in any order, is the field overlay in which null deletes; a payload that is no object or has an empty field name is refused |
| JsonTree.PatchFields | backend/src/db/jsonTree.js:45-51 | a patched object has exactly the fields that the payload gives a value and those that it does not name |
| JsonTree.GetSetUnder | backend/src/db/jsonTree.js:33-44 | after a set at a path, reading at or below it gives the value set |
| JsonTree.GetSetAbove | backend/src/db/jsonTree.js:33-44 | after a set, reading above it gives the old subtree with the value set in it |
| JsonTree.GetSetOther | backend/src/db/jsonTree.js:33-44 | a set leaves every path that is neither above nor below it reading as before |
| JsonTree.SetNullDeletes | backend/src/db/jsonTree.js:33-44 | setting null leaves the container of the path without its last key |
| JsonTree.SafeKeyExactly | backend/src/db/jsonTree.js:4-13 | a key is accepted exactly when it is no reserved word and has no control character and none of seven others |
| JsonTree.ValidExactly | backend/src/db/jsonTree.js:14-24 | the recursive check accepts exactly the values with nothing inside them more than forty keys deep or under a refused key |
| DocumentTable.SetTree | backend/src/db/sqliteStore.js:70-75 | one step of folding rows into a tree is adding or replacing that row |
| DocumentTable.GetTree | backend/src/db/sqliteStore.js:62-76 | reading the table by row lookup or by folding is reading the tree the table stands for |
| DocumentTable.AnchorDepth | backend/src/db/sqliteStore.js:61-64 | documents are anchored three keys deep in exactly three collections, two keys deep elsewhere |
| DocumentTable.NoEmptyContainer | backend/src/db/sqliteStore.js:105-113 | above the anchors no empty container is ever read: absent is its only spelling |
| DocumentTable.WriteKeepsWellFormed | backend/src/db/sqliteStore.js:85-117 | every committed write leaves only non-null documents at their anchors |
| DocumentTable.WriteSimulates | backend/src/db/sqliteStore.js:92-113 | a committed write or merge, at, below or above the anchor depth, is the tree write exactly when the path does not continue below a truthy primitive and the value places only objects (or null) as members of a nested collection; keys that become parts of row paths are not empty |
| DocumentTable.PrimitiveKeepsDocument | backend/src/db/sqliteStore.js:92-99 | below a stored truthy primitive a write either keeps the document and only raises the row's revision, or throws, exactly when the path goes on through a missing member |
| DocumentTable.NumberMemberVanishes | backend/src/db/sqliteStore.js:105-113 | the other failing family shown on a number or boolean: a member of a nested collection that the plain tree has and no row stores |
| DocumentTable.TextMemberSplits | backend/src/db/sqliteStore.js:105-113 | the other failing family: a text of two characters at a member of a nested collection becomes two documents that the plain tree does not have |
| DocumentTable.PrimitiveDocumentDropsWrite | backend/src/db/sqliteStore.js:96-99 | the first failing family shown on a stored number: the write commits and only raises the row's revision |
| DocumentTable.RunSimulates | backend/src/db/sqliteStore.js:85-117 | over any run of writes, refused ones included, that avoids these two cases and empty keys the table keeps standing for the plain tree |
| DocumentTable.ReadSimulates | backend/src/db/sqliteStore.js:66-69 | at or below an anchor, table and tree read alike |
| DocumentTable.ReadAboveSimulates | backend/src/db/sqliteStore.js:70-75 | above the anchors, table and tree hold the same documents |
| DocumentTable.WriteFrame | backend/src/db/sqliteStore.js:85-117 | a committed write leaves every incomparable path reading as before |
| DocumentTable.WriteReadBack | backend/src/db/sqliteStore.js:92-99 | a value written at or below an anchor is read back exactly |
| DocumentTable.MergeReads | backend/src/db/sqliteStore.js:92-101 | after a committed merge at, below or above the anchors, whatever lies under a key of the payload reads as the payload has it and everything else as before |
| DocumentTable.MergeKeepsContainers | backend/src/db/sqliteStore.js:100-113 | so do the members of a collection that a merge above the anchors does not name |
| DocumentTable.WriteCommitsExactly | backend/src/db/sqliteStore.js:85-113 | exactly when a write commits: value within the limits, clean path, an object to merge, a collection that is an object, nothing assigned below a missing member of a primitive |
| DocumentTable.PrimitiveExactly | backend/src/db/sqliteStore.js:97 | the documents below which a write gets lost are the numbers, booleans and texts that are not read as false |
| DocumentTable.ReachesExactly | backend/src/db/jsonTree.js:33-44 | assigning below a primitive is ignored instead of throwing exactly right below it, below a character of a text or below its length |
| SqliteStore.SqliteStore.Initialize | backend/src/db/sqliteStore.js:33-42 | a new store is empty at revision 0 |
| SqliteStore.SqliteStore.Read | backend/src/db/sqliteStore.js:62-76 | the row lookup and the fold over one collection both return what the tree holds at the path |
| SqliteStore.SqliteStore.UpsertRow | backend/src/db/sqliteStore.js:78-84 | null deletes the row, anything else replaces it and raises its revision |
| SqliteStore.SqliteStore.ReplaceAbove | backend/src/db/sqliteStore.js:100-113 | deleting the rows under a path and inserting the members of the new value replaces exactly the rows under the path |
| SqliteStore.SqliteStore.Write | backend/src/db/sqliteStore.js:85-117 | the whole new table and revision of a write, and the rollback of a refused one |
| SqliteStore.SqliteStore.CommitIfUnchanged | backend/src/db/sqliteStore.js:122-128 | the commit of `transact`: nothing is written unless the revision is the one read before the updater |
| StoreTransactions.TransactionsAreSerialisable | backend/src/db/sqliteStore.js:118-131 | under any interleaving the table is the sequential application of the commits in commit order, each updater saw exactly the state its commit replaced, each call commits at most once, and each commit raises the revision by one |
| StoreTransactions.ContentionNeedsForeignCommits | backend/src/db/sqliteStore.js:118-131 | a contention error means nothing was written and at least maxRetries other commits happened meanwhile |
| StoreTransactions.AnswerDecides | backend/src/db/sqliteStore.js:118-131 | in every reachable state an abort ends the call, an overtaken answer costs one attempt, and any other one is written or fails exactly as a direct write of it would |
| StoreTransactions.DirectWriteLands | backend/src/db/sqliteStore.js:85-117 | an accepted direct write takes effect at once and raises the revision by one |
| StoreTransactions.ThrowEnds | backend/src/db/sqliteStore.js:118-131 | an updater that throws ends its call without a trace in the store |
| StoreTransactions.CallAloneCommits | backend/src/db/sqliteStore.js:118-131 | a call that nobody overtakes commits at its first attempt what its updater makes of the stored value |
| StoreTransactions.CountersNeverLoseUpdates | backend/src/db/sqliteStore.js:118-131 | when all updaters at an anchored document can only increment it, its measure grows in every run by exactly the number of calls that committed there |
| JobSave.Job.constructor | backend/src/models/Job.js:39-72 | the snapshot of a loaded object is taken after its missing fields are filled in |
| JobSave.FilledFieldConflicts | backend/src/models/Job.js:195-208 | a filled-in field is left alone by a save of other fields, and conflicts when changed while the record lacks it |
| JobSave.Job.Create | backend/src/models/Job.js:138-143 | a record is stored only under an unused id, deleted records included |
| JobSave.Job.Save | backend/src/models/Job.js:195-214 | a save stores the three-way merge of record, snapshot and object and refreshes both, or changes nothing |
| JobSave.SaveWritesOnlyChanges | backend/src/models/Job.js:195-208 | when exactly a save commits, and that it writes only the fields its holder changed |
| JobSave.MissingExactly | backend/src/models/Job.js:199-201 | a save finds no record exactly when there is none or its deletion mark is not read as false |
| JobSave.SaveIsFieldwise | backend/src/models/Job.js:200-206 | field by field a save is the merge of three values, and one conflicting field refuses it |
| JobSave.DisjointSavesCommute | backend/src/models/Job.js:195-208 | saves from one baseline that change different fields commute, results and refusals alike |
| JobSave.ReplacedOnlyByWitness | backend/src/models/Job.js:200-206 | a stored field value is replaced only by a saver whose baseline is that value |
| JobSave.NoSilentLostUpdate | backend/src/models/Job.js:195-214 | over any run of saves a value once stored is still there or was replaced by a saver that had loaded it |
| QueueRecord.TransactionEffects | backend/src/queue/jobQueue.js:76-416 | after any of the seven transactions: who owns the job, exactly when a lease is running, and which fields may have changed |
| QueueRecord.CommitsExactly | backend/src/queue/jobQueue.js:76-418 | exactly when each of the seven transactions commits |
| QueueRecord.LeaseBlockAfter | backend/src/queue/jobQueue.js:76-418 | the lease block field by field: heartbeat, date of the claim, queue state, recovery mark, and a cancellation request that stands until the job is claimed or released |
| QueueRecord.TransactionsKeepTerminal | backend/src/queue/jobQueue.js:142-183 | only finalize and shutdown commit on a terminal record, and neither changes its status |
| QueueRecord.FinalizeEnds | backend/src/queue/jobQueue.js:142-183 | finalize commits exactly for the owner; a job without a recorded result ends as failed with the error and the event that say so, a recorded result is left alone, and the lease is gone |
| QueueRecord.OwnerTakenExactly | backend/src/queue/jobQueue.js:76-101 | exactly when a transaction of another runtime takes a job from the holder of an unexpired lease |
| QueueRecord.EnqueueReplaysExactly | backend/src/queue/jobQueue.js:236-255 | exactly when enqueueing puts a job that had left the queue back into it |
| QueueRuns.PeriodLeavesHalfTheLease | backend/src/config/env.js:73-74 | with the configured minima the heartbeat period leaves five seconds of lease for skew and delay |
| QueueRuns.SaveStatus | backend/src/models/Job.js:195-208 | what a committed save of a job object does to status and lease block |
| QueueRuns.NoReplay | backend/src/skills/genericSkillRunner.js:240-255 | a status that has left `queued` never returns to it, and at most one save per job moves it from `queued` to `generating` |
| QueueRuns.ReplaysExactly | backend/src/queue/jobQueue.js:236-255 | the first step of a run that puts a started job back to `queued` is exactly an enqueue that the guards do not refuse |
| QueueSafety.DisjointExecutors | backend/src/queue/jobQueue.js:76-134 | over whole timed runs the executions in flight on a job that nobody disturbs belong to one runtime |
| QueueSafety.CellAdmitsSecondExactly | backend/src/queue/jobQueue.js:76-101 | one step puts a second runtime beside an executor exactly when it is a claim by another runtime of a `queued` record that does not say someone else holds it |
| QueueSafety.ExecutorsDisjointExactly | backend/src/queue/jobQueue.js:76-101 | in every run, with no hypothesis, the executions in flight on a job belong to one runtime throughout exactly when no step is such a claim |
| QueueSafety.OnlyInterferenceAdmitsSecond | backend/src/queue/jobQueue.js:76-134 | with timely clocks and no replay, two runtimes on one job mean that an earlier step of the run was a cancellation or shutdown between a claim of that job and the runner's first save |
| QueueSafety.ClaimIsCovered | backend/src/queue/jobQueue.js:103-134 | while a claimed job has not left `queued`, its executor owns it under a lease valid for every admissible clock reading |
| QueueSafety.EarlyCancelAdmitsSecondExecutor | backend/src/queue/jobQueue.js:277-293 | for every fresh job: a cancellation before the first save lets a second runtime claim the job |
| QueueSafety.EarlyShutdownAdmitsSecondExecutor | backend/src/queue/jobQueue.js:400-418 | for every fresh job: a shutdown before the first save lets a second runtime recover and claim the job |
| QueueSafety.SaveReplacesTerminalExactly | backend/src/models/Job.js:195-208 | a committed save replaces a terminal status exactly when its object had loaded that status and carries another |
| QueueSafety.TerminalMovesExactly | backend/src/skills/genericSkillRunner.js:163-238 | in every run a step changes a terminal status exactly when it is a committed runner save from an object that had loaded it |
| QueueSafety.FailureReplacesCompletion | backend/src/skills/genericSkillRunner.js:268-285 | from any fresh job a failure after the saved result ends as `failed` |
| QueueSafety.TerminalIsAbsorbing | backend/src/services/jobService.js:567-621 | over every run without such a save a terminal status never changes |
| QueueLeases.ExecutorHoldsLease | backend/src/queue/jobQueue.js:103-204 | executing implies that the record names the executor and its lease is valid or the job is terminal |
| QueueLeases.HeartbeatExtendsLease | backend/src/queue/jobQueue.js:103-125 | in such runs no heartbeat of an executor of an active job is refused, and each extends the lease to its full duration |
| QueueOutcomes.SaveMergesFields | backend/src/models/Job.js:195-208 | exactly when a save of a job object commits, and what it leaves in each field |
| QueueOutcomes.ResultIsStored | backend/src/skills/genericSkillRunner.js:163-238 | a result saved on the record the runner has loaded is stored with all its parts and nothing else |
| QueueOutcomes.StoppedWorkerFails | backend/src/queue/jobQueue.js:185-204 | from any fresh job a worker that stops without recording a result leaves a failed job without a lease |
| QueueOutcomes.CompletesExactly | backend/src/queue/jobQueue.js:142-183 | in every run each status is given only by the steps meant to give it, and a job becomes completed exactly at a runner's committed result save that says so |
| QueueOutcomes.CancellationOutcome | backend/src/services/jobService.js:567-621 | what an undisturbed cancellation makes of an active job: told to stop under its lease while it runs, otherwise ended as cancelled, with its partial result exactly when it had started and has outputs; unsupported, unchanged |
| QueueOutcomes.DeletedForGood | backend/src/skills/genericSkillJobService.js:172-180 | over every run a record deleted by the clean-up of its creation never changes again |
| QueueHandover.LeaseIsRespected | backend/src/queue/jobQueue.js:273-312 | for jobs cancelled only while unclaimed, `cancelling` never appears and no step of another runtime and no cancellation, enqueue or save touches a valid lease |
| Recovery.RuntimeQueue.ReconcileInterruptedJob | backend/src/queue/jobQueue.js:314-380 | one record is recovered and queued locally exactly when it stays `queued` and is not known yet |
| Recovery.RuntimeQueue.ReconcileQueue | backend/src/queue/jobQueue.js:382-387 | the loop recovers every active record and appends the requeued ids in inspection order |
| Recovery.PassOutcome | backend/src/queue/jobQueue.js:316-363 | what becomes of each record: held, terminal and deleted ones untouched, queued ones released with nothing else changed, cancelling ones cancelled with their partial result exactly when there are outputs, all others failed with an error that names the previous owner, each with its event |
| Recovery.ActiveAfterPass | backend/src/queue/jobQueue.js:316-363 | after a pass every active record is held and unchanged or a released queue entry |
| Recovery.PassIsIdempotent | backend/src/queue/jobQueue.js:382-387 | a second pass at the same time, by any runtime, changes no record |
| Recovery.EventsAreNotRepeated | backend/src/queue/jobQueue.js:37-43 | recovery and finalization append at most one event and never repeat one |
| Recovery.RequeuedAreNew | backend/src/queue/jobQueue.js:365-380 | the requeued ids are distinct, new to the runtime and name released entries |
| Recovery.RequeuedExactly | backend/src/queue/jobQueue.js:365-380 | the requeued ids are exactly the records found queued, not held and unknown to the runtime |
| DrainScheduler.SchedulerIsSound | backend/src/queue/jobQueue.js:185-304 | in every interleaving: the active set stays within the limit, one drain loop runs, claims follow the order of the pushes that no cancellation cuts out, a cancellation finds its entry as long as none at or before it has left, and a waiting job with a free slot has a drain coming |
| DrainScheduler.ExecutionsAreGrants | backend/src/queue/jobQueue.js:185-226 | in every interleaving the executions in flight are exactly the claims that were granted and have not ended, each of the job its claim was made for |
| DrainScheduler.ActiveIsInExecution | backend/src/queue/jobQueue.js:185-204 | slots are taken by jobs in execution only, and in separate runs by all of them |
| DrainScheduler.NextKeepsOneEach | backend/src/queue/jobQueue.js:257-271 | one step keeps queue, claim and executions free of duplicates and exactly the known ids, except exactly an enqueue that lands on a known id and a cancellation whose cut takes another job's entry, or none while its job is known |
| DrainScheduler.OneEntryPerJob | backend/src/queue/jobQueue.js:185-304 | in every run without such an enqueue and without late cuts no job is queued, claimed or executed twice at a time, and none is known without an entry |
| DrainScheduler.LateCutStrands | backend/src/queue/jobQueue.js:273-304 | a run from the idle scheduler in which the cancellation of one job cuts out the next job's entry, which leaves that job known but nowhere |
| DrainScheduler.StrandedForGood | backend/src/queue/jobQueue.js:206-304 | such a job is never queued, claimed or executed in any continuation, unless an enqueue that had passed its check before lands on it |
| DrainScheduler.LateEnqueueDoubles | backend/src/queue/jobQueue.js:257-271 | a run from the idle scheduler in which an enqueue lands on an id that a recovery pass has queued meanwhile |
| DrainScheduler.QuietMeansFullOrEmpty | backend/src/queue/jobQueue.js:206-234 | when nothing is suspended or owed, the queue is empty or the slots are full |
| DrainScheduler.Scheduler.RunDrainLoop | backend/src/queue/jobQueue.js:212-226 | the nested loops run to the next claim or to their end |
| DrainScheduler.Scheduler.DrainQueue | backend/src/queue/jobQueue.js:206-230 | a drain call starts the loop or asks the running one to go on |
| DrainScheduler.Scheduler.OnClaimAnswered | backend/src/queue/jobQueue.js:185-226 | a granted claim takes a slot and starts an execution, a refused one forgets the id, and the loop goes on |
| DrainScheduler.Scheduler.OnExecutionEnded | backend/src/queue/jobQueue.js:185-204 | an ended execution frees its slot and owes a drain |
| DrainScheduler.Scheduler.OnCancelStarted | backend/src/queue/jobQueue.js:273-276 | the index of the job's first entry is remembered, if it has one |
| DrainScheduler.Scheduler.OnCancelAnswered | backend/src/queue/jobQueue.js:299-304 | unless the job is running, whatever is at the remembered index by now is cut out and the id forgotten |
| DrainScheduler.Scheduler.OnEnqueuePersisted | backend/src/queue/jobQueue.js:257-271 | a persisted enqueue pushes the id and owes a drain |
| JobIds.SequenceReadsBack | backend/src/utils/jobIdGenerator.js:3 | the number read from a padded sequence is the sequence: padding is injective |
| JobIds.CandidatesAreDistinct | backend/src/utils/jobIdGenerator.js:14-16 | ids of different dates or sequences differ |
| JobIds.CandidateForm | backend/src/utils/jobIdGenerator.js:3-16 | an id reads as its date and its number, written with three digits as long as three are enough and without padding beyond that |
| JobIds.JobIdGenerator.ReserveUniqueJobId | backend/src/utils/jobIdGenerator.js:40-79 | the search reserves the first free candidate after the latest id, and fails only when a thousand ids are reserved or stored |
| JobIds.JobIdGenerator.GenerateUniqueJobId | backend/src/utils/jobIdGenerator.js:81-85 | reserving and releasing gives an id that is neither reserved nor stored and leaves the reservations of others untouched |
| JobCreation.Reservations.Enter | backend/src/services/jobControlService.js:157-169 | the operation starts exactly when no other with the key is under way, and otherwise the caller learns which one to await |
| JobCreation.Reservations.Leave | backend/src/services/jobControlService.js:171-177 | after an operation its key is free for whoever waits, and the map still holds exactly the operations under way |
| JobCreation.KeepsLocks | backend/src/utils/jobIdGenerator.js:18-38 | the id locks stay exactly those of the searches under way |
| JobCreation.OneOperationAndOneJobPerKey | backend/src/services/jobControlService.js:144-178 | in every interleaving, failures included, one operation per key is in flight and one job that is not deleted carries a key |
| JobCreation.CreatedExactlyOnce | backend/src/skills/genericSkillJobService.js:85-185 | without a failure all calls with one key that return, return the same live job, and exactly one says it created it unless the key had a job before |
| JobCreation.JobIdsAreNeverShared | backend/src/utils/jobIdGenerator.js:18-79 | whatever the latest-job lookups answer, held ids are distinct and unstored until their own creation, creations never meet an id conflict, created ids are distinct, and only held ids stay reserved |
| JobCreation.SearchSkipsOnlyTaken | backend/src/utils/jobIdGenerator.js:55-70 | in every interleaving a search has passed over a candidate only if its id was reserved or stored at some point |
| JobCreation.NoOrphans | backend/src/skills/genericSkillJobService.js:85-185 | in every interleaving, failures included, a job that is neither deleted nor about to be was there before or belongs to a call that stands by it |
| JobCreation.SomeCallMoves | backend/src/services/jobControlService.js:144-178 | no deadlock: as long as some call is not done, some call can move |
| JobCreation.CallFailsExactly | backend/src/skills/genericSkillJobService.js:85-185 | a call fails exactly when an exception is thrown in it or its search has gone through a thousand candidates; storing the record never does |
| JobCreation.CreationReturns | backend/src/skills/genericSkillJobService.js:85-185 | an undisturbed creation returns a new live job under the first candidate and leaves no lock, reservation or reserved id behind |
| JobCreation.ReplayReturns | backend/src/services/jobControlService.js:144-178 | a creation whose key has a live job is answered with that job and changes nothing |
| Glob.PatternToRegex | backend/src/skills/skillPackageService.js:12-29 | the loop over the pattern emits the text of the compiled tokens |
| Glob.PatternReadsAsIntended | backend/src/skills/skillPackageService.js:12-29 | the emitted text, read as a regular expression, is the intended one exactly when the pattern has no question mark |
| Glob.TokensMeaning | backend/src/skills/skillPackageService.js:12-29 | what each emitted piece matches |
| Glob.CompiledPatternIsTheGlob | backend/src/skills/skillPackageService.js:12-29 | the compiled expression matches a path exactly when the segment-wise reading of the pattern does |
| Fingerprint.CheckoutsAgree | backend/src/skills/skillPackageService.js:58-63 | a text and its CRLF checkout normalise alike exactly when the text has no CRLF of its own |
| Fingerprint.NormalizeSplits | backend/src/skills/skillPackageService.js:58-63 | every carriage return before a line feed goes, wherever it stands |
| Fingerprint.StreamReadsBack | backend/src/skills/skillPackageService.js:69-76 | the stream of records parses back to the records |
| Fingerprint.StreamIsInjective | backend/src/skills/skillPackageService.js:69-76 | equal streams exactly for equal records |
| Fingerprint.SortedListIsUnique | backend/src/skills/skillPackageService.js:53-56 | a set of files has only one sorted list |
| Fingerprint.BeforeIsLexicographic | backend/src/skills/skillPackageService.js:53-56 | the order of the list is the lexicographic one, and any two different paths are ordered |
| Fingerprint.CalculatePackageFingerprint | backend/src/skills/skillPackageService.js:65-79 | the loop hashes the stream of all files, and fails exactly for an empty list |
| Fingerprint.FingerprintIdentifiesPackage | backend/src/skills/skillPackageService.js:65-79 | without a hash collision two packages have one fingerprint exactly when their files and contents agree, texts up to line endings and all other files exactly |
| Fingerprint.CheckoutKeepsFingerprint | backend/src/skills/skillPackageService.js:58-79 | when exactly a checkout with carriage returns keeps the fingerprint |
| Dependencies.VisitShrinks | backend/src/skills/skillPackageService.js:94-96 | each level of the recursion visits a new approved skill, so it ends on every manifest graph |
| Dependencies.LoadsExactlyWhenGraphIsSound | backend/src/skills/skillPackageService.js:81-118 | a skill loads exactly when every reachable skill is approved, has an admissible manifest, the approved hash on disk and compatible dependencies, and no cycle is reachable |
| Dependencies.LoadedTreeIsApproved | backend/src/skills/skillPackageService.js:108-117 | every node of a loaded tree carries the manifest and hash of its package, which are the approved ones, and exactly its declared dependencies in supported versions |
| Dependencies.TamperedPackageIsRefused | backend/src/skills/skillPackageService.js:101-107 | a package whose bytes are not the approved ones is refused as unapproved, however valid its manifest |
| Subscriptions.AddKeepsAgreement | backend/src/websocket/subscriptionManager.js:8-11 | adding a client keeps the indexes in agreement exactly when it has no subscriptions |
| Subscriptions.IndexesAgree | backend/src/websocket/subscriptionManager.js:8-77 | in every run with fresh adds the indexes agree, no empty entry is kept, and subscribers are those whose last event was a subscription |
| Subscriptions.ClientsAreJoined | backend/src/websocket/subscriptionManager.js:8-28 | in every run the connected clients are those added and not removed since |
| Subscriptions.NextKeepsConnected | backend/src/websocket/subscriptionManager.js:13-60 | one event keeps all subscribers connected, except exactly a subscription answered for a client that is not |
| Subscriptions.LateAnswerLeavesSubscriber | backend/src/websocket/subscriptionManager.js:13-60 | a run from the empty index in which a client that has disconnected stays a subscriber |
| Subscriptions.SecondAddSplitsIndexes | backend/src/websocket/subscriptionManager.js:8-11 | a run from the empty index in which adding a client again leaves its subscription in one index only |
| Subscriptions.SubscribersAreConnected | backend/src/websocket/subscriptionManager.js:8-77 | in every run without such an answer all subscribers are connected clients |
| Subscriptions.SubscriptionManager.RemoveClient | backend/src/websocket/subscriptionManager.js:13-28 | the loop takes the client out of every job and drops emptied entries |
| Subscriptions.SubscriptionManager.OnSubscribeAnswered | backend/src/websocket/subscriptionManager.js:41-60 | both indexes gain the pair, or nothing changes when the job is missing |
| Subscriptions.SubscriptionManager.UnsubscribeClientFromJob | backend/src/websocket/subscriptionManager.js:62-77 | both indexes lose the pair |
| Subscriptions.SubscriptionManager.PublishToJob | backend/src/websocket/subscriptionManager.js:79-95 | the message reaches exactly the open clients that last subscribed to the job, once each, and they are counted |
| SettingsImport.PreviewForetellsCommit | backend/src/services/adminDataService.js:127-139 | an import that nothing has overtaken commits exactly when its preview showed no conflict |
| SettingsImport.ImportWritesAll | backend/src/services/adminDataService.js:151-156 | a committed import wrote every record one revision up, the audit entry, and nothing else |
| SettingsImport.ImportIsBoundToItsPreview | backend/src/services/adminDataService.js:140-158 | over any run with other writers each application was presented by the admin who had previewed it, within ten minutes and with the confirmation text, worked on exactly the previewed database and bundle, and no token was applied twice |
| SettingsImport.AdmittedExactly | backend/src/services/adminDataService.js:140-149 | in every reachable state an application is admitted exactly when it shows all this and the database is still the previewed one |
| SettingsImport.PromptImportApplies | backend/src/services/adminDataService.js:127-158 | from any state a conflict-free bundle that is previewed and applied within ten minutes with nobody else writing is applied |
| SettingsImport.OvertakenImportIsRefused | backend/src/services/adminDataService.js:149-152 | a write after the preview makes the application refused, a write after its checks makes it write nothing |
| SettingsImport.ConflictsExactly | backend/src/services/adminDataService.js:131-132 | the conflicts shown are exactly the keys whose record has another revision than expected |
| SettingsImport.InspectsExactly | backend/src/services/adminDataService.js:114-126 | exactly which bundles pass the inspection |
| SettingsImport.CommitOnStore | backend/src/services/adminDataService.js:151-156 | the transaction's loops on the store write all or nothing |

## Left out

- JsonTree.GetLoop: it does not step into arrays, so reading an item or the `length` of an array by its key gives null where the source gives the item or the number.
- JobSave.Job.constructor: which fields are filled in, and with what, is the parameter `fill`.
- Paths are sequences of keys: splitting and unnormalised spellings are not modelled. A row whose path would have an empty key keeps it here, where the source stores it under a shorter path; the simulation theorems exclude such keys.
- Changing one item of a stored array: a write that goes on below an array replaces the array by an object here. Inherited properties of primitives are left out, and key order in comparisons of JSON texts is ignored.
- `jsonTree.set` and `get` are modelled on values: updating the passed tree in place and the aliasing of its parts are not captured.
- The Firebase provider, whose `Job.save` sends the whole object, and the mock database.
- The SQL engine, operating-system processes, child process control, timers, event publishing, the token signature and the hash function: a transaction is an atomic step, a digest a function, a token its content.
- Each queue updater reads the clock once in the model; the source reads it several times within one synchronous updater. The reading that a cancellation takes after its transaction is separate and free.
- The step systems of the queue, of transactions and of job creation are modelled on values: their actors are concurrent, and each step is one synchronous stretch of code. The classes beside them hold the parts that one process changes in place.
- Thrown transaction or publish errors are not scheduler events.
- What a running cancellation ends as: after `cancelling` is saved the runner's own save conflicts, and the finalizer's outcome is whatever the run makes it.
- The writing of input files and file records during job creation, parameter validation and the choice of the most recently created job; a failing step stands for all of them. Job creations of other processes are not interleaved.
- File walking, the sorting algorithm, file extensions and UTF-8 decoding: a package is a map from paths to texts, the sorted list and the set of text files are parameters.
- Of the settings import, the field limits, the search for secrets and the backup file; of the admin service everything else.
- Express routes, serializers, redaction, paging, clean-up and reconciliation-count arithmetic, which would only add easy members.
