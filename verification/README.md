# Models of the seekdb observer shell and outer log service

Each module models one component and proves what it keeps over every input, every run or every
interleaving. Code that updates objects in place is a class whose methods are proved against functions of
the old state; protocols between threads are state machines over their smallest visible steps, and what is
proved holds of every finite run of them.

| module | component |
|---|---|
| `UniqTaskQueue` | the de-duplicating, group-rotating task queue |
| `MetaTables`, `MetaUpdaterRuns`, `MetaUpdaterRest`, `MetaUpdater`, `MetaUpdaterRefinement` | the tablet runtime metadata updater: its two tables, its interleaved runs, why they come to rest, its code, and the proof that the code is a run |
| `InnerSqlResult`, `InnerSqlTimeout` | inner SQL: retry, prefetch and nested deadlines |
| `CtasCleanup`, `CtasRuns` | clean-up of tables left by CTAS and of temporary tables: its code, and its interleavings with requests and changing sessions |
| `LogHandler`, `LogHandlerProgress`, `LogOptions`, `PalfHandles` | append against life cycle and quiescence, and what gets through, option updates, handle ownership |
| `LogBlockMgr` | the log block counter, the start-up clean-up and the directory scan |
| `ExRpc` | the synchronous call handshake |
| `SchemaUpdater` | coalescing of schema refresh tasks |
| `TaskPlanner`, `AutoExtend`, `OptionParser`, `OptionNames` | task count planning, data file extension, the option scanner and what each option does |

`dafny verify dfyconfig.toml` checks the whole project.

## What does not hold of the code

Where a promise is false of the code, the model keeps the code. A lemma shows the input or the run, and
another states when the promise does hold.

- A tablet whose rows are wrong is owed a task, except when an add was refused, a read failed with a hard
  error, or the removing half ran without a database pool (unlike the updating half it does not put its tasks
  back): `OverflowForgets`, `ReadErrorForgets`, `NoPoolForgets`. Each of these marks the tablet as excused, and
  `IdleMeansPersisted` holds of every tablet that is not. A server whose modules are not ready is no exception:
  its reads succeed with an empty row, which fails the whole updating half and has it put back (`UnreadyPutsBack`).
- A full queue refuses even a task it already holds, since the capacity is tested before the duplicate:
  `FullQueueRefusesItsOwn`, with the exact condition in `DuplicateIff`.
- A nested `set_timeout` can extend the worker deadline: `ExtendsOnce`, with the exact condition in `ExtendsIff`.
- A session that refuses to take its old timeouts back keeps the ones of the call: `RefusedStays`, with the exact
  condition in `TimesComeBackIff`. The worker deadline always comes back.
- A table spared by a session walk that broke off at a lock error can be forgotten: `BrokenWalkIsForgotten`.
  A spared table is looked at again in every pass if and only if its walk did not break off: `SparedIsRecheckedIff`.
  The case is theoretical: the only such error is that of the argument test in `ObLatch::try_wrlock`
  (src/oblib/lib/lock/ob_latch.cpp:520-537), and the functor's arguments pass it.
- A table that could not be read or not be dropped is not tried again, unless it is the last of the pass or another one
  has the flag set, since the tables behind it overwrite the code: `FailureIsRetriedIff`.
- `open_palf` into a guard that holds a handle forgets that handle: the contract of `OpenPalf`.
- A file of odd size is unlinked without leaving the block count (`OddSizeStaysCounted`). A stop between the
  creation of a block and its renaming leaves a full-size temporary file that start-up refuses to remove,
  because the manager does not count as initialised yet, so start-up fails (`StopBeforeRename`). The exact
  conditions are `CounterLaw` and `RestartIff`. A second `init` on a live manager tears it down.
- The creation of a block does not come back once an attempt has left an unfinished file, or if the path exists
  (`UnfinishedSpins`); it does exactly under the condition of `CreationReturnsIff`.
- With the task limits the wrong way round the planner's upper limit can be passed; `CappedIff` has the exact
  condition.
- A small `datafile_next` with a maximum below ten bytes never extends: `ReachesMaximumIff`. The case is theoretical,
  since the size of the data file is a multiple of the macro block size.
- A port followed by other characters is refused, but only after it was stored: `TrailingJunkIsStored`. Every other
  refusal leaves the options alone: `RefusalKeepsStateIff` has the exact condition.

## Model

| member | source | states |
|---|---|---|
| UniqTaskQueue.AddKeepsWf | src/observer/ob_uniq_task_queue.h:309-369 | add keeps ring, group lists, waiting set and count consistent; the waiting set gains the task exactly when the answer is Added, and the locked tasks stay as they are |
| UniqTaskQueue.DuplicateIff | src/observer/ob_uniq_task_queue.h:321-331 | a task that waits already is answered as a duplicate exactly while the queue has room, and changes nothing either way |
| UniqTaskQueue.FullQueueRefusesItsOwn | src/observer/ob_uniq_task_queue.h:321-331 | a queue of one refuses the task it holds |
| UniqTaskQueue.TakeKeepsWf | src/observer/ob_uniq_task_queue.h:371-443 | taking a batch keeps the same invariant, also when the group empties and leaves the ring |
| UniqTaskQueue.TakeMovesBatch | src/observer/ob_uniq_task_queue.h:390-443 | a batch has no repeated task, comes out of the waiting set, shares nothing with the tasks in process, and moves as a whole from one set to the other |
| UniqTaskQueue.TakeAdvances | src/observer/ob_uniq_task_queue.h:651-703 | a pick that takes something brings every other group exactly one turn closer |
| UniqTaskQueue.AddDelay | src/observer/ob_uniq_task_queue.h:309-369 | an add delays a group by one turn only if it brings a new group and the cursor has passed the group already, otherwise not at all |
| UniqTaskQueue.DoKeepsExclusion | src/observer/ob_uniq_task_queue.h:614-648 | after any operation the batches in workers' hands are pairwise disjoint and together are exactly the processing set |
| UniqTaskQueue.Run | src/observer/ob_uniq_task_queue.h:371-500 | so after every sequence of adds, takes and unlocks |
| UniqTaskQueue.AcceptedIsHandedOrWaiting | src/observer/ob_uniq_task_queue.h:309-500 | in every run each task is handed out exactly as often as it was accepted, except for the copy still waiting: nothing lost, nothing run twice |
| UniqTaskQueue.GroupsAreLines | src/observer/ob_uniq_task_queue.h:309-443 | first in, first out within a group: in every run its tasks are handed out in the order they were accepted, and the rest waits in that order |
| UniqTaskQueue.BoundedOvertaking | src/observer/ob_uniq_task_queue.h:651-703 | no starvation: before a waiting group is served, other picks that take something are fewer than its ring distance plus the groups that joined meanwhile |
| UniqTaskQueue.SingletonsAdd | src/observer/ob_uniq_task_queue.h:579-612 | with one task per group the ring is a line: an accepted task goes to its end, a repeated one changes nothing |
| UniqTaskQueue.SingletonsTake | src/observer/ob_uniq_task_queue.h:390-443 | a worker then gets the single task in front, or nothing at all while that one is locked |
| UniqTaskQueue.OnlyTask | src/observer/ob_uniq_task_queue.h:309-443 | a task added to an empty queue is the next batch, and taking it empties the queue |
| UniqTaskQueue.TakePrefix | src/observer/ob_uniq_task_queue.h:399-422 | a batch is a prefix of the group list within the batch limit, free of locked tasks, empty exactly when the head is locked, and stops short of the limit only at a locked task or one to be processed alone |
| UniqTaskQueue.TaskQueue.Add | src/observer/ob_uniq_task_queue.h:309-369 | answer and new state are those of AddAnswer and AfterAdd, including the erase when no group can be had |
| UniqTaskQueue.TaskQueue.GetNextGroup | src/observer/ob_uniq_task_queue.h:651-703 | the walk from the cursor ends at the next ring position, wrapping over the header |
| UniqTaskQueue.TaskQueue.TakeFrom | src/observer/ob_uniq_task_queue.h:399-422 | the locking loop takes exactly TakePrefix of the list and moves just those tasks between the sets |
| UniqTaskQueue.TaskQueue.TakeFromGroupAt | src/observer/ob_uniq_task_queue.h:390-443 | the group leaves the ring when it empties and the cursor moves as specified; an empty take changes nothing |
| UniqTaskQueue.TaskQueue.TakeBatch | src/observer/ob_uniq_task_queue.h:371-443 | the part of run1 under the lock returns NextBatch and reaches AfterTake |
| UniqTaskQueue.TaskQueue.Unlock | src/observer/ob_uniq_task_queue.h:632-648 | removes exactly the batch from the processing set |
| MetaTables.UpsertAllKeepsLockstep | src/share/tablet/ob_tablet_meta_table_storage.cpp:204-257 | writing rows to both tables keeps their key sets equal |
| MetaTables.DeleteAllKeepsLockstep | src/share/tablet/ob_tablet_meta_table_storage.cpp:293-335 | so does deleting from both |
| MetaTables.UpsertAllStores | src/share/ob_tablet_local_checksum_operator.cpp:467-549 | rows that agree on a tablet leave both tables with what they say |
| MetaTables.ReservedIff | src/oblib/common/ob_tablet_id.h:66-70 | the tablets that are not tracked, as ranges of ids |
| MetaUpdaterRuns.NextKeepsStructure | src/observer/ob_tablet_runtime_meta_updater.cpp:277-744 | any step of any thread keeps the queue consistent and the workers' batches locked and disjoint |
| MetaUpdaterRuns.NextKeepsInv | src/observer/ob_tablet_runtime_meta_updater.cpp:277-744 | any step keeps every tracked tablet persisted right, owed, or excused |
| MetaUpdaterRuns.RunKeepsInv | src/observer/ob_tablet_runtime_meta_updater.cpp:277-744 | so does every run |
| MetaUpdaterRuns.PersistedOrOwed | src/observer/ob_tablet_runtime_meta_updater.cpp:277-744 | in every interleaving of changes, submits, reads, commits, rollbacks and put-backs, a tracked tablet is covered by a task still to come, or excused, or what a worker holds of it is fresh and its rows are right or about to be |
| MetaUpdaterRuns.IdleMeansPersisted | src/observer/ob_tablet_runtime_meta_updater.cpp:277-744 | when nothing waits, no worker is busy and nothing is unreported, both tables equal the live tablet for every tracked tablet that was not given up with an error |
| MetaUpdaterRuns.NextKeepsLockstep | src/observer/ob_tablet_runtime_meta_updater.cpp:632-744 | each half is all or nothing over both tables |
| MetaUpdaterRuns.TablesMoveInLockstep | src/observer/ob_tablet_runtime_meta_updater.cpp:632-744 | the tablet table and the checksum table have equal keys in every reachable state, whatever fails |
| MetaUpdaterRuns.OverflowForgets | src/observer/ob_tablet_runtime_meta_updater.cpp:299-335 | while another tablet fills the queue of one, the add of this one is refused; the other is persisted, and the updater is idle with this one's rows missing |
| MetaUpdaterRuns.ReadErrorForgets | src/observer/ob_tablet_runtime_meta_updater.cpp:580-586 | a hard read error drops the batch for good |
| MetaUpdaterRuns.NoPoolForgets | src/observer/ob_tablet_runtime_meta_updater.cpp:632-684 | a removal without a pool is not put back |
| MetaUpdaterRest.NextKeepsRestInv | src/observer/ob_uniq_task_queue.h:614-648 | any step keeps, besides the invariant, that every locked task is in the batch of a worker still to unlock it |
| MetaUpdaterRest.StepsRunOut | src/observer/ob_tablet_runtime_meta_updater.cpp:277-744 | every step that is no change and asks for no retry leaves fewer steps to come, the put-back of a half with an empty row included |
| MetaUpdaterRest.NeverStuck | src/observer/ob_uniq_task_queue.h:371-500 | until the updater is idle such a step exists, so it cannot get stuck: a lock is held only by a worker that can go on, and without locks the head of the picked group can be taken |
| MetaUpdaterRest.RestIsReached | src/observer/ob_tablet_runtime_meta_updater.cpp:277-744 | from every reachable state every schedule of such steps is bounded, and one that cannot be extended ends idle with both tables equal to the live tablet for every tracked tablet that was not given up |
| MetaUpdaterRest.LosslessRun | src/observer/ob_tablet_runtime_meta_updater.cpp:299-335 | a run in which no add is refused, no read fails for good and no removal misses the pool gives nothing up |
| MetaUpdaterRest.LosslessRest | src/observer/ob_tablet_runtime_meta_updater.cpp:277-744 | so such a run, once it cannot be extended without changes, has persisted every tracked tablet as it is |
| MetaUpdater.GeneratePartitions | src/observer/ob_tablet_runtime_meta_updater.cpp:461-545 | a loop that ends without error splits the batch into updates, removes and retries by the kind of answer, each in batch order, with rows aligned to their tasks and an empty row where nothing was read |
| MetaUpdater.PositionsPartition | src/observer/ob_tablet_runtime_meta_updater.cpp:461-545 | the positions of each kind are increasing and complete |
| MetaUpdater.CountsAddUp | src/observer/ob_tablet_runtime_meta_updater.cpp:461-545 | the three counts add up to the batch, so the final count check cannot fire |
| MetaUpdater.StoppedGenerate | src/observer/ob_tablet_runtime_meta_updater.cpp:461-545 | after an answer that stops the loop the rest of the batch has no effect |
| MetaUpdater.TwoTables | src/observer/ob_tablet_runtime_meta_updater.cpp:686-744 | the aligned lists of infos and checksums write what the rows say |
| MetaUpdater.AddAllWait | src/observer/ob_tablet_runtime_meta_updater.cpp:337-355 | when adds are accepted every task put back waits |
| MetaUpdater.AddAllLinesUp | src/observer/ob_tablet_runtime_meta_updater.cpp:337-355 | tasks put back that do not wait yet line up at the end of the queue, in their order |
| MetaUpdater.CompleteIff | src/share/tablet/ob_tablet_meta_table_storage.cpp:228-232 | both tables accept the rows of a half exactly if none of them is the reset row of a read that read nothing |
| MetaUpdater.UnreadyPutsBack | src/observer/ob_service.cpp:1217-1257 | one read that succeeds without reading, because the modules are not ready, fails the whole updating half even if its transaction would commit: nothing is written, only the removing half can change the tables, and every task of the half waits again |
| MetaUpdater.EveryTaskSettled | src/observer/ob_tablet_runtime_meta_updater.cpp:547-744 | after a batch each task is persisted as it was read or waits again, whichever transaction fails, if the loop ended without error, adds are accepted and the removing half has a pool |
| MetaUpdater.BatchAnswer | src/observer/ob_tablet_runtime_meta_updater.cpp:577-611 | the code of a batch from the answers of its reads and its two transactions: success exactly if each half had nothing to do or committed rows that were all read, else the update half's code if that one failed, else the remove half's |
| MetaUpdater.LoopAnswer | src/observer/ob_tablet_runtime_meta_updater.cpp:484-545 | the code of a batch whose loop broke off is that of the first read that failed for good, or OB_EAGAIN at the first busy tablet that could not be queued again, and the tables stay |
| MetaUpdater.UpsertTable | src/share/tablet/ob_tablet_meta_table_storage.cpp:204-257 | the statement loop stores every pair if all their tablet ids are valid and no statement fails, and fails otherwise |
| MetaUpdater.DeleteFromTable | src/share/tablet/ob_tablet_meta_table_storage.cpp:293-335 | the statement loop deletes every key, or stops at the failing one |
| MetaUpdater.Updater.AddTask | src/observer/ob_tablet_runtime_meta_updater.cpp:299-335 | a duplicate counts as success; the queue is that of one add |
| MetaUpdater.Updater.AsyncUpdate | src/observer/ob_tablet_runtime_meta_updater.cpp:277-297 | only valid tablets that are not reserved are queued; the code of each case, a full queue and a missing group included |
| MetaUpdater.Updater.PutBack | src/observer/ob_tablet_runtime_meta_updater.cpp:337-355 | every task is added again, in order, whatever the answers |
| MetaUpdater.Updater.GenerateTasks | src/observer/ob_tablet_runtime_meta_updater.cpp:461-545 | lists, queue and code are those of Generate, and the count check does not fire |
| MetaUpdater.Updater.DoBatchUpdate | src/observer/ob_tablet_runtime_meta_updater.cpp:686-744 | both tables are written or neither is, a row without a valid tablet id fails the half, and every task of a failed half goes back |
| MetaUpdater.Updater.DoBatchRemove | src/observer/ob_tablet_runtime_meta_updater.cpp:632-684 | the same, except that without a pool nothing goes back |
| MetaUpdater.Updater.BatchProcessTasks | src/observer/ob_tablet_runtime_meta_updater.cpp:547-630 | code, tables and queue are those of Processed, whose code BatchAnswer and LoopAnswer state |
| MetaUpdaterRefinement.ReadsMatch | src/observer/ob_tablet_runtime_meta_updater.cpp:461-545 | the reading loop, with tablets changing between reads, is a run of the interleaved model at every prefix |
| MetaUpdaterRefinement.PutBacksMatch | src/observer/ob_tablet_runtime_meta_updater.cpp:337-355 | putting back is a run of put-back steps |
| MetaUpdaterRefinement.UpdateMatches | src/observer/ob_tablet_runtime_meta_updater.cpp:686-744 | the updating half is a run |
| MetaUpdaterRefinement.RemoveMatches | src/observer/ob_tablet_runtime_meta_updater.cpp:632-684 | the removing half is a run |
| MetaUpdaterRefinement.BatchIsARun | src/observer/ob_tablet_runtime_meta_updater.cpp:547-630 | a whole batch reaches the same tables and queue as a run of the interleaved model and leaves nothing in the worker's hands, whatever other threads do to the tablets between its reads, if each answer is true at the time of its read and is one the read can give |
| InnerSqlResult.Result.GetNextRow | src/observer/ob_inner_sql_result.cpp:206-233 | the engine yields the next row, or its tail once the rows are used up |
| InnerSqlResult.Result.Open | src/observer/ob_inner_sql_result.cpp:115-160 | the row prefetched by open counts as not seen, and its failure is the failure of open |
| InnerSqlResult.Result.Next | src/observer/ob_inner_sql_result.cpp:206-233 | one row further, the prefetched one first, or the end code; closed gives NotInit |
| InnerSqlResult.Result.Close | src/observer/ob_inner_sql_result.cpp:162-204 | closes and drops the prefetched row |
| InnerSqlResult.Result.ForceClose | src/observer/ob_inner_sql_result.cpp:176-204 | the same after a failed attempt |
| InnerSqlResult.Result.Rebuild | src/observer/ob_inner_sql_connection.cpp:789-854 | a rebuilt result has nothing of the attempt before |
| InnerSqlResult.LastAttempt | src/observer/ob_inner_sql_connection.cpp:789-854 | the first attempt that is not retried |
| InnerSqlResult.RetriedIff | src/observer/ob_inner_sql_connection.cpp:789-854 | an attempt is retried exactly if it was initialised and set up, then failed to execute, open or prefetch, and the controller asks for it |
| InnerSqlResult.QueryAnswer | src/observer/ob_inner_sql_connection.cpp:789-854 | the code of the last attempt, and whether its result is open, from what init, set-up, execution, opening and prefetch answered |
| InnerSqlResult.Query | src/observer/ob_inner_sql_connection.cpp:734-922 | the retry loop ends at the last attempt: with the failure of init, else of set-up, else the controller's client code if execution, opening or the prefetch failed, else success; the result is open with every row unseen exactly in the last case, unless only prepared |
| InnerSqlResult.DoQuery | src/observer/ob_inner_sql_connection.cpp:695-732 | execute, and open unless only preparing |
| InnerSqlResult.ReadAll | src/observer/ob_inner_sql_result.cpp:206-233 | calling next until the end yields exactly the unseen rows in order and then the tail |
| InnerSqlResult.QueryAndRead | src/observer/ob_inner_sql_connection.cpp:695-854 | retry and prefetch are invisible: after any failed attempts the reader gets exactly the rows of the last one, and none if it failed; the code is as for Query, and success exactly if the last attempt went well, for controllers that do not answer a failure with success |
| InnerSqlTimeout.ExtendsIff | src/observer/ob_inner_sql_connection.cpp:1224-1287 | set_timeout moves the worker deadline later if and only if it resets it, the session takes the timeouts, the worker's own deadline is past the user maximum, and the timeout taken instead reaches past it |
| InnerSqlTimeout.ExtendsOnce | src/observer/ob_inner_sql_connection.cpp:1239-1247 | it does so for a deadline just at the user maximum and a connection timeout above it |
| InnerSqlTimeout.WhatIsSet | src/observer/ob_inner_sql_connection.cpp:1224-1306 | what set_timeout writes and when it fails, from worker deadline, context and connection: query timeout, transaction timeout and deadline, with every refusal |
| InnerSqlTimeout.TooLate | src/observer/ob_inner_sql_connection.cpp:925-936 | a call that comes too late does not run its body and leaves all three times alone |
| InnerSqlTimeout.NeverExtends | src/observer/ob_inner_sql_connection.cpp:1224-1287 | with a monotone clock and settings within the user maximum it never does, whatever the session refuses, nor past a context deadline |
| InnerSqlTimeout.NestingNeverExtends | src/observer/ob_inner_sql_connection.cpp:925-936 | so at any depth and breadth of nested calls no deadline inside is later than the one outside |
| InnerSqlTimeout.BodyNeverExtends | src/observer/ob_inner_sql_connection.cpp:925-936 | and over every sequence of calls |
| InnerSqlTimeout.DeadlineComesBack | src/observer/ob_inner_sql_connection.cpp:98-103 | the worker deadline is back after every call, whatever the session refuses |
| InnerSqlTimeout.TimesComeBackIff | src/observer/ob_inner_sql_connection.cpp:98-116 | deadline and both session timeouts are back after every call of any nesting if and only if the session takes the old values back |
| InnerSqlTimeout.RefusedStays | src/observer/ob_inner_sql_connection.cpp:105-115 | otherwise there is a call that leaves its own timeouts behind |
| InnerSqlTimeout.Session.SetSessionTimeout | src/observer/ob_inner_sql_connection.cpp:1289-1306 | the second variable is left alone when the first is refused |
| InnerSqlTimeout.Session.SetTimeout | src/observer/ob_inner_sql_connection.cpp:1224-1287 | the code is SetOk and the times are AfterSet, which WhatIsSet states in terms of the inputs |
| InnerSqlTimeout.Session.Execute | src/observer/ob_inner_sql_connection.cpp:87-116 | after every call, nested ones included, the times are those of After and the latest deadline inside was Latest, with every combination of refusals |
| CtasCleanup.VerdictIsTheRule | src/observer/ob_server.cpp:2725-2768 | a walk drops the table exactly when every session with its id has its lock free and a last activity, or for temporary tables a creation, at least 100 past the schema version |
| CtasCleanup.VerdictIgnoresOrder | src/observer/ob_server.cpp:2725-2768 | the verdict is the same for every order of the sessions |
| CtasCleanup.DroppingIff | src/observer/ob_server.cpp:2725-2768 | a table is dropped exactly if it is found, has a session id, and every session with that id can be locked and is by its creation (temporary tables) or last activity (CTAS) at least 100 past the schema version |
| CtasCleanup.SparedIff | src/observer/ob_server.cpp:2731-2768 | it is spared exactly if some session with its id is in use or too old, and the lock of the first such decides between another look and a broken walk |
| CtasCleanup.FailsIff | src/observer/ob_server.cpp:2897-2961 | the handling of a table fails exactly if it is not found, its drop fails or its walk breaks off |
| CtasCleanup.FailureIsRetriedIff | src/observer/ob_server.cpp:2889-2965 | a table that could not be read or dropped keeps the flag set if and only if it is the last one, the last one fails too, or another one asks for a look |
| CtasCleanup.SparedIsRecheckedIff | src/observer/ob_server.cpp:2873-2965 | a spared table leaves the flag set in every pass, whatever tables come before and after it, if and only if its walk did not break off |
| CtasCleanup.BrokenWalkIsForgotten | src/observer/ob_server.cpp:2914-2924 | an ordinary table behind one whose walk broke off has it forgotten |
| CtasCleanup.BrokenWalk | src/observer/ob_server.cpp:2735-2738 | a lock that fails with an error breaks a walk off |
| CtasCleanup.WalkIsVerdict | src/observer/ob_server.cpp:2725-2768 | a whole walk, session by session, comes to what the first entry that does not agree decides |
| CtasCleanup.Server.Request | src/observer/ob_server.cpp:469-472 | the flag is set |
| CtasCleanup.Server.CleanUpInvalidTables | src/observer/ob_server.cpp:2873-2965 | what is dropped, in which order, when the flag is raised, and that the return code is that of the last table only |
| CtasCleanup.Server.CleanUpTable | src/observer/ob_server.cpp:2897-2961 | the same for one table: the functor is shared by all tables, and its reset makes the outcome that of this table alone, whatever the tables before left in it |
| CtasCleanup.Server.RunTimerTask | src/observer/ob_server.cpp:2704-2722 | a run with the flag set leaves it set exactly if the list could not be read or FlagAfter, so always after a table spared by an unbroken walk; without the flag it does nothing |
| CtasCleanup.Walker.Visit | src/observer/ob_server.cpp:2725-2768 | one session: the verdict from its id, lock and time stamp, the flag, and whether the walk goes on; the query lock is given back on every path |
| CtasCleanup.Walker.ForEachSession | src/observer/ob_server.cpp:2725-2768 | the walk computes VisitAll, ends at a failed lock, and leaves no lock held |
| CtasRuns.FlagIff | src/observer/ob_server.cpp:2704-2768 | at every point of every interleaving the flag is set if and only if a request, a session that asks for another look or a failed pass came after the timer last looked at it |
| CtasRuns.WalkIsOverVisited | src/observer/ob_server.cpp:2725-2768 | whatever other threads do meanwhile, a walk is one over the sessions as they were when visited |
| CtasRuns.SparesIff | src/observer/ob_server.cpp:2725-2768 | a table is spared by an unbroken walk exactly if some visited session does not agree and the lock of the first such did not fail with an error |
| CtasRuns.RunKeepsInv | src/observer/ob_server.cpp:2704-2768 | in every run a walk that has spared its table has the flag set |
| CtasRuns.NothingIsForgotten | src/observer/ob_server.cpp:2704-2768 | over every run a request at any point, a table spared by an unbroken walk and a failed pass are met by a clean-up at the timer's next look at the flag |
| CtasRuns.CleansUpIff | src/observer/ob_server.cpp:2704-2722 | and the timer cleans up only then, or on the flag it started out with |
| CtasRuns.PassIsARun | src/observer/ob_server.cpp:2704-2722 | the code of a timer run without interference is such a run and leaves the flag as FlagAfter says |
| CtasRuns.UnlistedIsRetried | src/observer/ob_server.cpp:2704-2722 | a run that cannot list the tables leaves the flag set |
| LogHandler.NoEntryWhileOffline | src/logservice/ob_log_handler.cpp:523-568 | between an offline that took effect and a later log entry lies an online |
| LogHandler.NoEntryWhileStopped | src/logservice/ob_log_handler.cpp:104-126 | between a stop and a later entry lies a complete init |
| LogHandler.NextKeepsInv | src/logservice/ob_log_handler.cpp:355-413 | every step of appenders, life cycle calls and waiters keeps history, stages, reference counts and waiters consistent |
| LogHandler.NextKeepsRefs | src/oblib/lib/allocator/ob_qsync.h:45-77 | every slot counts exactly the critical sections entered through it |
| LogHandler.NextKeepsWaiters | src/oblib/lib/allocator/ob_qsync.h:67-77 | a slot the waiter has passed holds no section older than the wait |
| LogHandler.EntriesOnlyWhileRunning | src/logservice/ob_log_handler.cpp:53-568 | both of the first two in every interleaving, including an init that writes its flags one by one without the lock; that entries do get in is LogHandlerProgress.AppendGoesIn |
| LogHandler.WaitMeansQuiescent | src/logservice/ob_log_handler.cpp:192-413 | when the wait returns, every append that entered its section before has left it, and if its entry is in the log, the push of its callback has been answered or it is an imported group |
| LogHandlerProgress.FlagsFromHistory | src/logservice/ob_log_handler.cpp:53-568 | the three flags after any history of events: initialised, unstopped and offline are what the last of the calls that bear on each has left |
| LogHandlerProgress.CallsTakeEffect | src/logservice/ob_log_handler.cpp:53-568 | which event each life cycle call brings about in which state |
| LogHandlerProgress.AppendGoesIn | src/logservice/ob_log_handler.cpp:355-388 | in every interleaving an appender inside an initialised handler gets its entry into the log exactly if the handler is neither stopped nor offline, whatever other threads do between its steps; likewise an imported group |
| LogHandlerProgress.NotInitialisedRefuses | src/logservice/ob_log_handler.cpp:373-374 | and is refused by a handler that is not initialised |
| LogHandlerProgress.FirstAppend | src/logservice/ob_log_handler.cpp:355-388 | a new handler that is initialised, taken online and appended to has the entry in its log and the callback pushed |
| LogHandlerProgress.WaitPassesIff | src/oblib/lib/allocator/ob_qsync.h:67-77 | a wait passes a slot exactly if no section is inside through it |
| LogHandlerProgress.WaitReturns | src/oblib/lib/allocator/ob_qsync.h:67-77 | with nobody inside a wait comes to its end |
| LogHandlerProgress.WaitOutlives | src/logservice/ob_log_handler.cpp:355-413 | a wait that has ended has outlived every section that was under way when it began, whatever happened meanwhile |
| LogOptions.NextKeepsInv | src/logservice/ob_log_service.cpp:360-404 | the stored options are the completed updates applied in order, and a thread holding the lock works on the current ones |
| LogOptions.RunKeepsInv | src/logservice/ob_log_service.cpp:360-404 | over every run |
| LogOptions.NoLostUpdate | src/logservice/ob_log_service.h:126-149 | in every interleaving the stored options hold the size of the last size update and the thresholds of the last threshold update |
| LogOptions.PutWrites | src/logservice/ob_log_service.cpp:360-404 | a write that succeeds replaces its own part of the stored options and keeps the other as it is at that moment; one that fails changes nothing |
| LogOptions.EveryWriteCounts | src/logservice/ob_log_service.cpp:360-404 | in every interleaving the stored options follow from the successful writes of the schedule, read off its steps |
| LogOptions.UpdateGoesThrough | src/logservice/ob_log_service.cpp:360-404 | an updater that finds the lock free stores its part, remembers the configuration and leaves the lock free |
| PalfHandles.Env.Open | src/logservice/palf/palf_env.cpp:97-126 | a success puts one new handle into circulation |
| PalfHandles.Env.Close | src/logservice/palf/palf_env.cpp:128-133 | takes exactly that handle out and leaves it invalid; an invalid one is ignored |
| PalfHandles.Guard.Reset | src/logservice/palf_handle_guard.h:36-43 | closes what it holds, once |
| PalfHandles.Guard.Set | src/logservice/palf_handle_guard.h:52-57 | moves the handle in and nulls the source |
| PalfHandles.OpenPalf | src/logservice/ob_log_service.cpp:295-314 | conserves handles if and only if it fails or the guard was empty |
| PalfHandles.CheckPalfExist | src/logservice/ob_log_service.cpp:256-277 | leaves nothing in circulation on any path; only a missing entry means absent, and any other failure is returned with the answer left at present |
| PalfHandles.Iterator.Destroy | src/logservice/palf/palf_iterator.h:79-89 | the functor closes its handle, once |
| PalfHandles.Iterator.SetFunctor | src/logservice/palf/palf_iterator.h:227-245 | takes the functor or leaves none |
| PalfHandles.Seek | src/logservice/ob_log_handler.h:418-450 | on every path the handle is either owned by the iterator afterwards or closed; exactly when the seek succeeds |
| PalfHandles.Handler.Init | src/logservice/ob_log_handler.cpp:53-90 | conserves handles on every path: a success owns one, a second init changes nothing, another failure owns none |
| PalfHandles.Handler.Stop | src/logservice/ob_log_handler.cpp:104-126 | closes the handle unless stopping the apply status failed, and never twice |
| PalfHandles.Handler.Destroy | src/logservice/ob_log_handler.cpp:127-146 | closes what is left |
| PalfHandles.CreateLs | src/logservice/ob_log_service.cpp:451-485 | conserves handles whichever step fails; a failure leaves the handler without one |
| PalfHandles.OneOwnerKept | src/logservice/ob_log_handler.h:383-450 | an operation that changes circulation as its owner's holding changes keeps every handle with exactly one owner |
| PalfHandles.LiveIsHolders | src/logservice/palf_handle_guard.h:36-57 | in a balanced process the handles in circulation are as many as the owners that hold one |
| PalfHandles.GuardActs | src/logservice/palf_handle_guard.h:36-57 | what a guard does conserves handles |
| PalfHandles.IteratorActs | src/logservice/ob_log_handler.h:383-450 | what an iterator does conserves handles |
| PalfHandles.HandlerActs | src/logservice/ob_log_handler.cpp:53-146 | what a handler does conserves handles |
| PalfHandles.Process.Act | src/logservice/ob_log_handler.h:383-450 | any operation of any guard, iterator or handler, with any answers, keeps every handle with exactly one owner; guards are opened into only when empty |
| PalfHandles.Process.RunActions | src/logservice/ob_log_handler.h:383-450 | so over every sequence of these operations by any number of owners, handles opened minus handles closed is the number of owners that hold one |
| PalfHandles.Process.StartsBalanced | src/logservice/palf_handle_guard.h:29-31 | a process where nobody holds anything is in balance |
| LogBlockMgr.ScanBlockDir | src/logservice/palf/log_io_utils.cpp:379-427 | counts the entries, for any listing order, and fails exactly if some name is not a number |
| LogBlockMgr.ScanStream | src/logservice/ob_server_log_block_mgr.cpp:540-591 | adds the blocks of `log` and `meta` and fails exactly on anything else |
| LogBlockMgr.ScanRuntime | src/logservice/ob_server_log_block_mgr.cpp:494-537 | the same one level up, `tmp_dir` ignored |
| LogBlockMgr.ScanDisk | src/logservice/ob_server_log_block_mgr.cpp:383-428 | succeeds if and only if the whole tree is recognised, and then yields the number of block entries on disk, whatever order readdir has at each level |
| LogBlockMgr.SmallDiskIsRecognised | src/logservice/ob_server_log_block_mgr.cpp:383-591 | a disk with the usual directories and one block is recognised, and its block is counted |
| LogBlockMgr.OnlyKnownNames | src/logservice/ob_server_log_block_mgr.cpp:383-591 | whatever lies on a recognised disk bears one of the known names, blocks a number |
| LogBlockMgr.TmpBelow | src/logservice/palf/log_block_pool_interface.cpp:149-151 | everything below a temporary path is temporary, as the whole path is searched |
| LogBlockMgr.TmpIff | src/logservice/palf/log_block_pool_interface.cpp:149-151 | a path is temporary if and only if the log disk's own path or a name on it has `.tmp` in it |
| LogBlockMgr.CreationReturnsIff | src/logservice/ob_server_log_block_mgr.cpp:335-367 | the loop of attempts comes back if and only if the path is new and an attempt goes well before any that leaves a file behind, and then with one file of block size |
| LogBlockMgr.UnfinishedSpins | src/logservice/ob_server_log_block_mgr.cpp:217-222 | after a file that could not be filled up no further attempt succeeds |
| LogBlockMgr.BlockMgr.CreateBlockAt | src/logservice/ob_server_log_block_mgr.cpp:202-232 | disk and outcome are those of the attempts, and the count grows by one exactly on success |
| LogBlockMgr.BlockMgr.RemoveBlockAt | src/logservice/ob_server_log_block_mgr.cpp:234-258 | a full-size block goes from disk and count together and only when initialised; a file of another size goes without being counted out |
| LogBlockMgr.BlockMgr.RemoveDirectoryRec | src/logservice/palf/log_block_pool_interface.cpp:102-138 | succeeds exactly if no full-size block lies below, and then removes exactly the subtree; a failure removes nothing outside it and leaves a tree |
| LogBlockMgr.BlockMgr.RemoveEntry | src/logservice/palf/log_block_pool_interface.cpp:117-128 | the same for one entry |
| LogBlockMgr.BlockMgr.RemoveTmpAt | src/logservice/palf/log_block_pool_interface.cpp:140-179 | the recursive walk removes exactly what is on a temporary path below, and succeeds exactly if none of that is a full-size block |
| LogBlockMgr.BlockMgr.RemoveTmpEntry | src/logservice/palf/log_block_pool_interface.cpp:159-171 | the same for one entry |
| LogBlockMgr.BlockMgr.RemoveTmpForRuntime | src/logservice/ob_server_log_block_mgr.cpp:430-466 | only what lies under `sys` is cleaned |
| LogBlockMgr.BlockMgr.Load | src/logservice/ob_server_log_block_mgr.cpp:281-294 | succeeds exactly on Loadable disks; then the disk is the cleaned one and the count is the number of its blocks |
| LogBlockMgr.BlockMgr.Destroy | src/logservice/ob_server_log_block_mgr.cpp:141-148 | not initialised, count zero |
| LogBlockMgr.BlockMgr.Init | src/logservice/ob_server_log_block_mgr.cpp:117-139 | initialised exactly if it was not and the disk is Loadable; any failure tears it down |
| LogBlockMgr.OnlyBlocksDiffer | src/logservice/ob_server_log_block_mgr.cpp:383-428 | changes among numbered blocks leave the disk recognised |
| LogBlockMgr.NextKeepsInv | src/logservice/ob_server_log_block_mgr.cpp:202-258 | every step of any number of creating, renaming and removing callers, of stops and starts keeps count plus pending effects equal to blocks plus odd removals |
| LogBlockMgr.RunKeepsInv | src/logservice/ob_server_log_block_mgr.cpp:202-294 | over every run |
| LogBlockMgr.CounterLaw | src/logservice/ob_server_log_block_mgr.cpp:202-258 | in every run, whenever no caller is between its file and the counter, the counter is the number of blocks on disk if and only if no file of odd size was removed since the last start |
| LogBlockMgr.CounterRightIff | src/logservice/ob_server_log_block_mgr.cpp:202-258 | the same read off the steps: the counter is right if and only if every file unlinked since the start was a block of full size |
| LogBlockMgr.CodeIsSteps | src/logservice/ob_server_log_block_mgr.cpp:202-258 | creating a block and removing it, as the code does it, are two steps each and undo one another |
| LogBlockMgr.RestartIff | src/logservice/ob_server_log_block_mgr.cpp:117-139 | after a stop at any point of any run the next start succeeds if and only if no full-size block was left under a temporary name, and then restores the exact count |
| LogBlockMgr.StopBeforeRename | src/logservice/palf/log_block_mgr.cpp:131-156 | a stop between creation and renaming leaves a disk that cannot be started from |
| LogBlockMgr.OddSizeStaysCounted | src/logservice/ob_server_log_block_mgr.cpp:242-244 | removing a block of odd size leaves the counter one too high |
| ExRpc.NextKeepsInv | src/observer/ob_ex_rpc.cpp:40-112 | every step of caller and workers, spurious wakes included, keeps the handshake invariant |
| ExRpc.RunKeepsInv | src/observer/ob_ex_rpc.cpp:40-112 | over every run of any number of calls |
| ExRpc.Handshake | src/observer/ob_ex_rpc.cpp:40-112 | in every interleaving a call returns only after its operation ran and with its result, no worker touches a context after done, and a sleeper whose operation is done has its wake still to come |
| ExRpc.StepsRunOut | src/observer/ob_ex_rpc.cpp:101-112 | every effective step that is not a new call or a spurious wake brings the return nearer |
| ExRpc.NeverStuck | src/observer/ob_ex_rpc.cpp:101-112 | while a call is under way such a step exists |
| ExRpc.SchedulesEnd | src/observer/ob_ex_rpc.cpp:101-112 | every schedule of effective steps is at most StepsLeft long |
| ExRpc.EveryCallReturns | src/observer/ob_ex_rpc.cpp:101-112 | from every reachable state and under every schedule: one that cannot be extended has brought the caller back with the result of its own operation |
| SchemaUpdater.StrictWeakOrder | src/observer/ob_server_schema_updater.cpp:76-99 | the comparator is a strict weak order, and two tasks tie exactly when the queue takes them for the same |
| SchemaUpdater.SortOrders | src/observer/ob_server_schema_updater.cpp:169-206 | every batch has an ordered permutation |
| SchemaUpdater.HeadAnswersForAll | src/observer/ob_server_schema_updater.cpp:222-272 | whichever sort it was, the head of the sorted batch is newer than the local version if and only if some task is |
| SchemaUpdater.ComparesAsSigned | src/observer/ob_server_schema_updater.cpp:86-99 | for versions that are not negative, which those of the schema store are from its start (src/share/schema/ob_schema_store.cpp:32), the unsigned comparison asks what the signed one does |
| SchemaUpdater.UnsignedIsResidue | src/observer/ob_server_schema_updater.cpp:86-99 | the conversion is the residue modulo 2 to the 64 |
| SchemaUpdater.CoalescingRefines | src/observer/ob_server_schema_updater.cpp:222-272 | one refresh does what processing the tasks one at a time does |
| SchemaUpdater.KindOfHead | src/observer/ob_server_schema_updater.cpp:169-206 | the head is a refresh task exactly when all are |
| SchemaUpdater.Updater.ProcessAsyncRefresh | src/observer/ob_server_schema_updater.cpp:222-272 | the in-order check never fires on a sorted batch; a foreign task refuses the batch without effect |
| SchemaUpdater.Updater.BatchProcessTasks | src/observer/ob_server_schema_updater.cpp:169-220 | a batch of refresh tasks refreshes once if and only if some task asks for a newer version; a single release releases; any other batch has no effect; a failing refresh or release is the answer |
| TaskPlanner.ComputesExactly | src/data_plane/ob_parallel_range_task_planner.cpp:28-65 | without overflow the wrapped 64-bit arithmetic is that over the integers |
| TaskPlanner.WrapIsResidue | src/data_plane/ob_parallel_range_task_planner.cpp:28-65 | a wrapped product is the 64-bit signed number congruent to it |
| TaskPlanner.RefusedIff | src/data_plane/ob_parallel_range_task_planner.cpp:28-65 | without overflow exactly a parameter that is not positive or a negative size is refused |
| TaskPlanner.ClosedForm | src/data_plane/ob_parallel_range_task_planner.cpp:42-59 | with min at most max the result is min(p·max, max(T/e, min(p·min, T/a))) |
| TaskPlanner.Monotone | src/data_plane/ob_parallel_range_task_planner.cpp:42-59 | more data never means fewer tasks |
| TaskPlanner.TasksFit | src/data_plane/ob_parallel_range_task_planner.cpp:42-59 | tasks of the least size fit into the data, whatever the order of the limits |
| TaskPlanner.CappedIff | src/data_plane/ob_parallel_range_task_planner.cpp:42-59 | the result stays within p·max for every size if and only if min is at most max, or in one corner case beside it |
| TaskPlanner.OverLimit | src/data_plane/ob_parallel_range_task_planner.cpp:49-53 | otherwise the size one short of the lower bound goes over |
| AutoExtend.ExtendIff | src/observer/ob_server_utils.cpp:202-250 | an extension is granted exactly below the maximum and when the request does not round to nothing, and then grows the file within the maximum |
| AutoExtend.InvalidIff | src/observer/ob_server_utils.cpp:202-250 | a request is invalid exactly for want of a maximum or at size zero |
| AutoExtend.ExtendsBy | src/observer/ob_server_utils.cpp:202-250 | by how much the file grows, in numbers |
| AutoExtend.AfterFixed | src/observer/ob_server_utils.cpp:226-236 | with a next size the file sizes are min(size + k·increment, max) |
| AutoExtend.AfterDoubling | src/observer/ob_server_utils.cpp:223-225 | without one they double up to a gigabyte |
| AutoExtend.AfterLinear | src/observer/ob_server_utils.cpp:223-225 | and then grow by a gigabyte |
| AutoExtend.GrowsUntilFull | src/observer/ob_server_utils.cpp:202-250 | every request before the last makes progress |
| AutoExtend.ReachesMaximum | src/observer/ob_server_utils.cpp:202-250 | within an explicit number of requests the file has exactly the maximum size and from then on every request is refused for want of space |
| AutoExtend.ReachesMaximumIff | src/observer/ob_server_utils.cpp:226-243 | the maximum is reached if and only if the file is full already or the request does not round to nothing |
| OptionParser.ScanAdvances | src/observer/ob_command_line_parser.cpp:38-86 | on every argument vector an option that is found moves the index on and stays inside |
| OptionParser.Parser.GetoptLong | src/observer/ob_command_line_parser.cpp:38-86 | the table loop finds the token of Scan; a rejected argument does not move the index |
| OptionParser.Parser.HandleOption | src/observer/ob_command_line_parser.cpp:280-401 | code and options are those of Handle, errors that still store included |
| OptionParser.Parser.ParseArgs | src/observer/ob_command_line_parser.cpp:403-441 | the loop terminates on every argument vector and comes to the outcome of Loop; which of error, left-over argument, help and version comes first, and the default base directory |
| OptionParser.LongIsGood | src/observer/ob_command_line_parser.cpp:190-211 | no two long names are equal and none holds an equals sign |
| OptionParser.SpellingFound | src/observer/ob_command_line_parser.cpp:38-86 | each spelling of a setting, long or short, joined or separate, is read back as that option and value, and passed over exactly |
| OptionParser.OnlySpellingsFound | src/observer/ob_command_line_parser.cpp:45-68 | conversely an argument with two dashes is accepted only as a spelling of the setting that is taken |
| OptionParser.LoopApplies | src/observer/ob_command_line_parser.cpp:403-426 | the loop over any mix of spellings does what the settings do one after the other, and stops at the same error |
| OptionParser.SpellingsAgree | src/observer/ob_command_line_parser.cpp:403-441 | two command lines that spell the same settings come to the same outcome |
| OptionParser.LastGivenCounts | src/observer/ob_command_line_parser.cpp:324-335 | of a directory or role that is given several times the last one counts |
| OptionParser.NotGivenStays | src/observer/ob_command_line_parser.cpp:324-335 | and one that is not given stays as it was |
| OptionParser.PairsPileUp | src/observer/ob_command_line_parser.cpp:237-258 | parameters and variables pile up in the order given, each in its own list |
| OptionParser.SwitchesAddUp | src/observer/ob_command_line_parser.cpp:280-401 | a switch is on afterwards exactly if it was on or is given anywhere; running as a service implies no daemon |
| OptionParser.PortRoundTrip | src/observer/ob_command_line_parser.cpp:294-314 | every number in decimal is read back as the port if it is within 1 to 65535 and refused otherwise |
| OptionParser.SignedPort | src/observer/ob_command_line_parser.cpp:294-314 | a space and a plus sign in front are read over, a minus sign makes the port invalid |
| OptionParser.TrailingJunkIsStored | src/observer/ob_command_line_parser.cpp:303-312 | a port with something behind it is an error that stores the port |
| OptionParser.RefusalKeepsStateIff | src/observer/ob_command_line_parser.cpp:280-401 | a refused option leaves everything as it was if and only if it is not a port whose text starts with another number in the range |
| OptionParser.CaseIgnoredIff | src/observer/ob_command_line_parser.cpp:353-369 | roles are compared without regard to the case of letters |
| OptionNames.DirectoryNames | src/observer/ob_command_line_parser.cpp:190-335 | `--base-dir=v`, `--data-dir=v` and `--redo-dir=v` put v into the field of that name |
| OptionNames.SeparateDirectoryNames | src/observer/ob_command_line_parser.cpp:190-335 | so with the value in the next argument |
| OptionNames.PortNames | src/observer/ob_command_line_parser.cpp:190-314 | `--port=n` and `-Pn` set the port within its range and are refused outside |
| OptionNames.RoleName | src/observer/ob_command_line_parser.cpp:353-369 | `--role=v` sets the role if it is one of the two and is not supported otherwise |
| OptionNames.LogLevelName | src/observer/ob_command_line_parser.cpp:336-352 | `--log-level=v` sets the level the logger knows by that name, or the default |
| OptionNames.PairNames | src/observer/ob_command_line_parser.cpp:219-258 | `--parameter=key=value` and `--variable=key=value` go to the end of their own lists, cut at the first equals sign |
| OptionNames.PairRefused | src/observer/ob_command_line_parser.cpp:219-258 | without a key or an equals sign, or with a dash in front, they are refused |
| OptionNames.SwitchNames | src/observer/ob_command_line_parser.cpp:190-401 | each switch turns on its own field |
| OptionNames.ServiceNames | src/observer/ob_command_line_parser.cpp:190-401 | so do the service switches, and `--service` turns the daemon off |
| OptionNames.RequestNames | src/observer/ob_command_line_parser.cpp:190-401 | `--version`, `-V`, `--help`, `-h` and `-6` do what they say |
| OptionNames.DirectoriesByName | src/observer/ob_command_line_parser.cpp:403-441 | on every accepted command line of spelled settings each directory is the one given last under its name |

## Left out

- Everything around these components: server start and stop, module wiring, configuration reload, network
  framing, the SQL engine, PALF internals, apply and replay services. They appear as answers that the models
  receive, in every combination.
- The checks for missing modules and null pointers that come before the modelled code, except where they
  change what is lost.
- Barrier tasks, throttling, sleeping, statistics,
  diagnosis records, trace ids and logging.
- Hash values and hash map order: keys are compared by equality.
- Memory order weaker than a total order of atomic steps.
- MetaUpdaterRuns.IdleMeansPersisted: says nothing of a tablet that was given up with an error; that such tablets can stay wrong is shown by the three lemmas named Forgets.
- UniqTaskQueue.TakePrefix: whether tasks are processed alone is a property of their group, as it is for both kinds of task that the repository queues.
- InnerSqlTimeout.Session.SetTimeout: does not model a session whose timeouts cannot be read.
- CtasCleanup.Server.CleanUpInvalidTables: does not model a missing session manager.
- MetaUpdaterRefinement.BatchIsARun: between the reads of the code other threads change tablets only; their submits and other workers are in the runs, where the queue is shared.
- PalfHandles.Env.Close: takes for granted that no caller closes a copy of a handle twice; the owners are proved not to.
- LogBlockMgr.BlockMgr.CreateBlockAt: an fsync that fails after the file is there is not modelled, neither here nor for a removal.
- LogBlockMgr.BlockMgr.RemoveTmpAt: directories can be opened and read; what exactly a walk that fails has removed so far depends on the listing order and is only bounded.
- MetaUpdaterRest.RestIsReached: speaks of schedules in which reads and transactions no longer ask for a retry, since with retries for ever there is no rest; that the scheduler gives every thread its turn is not modelled.
- ExRpc.EveryCallReturns: speaks of schedules without spurious wakes and without end; that the scheduler gives every thread its turn is not modelled.
- TaskPlanner.ClosedForm: overflow is excluded; the wrap-around itself is in the model.
- AutoExtend.ExtendIff: sizes are unbounded integers, and a size below zero, which the source's check lets through, is not considered.
- OptionParser.Parser.ParseArgs: models the scanner in this file, used on Windows; elsewhere the C library's is used. The handling of directories after the loop is left out, and of a cluster such as `-Vh` only the first letter is seen, as in the source.
- OptionParser.OnlySpellingsFound: holds of long options only, because of such clusters.
