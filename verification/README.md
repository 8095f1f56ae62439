# Durable agent orchestration: verified models

This project models the algorithms and protocols that keep a durable agent-orchestration service consistent, and
proves what they promise over all inputs, all interleavings and all crashes:

- **Execution plans.** The plan validator with its depth-first search on the current path, the turning of plans into
  Task records, chains of append-only revisions, the store's own second search over the resulting ids, and the
  worklist that queues or skips dependent tasks when a prerequisite ends, and whole histories of a run's tasks from the
  accepted plan through claims, ends, retries, expired leases, revisions, pauses and resumptions (`ExecutionPlans`,
  `PlanMaterialization`, `TaskActivation`, `TaskHistory`, over the graph theory in `Graph`).
- **Migrations.** The manifest validator, the comparison of the journal with the manifest, the step machine, and the
  PostgreSQL and MySQL drivers over a database whose statements may be refused, take effect although their answer is
  lost, or be cut off by a crash before or after they take effect (`MigrationManifest`, `MigrationAssessment`,
  `MigrationMachine`, `MigrationJournal`, `PostgresMigration`, `MySqlMigration`).
- **Cron schedules.** What one tick fires, what repeated ticks add up to, and several scanners with stale snapshots
  and a compare-and-set cursor (`ScheduleDispatch`, `ScheduleProtocol`).
- **Remote agents.** How HTTP answers are classified, one dispatch, every interleaving of dispatches with delayed
  requests, stops and crashes, the outcome commands of the stop, status and event workers and what they add up to,
  normalising and storing event batches, and recovery work that is planned as text and read back (`HttpAgentAdapter`,
  `AgentDispatch`, `AgentProtocol`, `AgentOutcomes`, `AgentOutcomeHistory`, `EventIngestion`, `EventReceipts`,
  `DueWork`, `RecoveryInput`, over `Text` and `Identity`).
- **Scans.** Keyset paging while rows come and go, the maintenance job's cursor, and the server-sent event stream
  (`KeysetScan`, `EventStream`).

Code that updates state in the original is a class or a method with a loop here, proved against a function or a
predicate whose own properties the lemmas state; code made of expressions is functions and lemmas.

## Conventions

- A derived id is the text that the original hashes: hashing is taken to be free of collisions, and what is proved is
  that the texts themselves determine their parts.
- Clocks, random ids, the answers of remote servers, the outcome of each SQL statement and the retry schedule are
  parameters that range over everything. A lost answer, an error and a crash are distinct.
- A Cron expression in a time zone is a next-fire function that moves strictly forward and a separate test whether an
  instant matches. A next fire time need not match: that is what happens in a daylight-saving gap.
- The precondition `Embedded` of the migration drivers says what the manifests compiled into both providers satisfy:
  they pass the validator, and the first candidate is the bootstrap migration that declares the journal table.

## What the proofs found

- **Expired leases leave dependents waiting.** When a lease expires on the last attempt, the task is dead-lettered
  but its dependents are not looked at, unlike in every other way a task ends. Over every history of a run it stays
  settled exactly if every dead letter was harmless (`TaskHistory.SettledIffHarmless`), a condition on the dependents
  that `TaskActivation.DeadLetterStability` gives; `TaskActivation.DeadLetterStrands` is a run of two tasks that stalls.
- **Resuming a paused run starts tasks too early.** It queues every scheduled task whose time has come, whatever the
  task waits for. `TaskHistory.GatedIffResumedInOrder` gives the exact condition under which no task is ever queued, run
  or ended before its prerequisites; `TaskHistory.ResumeStartsTooEarly` is a run of two tasks that breaks it.
- **The MySQL bootstrap can wedge.** Schema changes commit on their own there, so a crash between creating the journal
  table and inserting its first row leaves a database that every later run refuses.
  `MySqlMigration.Migrate` states exactly which outcomes do this, and `MySqlMigration.WedgingRuns` shows two such runs
  from an empty database; the PostgreSQL bootstrap never does it.
- **The catch-up limit can matter.** A tick that starts at an occurrence which does not match (a gap) drops the rest
  of the backlog. `ScheduleDispatch.DrainIsComplete` proves that the backlog is fired completely exactly when every
  occurrence at which a tick starts matches.
- **The terminal event can be missed by a stream.** A stream that ends as terminal misses events exactly if the log that
  its last status check saw is longer than the one it had just listed, and reaches past the requested sequence
  (`EventStream.TerminalEnd`, `EventStream.TerminalEventIsMissed`).
- **A rejected submission may have a remote run.** Against a remote whose other answers can be trusted, this happens
  exactly if the answer was a success that the adapter could not use: too large, not decodable, without a run id or with
  another protocol version. It is then recorded as a failure for good (`AgentProtocol.RejectedMadeRunIff`,
  `AgentProtocol.MisreadSuccessIsRejected`, `AgentProtocol.RejectedMayHaveRun`).
- **An empty adapter error code is refused** when the event worker passes it to the store; the stop and status workers
  substitute a code of their own (`AgentOutcomes.EventOutcomesAreLawful`).
- **Decoding hexadecimal ids is not injective.** A plus sign is accepted for a leading zero and capitals for digits
  above nine, so exactly the ids with a byte below sixteen or a letter among their digits have a second spelling
  (`RecoveryInput.SecondSpellingIff`); printing and then decoding is exact.

## Model

| member | source | states |
|---|---|---|
| ExecutionPlans.DependencyReaches | crates/domain/src/plan.rs:141-163 | the search on the current path terminates, restores the path, and answers true exactly if a path to the target exists whose nodes before it are distinct and off the path |
| ExecutionPlans.OnCycle | crates/domain/src/plan.rs:132-136 | started with an empty path from a task to itself, it answers exactly whether the task lies on a dependency cycle |
| ExecutionPlans.ValidateStages | crates/domain/src/plan.rs:69-85 | accepts exactly when every stage is fine, and any error it names is exhibited by the plan |
| ExecutionPlans.ValidateDependencies | crates/domain/src/plan.rs:106-123 | accepts exactly when every dependency is fine (known, not itself, not repeated), and its error is exhibited |
| ExecutionPlans.ValidateProjection | crates/domain/src/plan.rs:124-130 | accepts exactly when every projection pointer is fine, and its error is exhibited |
| ExecutionPlans.ValidateTask | crates/domain/src/plan.rs:86-131 | accepts exactly when the task is fine, and its error is exhibited |
| ExecutionPlans.ValidateShape | crates/domain/src/plan.rs:62-138 | accepts exactly the well-shaped plans; answers DependencyCycle exactly when the earlier checks pass and some task reaches itself; any other error is exhibited by the plan |
| ExecutionPlans.DependencyGraphIsClosed | crates/domain/src/plan.rs:106-123 | after the earlier checks every dependency leads to a task of the plan |
| ExecutionPlans.AcceptedIffSchedulable | crates/domain/src/plan.rs:106-163 | once the earlier checks pass, a plan is accepted exactly if a topological order of all its tasks exists |
| Graph.SimplyReachesStep | crates/domain/src/plan.rs:141-163 | one step of a search that keeps its path explores exactly the simple paths |
| Graph.ReachesSimply | crates/domain/src/plan.rs:141-163 | a non-empty path exists exactly if one with distinct nodes does |
| Graph.AcyclicIffOrdered | crates/domain/src/plan.rs:132-136 | a closed finite graph has a topological order exactly when it has no cycle |
| PlanMaterialization.TaskIdDetermines | crates/server/src/execution_plan.rs:230-233 | a task id determines its run and its logical key |
| PlanMaterialization.MaterializeExecutionPlan | crates/server/src/execution_plan.rs:189-275 | the checkpoint and the records of an accepted plan read back to exactly that plan, under the ids of the run and as not yet attempted; it fails exactly for an undecodable payload or an ill-shaped plan |
| PlanMaterialization.RecordReadsBack | crates/server/src/execution_plan.rs:223-272 | a task record alone says its task: stage, handler, kind, priority, attempts, input, each dependency with its condition, join policy and projection |
| PlanMaterialization.RecordsPointToRecords | crates/server/src/execution_plan.rs:189-275 | stage records and task records have distinct ids; the stage id of a task is that of the active record of its stage, and each dependency is the id of the record of the task it names |
| PlanMaterialization.MaterializePlanTaskAdditions | crates/server/src/execution_plan.rs:277-308 | an append-only revision yields the records of exactly its new keys; any change to an existing task or stage is refused |
| PlanMaterialization.LedgerMirrorsLastPlan | crates/server/src/execution_plan.rs:223-308 | after any chain of accepted revisions every task of the last plan has exactly one record, which still reads back to what the plan says |
| PlanMaterialization.LedgerIsSchedulable | crates/server/src/execution_plan.rs:223-308 | the ids of all records of a run are distinct, closed under dependencies and have a topological order |
| PlanMaterialization.StoreReaches | crates/store-postgres/src/transaction_executor.rs:9102-9135 | the store's search, which never takes back what it entered, finds the target only if it is reachable, and when it fails what it entered is closed |
| PlanMaterialization.StoreFindsCycle | crates/store-postgres/src/transaction_executor.rs:9102-9135 | the store's check answers exactly whether the records contain a dependency cycle |
| PlanMaterialization.SelfDependentIffCyclic | crates/store-postgres/src/transaction_executor.rs:9102-9135 | some record depends on itself through others exactly if the id graph is cyclic |
| PlanMaterialization.StoreAcceptsMaterializedPlan | crates/store-postgres/src/transaction_executor.rs:9072-9135 | the store never refuses the graph of a plan that the validator accepts |
| PlanMaterialization.StoreAcceptsAdditions | crates/store-postgres/src/transaction_executor.rs:9137-9182 | nor the additions of an accepted revision |
| TaskActivation.DecisionIsMonotone | crates/store-postgres/src/transaction_executor.rs:8833-8896 | a decision to queue or skip a task is never overturned by later decisions |
| TaskActivation.SettlingIsConfluent | crates/store-postgres/src/transaction_executor.rs:8743-8831 | whatever order the decisions are taken in, the run settles in the same state |
| TaskActivation.DecidedOnce | crates/store-postgres/src/transaction_executor.rs:8743-8831 | no task is decided twice, and a decided one waits no more |
| TaskActivation.DecisionFollowsConditions | crates/store-postgres/src/transaction_executor.rs:8790-8896 | a waiting task is queued exactly if every prerequisite, or any one, has succeeded, has the status asked for, or has succeeded with the value asked for; it is skipped exactly if not and every prerequisite has ended; else it waits |
| TaskActivation.RunTasks.ResolveDependents | crates/store-postgres/src/transaction_executor.rs:8743-8831 | the worklist terminates; every task it changed was waiting and is queued or skipped as statuses and results call for; it reports exactly the queued ones, each once; nobody whose fate can be told still waits because of the ended task |
| TaskActivation.RunTasks.Finish | crates/store-postgres/src/transaction_executor.rs:4010-4020 | ending a leased task judges its dependents the same way and keeps a settled run settled |
| TaskActivation.RunTasks.InsertRevision | crates/store-postgres/src/transaction_executor.rs:4569-4592 | adding a revision's records to a settled run leaves it settled, and the follow-ups are exactly the tasks that became queued |
| TaskActivation.RunTasks.ReclaimExpiredLease | crates/store-postgres/src/transaction_executor.rs:1266-1303 | an expired lease is retried or dead-lettered; a settled run stays settled after a retry, and after a dead letter exactly if that is harmless |
| TaskActivation.DeadLetterStability | crates/store-postgres/src/transaction_executor.rs:1266-1303 | dead-lettering without resolving dependents leaves the run settled exactly if each waiting dependent has another unfinished prerequisite and none accepts any one prerequisite and asked for this dead letter |
| TaskActivation.DeadLetterStrands | crates/store-postgres/src/transaction_executor.rs:1266-1303 | a settled run of two tasks that stalls when the first is dead-lettered: the second is overdue, nothing is in flight and there is no cycle |
| TaskActivation.NoTaskIsStranded | crates/store-postgres/src/transaction_executor.rs:8743-8831 | without a cycle, a settled run with no work in flight has ended every task |
| TaskActivation.SettledRunsNeverStall | crates/domain/src/plan.rs:106-163 | a settled run whose tasks are those of a chain of accepted revisions has ended every task once nothing is in flight |
| TaskActivation.CycleStalls | crates/domain/src/plan.rs:132-136 | two tasks that wait for each other stall a settled run: the ban on cycles is needed |
| TaskHistory.FreshRunIsSettled | crates/server/src/execution_plan.rs:189-275 | the task table of a run just created from an accepted plan holds exactly its records and is settled |
| TaskHistory.StepStability | crates/store-postgres/src/transaction_executor.rs:1266-1303 | a claim, end, retry, dead letter, revision, pause, resumption or cancellation leaves a settled run settled, except exactly a dead letter that is not harmless |
| TaskHistory.SettledIffHarmless | crates/store-postgres/src/transaction_executor.rs:1266-1303 | over every history from the accepted plan on, the run is settled after each of the first n steps exactly if every dead letter among them was harmless |
| TaskHistory.AcceptedRunsNeverStall | crates/store-postgres/src/transaction_executor.rs:8743-8831 | so after every history with harmless dead letters, a run with no work in flight has ended every task |
| TaskHistory.EndsAreKept | crates/store-postgres/src/transaction_executor.rs:4010-4020 | over every history each step moves a task along the legal moves of its status and leaves what it waits for alone, and what has ended keeps its status and result |
| TaskHistory.ResumeGate | crates/store-postgres/src/transaction_executor.rs:7487-7510 | resuming keeps every started task behind its prerequisites exactly if the scheduled tasks it queues are ready |
| TaskHistory.GatedIffResumedInOrder | crates/store-postgres/src/transaction_executor.rs:7487-7510 | over every history no task is queued, run or ended before its prerequisites allow it, exactly if every resumption queued only ready tasks |
| TaskHistory.ResumeStartsTooEarly | crates/store-postgres/src/transaction_executor.rs:7487-7510 | a run of two tasks in which pausing and resuming queues the second before the first has ended |
| TaskHistory.TasksStartAsPlanned | crates/store-postgres/src/transaction_executor.rs:8743-8896 | from the plan to the worker: if resumptions queue only ready tasks, every task of the current plan that was queued, leased or ended by a worker has the statuses and results of its prerequisites that the plan asks for |
| TaskHistory.TasksAreSkippedAsPlanned | crates/store-postgres/src/transaction_executor.rs:8743-8896 | over every history, a skipped task of the current plan has only prerequisites that ended, and not as the plan asks |
| MigrationManifest.OrderedByOne | crates/durable-store/src/migration.rs:33-68 | one migration passes its checks exactly if the manifest up to it stays ordered |
| MigrationManifest.TablesChecked | crates/durable-store/src/migration.rs:50-67 | the table checks pass exactly when no name is empty or declared more than once, and an error is true of the tables |
| MigrationManifest.ManifestIsDecided | crates/durable-store/src/migration.rs:26-71 | a manifest passes exactly when it is non-empty, its ids strictly increase, its versions never decrease and no table is declared twice; an error names the first migration at which this breaks |
| MigrationAssessment.CheckRows | crates/durable-store/src/migration_runner.rs:90-130 | the rows pass exactly as clean rows; otherwise the error explains the first row that is not |
| MigrationAssessment.AssessMigrations | crates/durable-store/src/migration_runner.rs:75-163 | succeeds exactly if the manifest is valid, the provider is named and the history, in any order, is exactly some first k candidates, each once and applied; the plan is then the remaining suffix with candidate k-1's version and the last one's |
| MigrationAssessment.ErrorsExclude | crates/durable-store/src/migration_runner.rs:36-62 | no error is ever given for such a history |
| MigrationAssessment.PlanIsDetermined | crates/durable-store/src/migration_runner.rs:132-162 | the contract fixes the verdict and the plan |
| MigrationMachine.Machine.NextAction | crates/durable-store/src/migration_executor.rs:89-101 | the candidate index is in range whenever an action needs it, and there is none exactly after the end |
| MigrationMachine.Machine.ReportSuccess | crates/durable-store/src/migration_executor.rs:109-136 | the new state is the specified one; a finished machine refuses and stays as it is |
| MigrationMachine.Machine.ReportFailure | crates/durable-store/src/migration_executor.rs:144-199 | the new state is the specified one, keeping an earlier failure; a finished machine refuses |
| MigrationMachine.MachineFollowsScript | crates/durable-store/src/migration_executor.rs:74-212 | for every sequence of reports the actions taken are exactly a prefix of the script up to the first failure followed by its recovery, and the recorded failure is the first one |
| MigrationMachine.RunsAreBounded | crates/durable-store/src/migration_executor.rs:74-212 | every run over n candidates finishes within 4n+3 reports |
| MigrationMachine.BoundIsReached | crates/durable-store/src/migration_executor.rs:187-196 | for every non-empty list of candidates the bound is reached: a failure of the last step of the last one takes 4n+3 reports and no fewer |
| MigrationMachine.LockIsReleasedOnce | crates/durable-store/src/migration_executor.rs:123-183 | a finished run that acquired the lock released it exactly once, as its last action; otherwise it took no other action |
| MigrationMachine.SuccessTakesEveryStep | crates/durable-store/src/migration_executor.rs:109-136 | a finished run succeeded exactly when every report was a success, and then it took every step of every candidate in order |
| MigrationMachine.FirstFailureIsKept | crates/durable-store/src/migration_executor.rs:144-199 | the first failing step, its candidate and its code are kept whatever the recovery reports |
| MigrationJournal.Session.InsertRow | crates/store-postgres/src/migration_executor.rs:437-466 | inserts the row exactly if its id is new, unless the statement is refused or cut off |
| MigrationJournal.Session.CloseRow | crates/store-postgres/src/migration_executor.rs:504-554 | changes the state only of a row that is being applied, else reports an invalid journal |
| MigrationJournal.Session.VerifyTables | crates/store-postgres/src/migration_executor.rs:557-579 | succeeds only if every declared table exists; a verification error names one that does not |
| MigrationJournal.Session.LoadHistory | crates/store-postgres/src/migration_executor.rs:390-435 | lists every row of the journal exactly once, in the order of the ids |
| MigrationJournal.AssessHistory | crates/store-postgres/src/migration_executor.rs:222-223 | the assessment of the listed rows is the remaining plan, or the dirty-migration error of exactly the dirty candidate |
| MigrationJournal.PlanRest | crates/store-postgres/src/migration_executor.rs:221-223 | a clean journal yields the remaining suffix, a dirty one exactly the dirty candidate |
| MigrationJournal.RestartIsExact | crates/durable-store/src/migration_runner.rs:90-162 | reassessing a journal with k applied rows gives the candidates from k on, or, if candidate k has another row, a dirty-migration error for exactly it |
| MigrationJournal.RunsOnlyAdvance | crates/store-postgres/src/migration_executor.rs:218-295 | over any number of runs of either driver, applied candidates stay applied with their tables, the count never falls, a successful run stays complete, and the first dirty row freezes the journal |
| PostgresMigration.BootstrapJournal | crates/store-postgres/src/migration_executor.rs:297-388 | the journal table and its first row appear together or not at all, however the transaction ends |
| PostgresMigration.BootstrapTransaction | crates/store-postgres/src/migration_executor.rs:334-388 | the table and the first row appear exactly if every statement of the transaction went through and its commit took effect |
| PostgresMigration.ExecuteSql | crates/store-postgres/src/migration_executor.rs:468-502 | a migration's tables appear exactly if its transaction went through and its commit took effect |
| PostgresMigration.ActionMoves | crates/store-postgres/src/migration_executor.rs:249-284 | whatever becomes of an action, exactly the first k candidates stay applied and at most candidate k has another row, in step with the machine |
| PostgresMigration.DriveMachine | crates/store-postgres/src/migration_executor.rs:248-288 | the loop terminates and keeps the journal invariant; without a failure all candidates are applied, and if no statement is disturbed nothing fails |
| PostgresMigration.MigrateLocked | crates/store-postgres/src/migration_executor.rs:218-295 | every run keeps the journal invariant; success means complete with the exact report; a dirty journal is untouched and reported; without a disturbed statement, a run on a clean journal succeeds or stops at a candidate that lacks a declared table, which it names and marks failed |
| PostgresMigration.Migrate | crates/store-postgres/src/migration_executor.rs:151-163 | the same for a whole run; the database changes only once the lock is taken, a run that ends well or undisturbed has given it back, and no run wedges the journal |
| MySqlMigration.ExecuteStatements | crates/store-mysql/src/migration_executor.rs:482-490 | statements commit one by one: a failed run may have created some tables, never other ones |
| MySqlMigration.BootstrapJournal | crates/store-mysql/src/migration_executor.rs:270-322 | leaves the journal table without its first row exactly if the run stops after the one took effect and before the other did |
| MySqlMigration.ApplyCandidate | crates/store-mysql/src/migration_executor.rs:250-262 | afterwards the candidate is applied, untouched or the only dirty one, and a good answer means applied; without a disturbed statement it is applied, or it lacks a table and its row says failed |
| MySqlMigration.GiveUp | crates/store-mysql/src/migration_executor.rs:252-259 | the row says failed exactly if the closing statement takes effect, and else still that the candidate is being applied |
| MySqlMigration.ApplyPending | crates/store-mysql/src/migration_executor.rs:246-262 | the loop keeps the journal invariant and on success has applied and listed every pending candidate |
| MySqlMigration.MigrateLocked | crates/store-mysql/src/migration_executor.rs:234-268 | the same guarantees as the other driver, except for the exact wedging condition |
| MySqlMigration.Migrate | crates/store-mysql/src/migration_executor.rs:147-158 | the same for a whole run under the named lock, taken before and given back after, with the wedging condition on the statements after those that take the lock |
| MySqlMigration.WedgingRuns | crates/store-mysql/src/migration_executor.rs:270-322 | from an empty database, a run that dies right after creating the journal table wedges it, and an undisturbed next run answers that the bootstrap history is missing and changes nothing |
| ScheduleDispatch.PlanDispatch | crates/server/src/schedule.rs:170-212 | nothing before its time; in a gap or when skipping no run, when firing once one run, and the cursor past now; when catching up one to a hundred occurrences of the chain, as far as now and the limit allow; fails exactly on an unreadable expression or where a next fire time is missing |
| ScheduleDispatch.CatchUpFollowsChain | crates/server/src/schedule.rs:198-211 | catching up fires the chain of occurrences from the cursor, as far as now and the limit allow, and stops at its next element |
| ScheduleDispatch.PlanAdvances | crates/server/src/schedule.rs:170-212 | whatever the policy, the cursor of a due schedule moves strictly forward |
| ScheduleDispatch.DrainIsComplete | crates/server/src/schedule.rs:183-211 | repeated ticks fire the whole backlog of n occurrences in order in ceil(n / limit) ticks exactly when every occurrence at which a tick starts matches; otherwise fewer than n are fired |
| ScheduleDispatch.LimitDoesNotMatter | crates/server/src/schedule.rs:198-211 | when all occurrences match, every limit fires the same runs |
| ScheduleDispatch.LimitMattersInGap | crates/server/src/schedule.rs:183-188 | a concrete gap in which a smaller limit loses occurrences |
| ScheduleDispatch.OtherPoliciesDrainAtOnce | crates/server/src/schedule.rs:189-197 | skipping and firing once clear any backlog in one tick, with no run and with exactly one |
| ScheduleProtocol.ScheduledRunIdDetermines | crates/server/src/api.rs:525-533 | the id of a scheduled run determines its schedule and its occurrence |
| ScheduleProtocol.CreateRunKeepsRuns | crates/store-postgres/src/transaction_executor.rs:419-487 | creating a run for an occurrence leaves exactly one run for it and no other new one |
| ScheduleProtocol.OneRunPerOccurrence | crates/store-postgres/src/transaction_executor.rs:419-487 | under every policy, interleaving and crash, and with fires by hand and expired receipts, no occurrence has two runs and no two runs share an id |
| ScheduleProtocol.CursorOnlyAdvances | crates/store-postgres/src/query_executor.rs:149-182 | each successful advance moves the cursor strictly forward, over every history |
| ScheduleProtocol.NothingIsLost | crates/server/src/schedule.rs:112-148 | under Allow and CatchUp with matching occurrences, every occurrence before the stored cursor has exactly one run |
| ScheduleProtocol.OnlyOccurrencesFire | crates/server/src/schedule.rs:112-148 | under every policy the cursor, every plan in progress and every run made by scanners is an occurrence: the first fire time or one that the expression gives after some instant |
| ScheduleProtocol.OnlyTheChainFires | crates/server/src/schedule.rs:112-148 | under Allow and CatchUp with matching occurrences, scanners fire only the chain from the first fire time |
| ScheduleProtocol.BlockedScanFiresNothing | crates/server/src/schedule.rs:118-130 | a forbidding schedule with an active run plans nothing and moves past now |
| ScheduleProtocol.GapIsLost | crates/server/src/schedule.rs:183-188 | without matching occurrences a gap is passed over without a run |
| EventIngestion.KeyTextDetermines | crates/runtime/src/adapter/mod.rs:1551-1566 | the printed identity of an event is injective across its id, sequence and digest forms |
| EventIngestion.IdentityDetermines | crates/runtime/src/adapter/mod.rs:1526-1531 | with the execution in front it determines both |
| EventIngestion.NormalizeRemoteEvents | crates/runtime/src/adapter/mod.rs:1509-1549 | fails exactly if an identity is malformed or one identity has two digests; else keeps exactly the first event of each identity, in order |
| EventIngestion.KeptKeysDistinct | crates/runtime/src/adapter/mod.rs:1516-1525 | no identity is kept twice |
| EventIngestion.KeptCovers | crates/runtime/src/adapter/mod.rs:1516-1525 | every event has a kept one with its identity, no later than itself |
| EventReceipts.ShapeIsDecided | crates/durable-store/src/external_command.rs:226-295 | a command passes validation exactly if its cursor is not empty, a poll time is given, every event is fine, no two share an identity, and at most one acts and one ends the execution; an error is true of the first event at which the batch breaks |
| EventReceipts.NormalizedCommandIsAccepted | crates/durable-store/src/external_command.rs:226-295 | the command built from a normalised batch passes validation exactly if its next cursor is not an empty text |
| EventReceipts.BatchBoundaries | crates/runtime/src/adapter/mod.rs:1509-1549 | two batches normalised as one keep what the first keeps, then what the second keeps and the first has not |
| EventReceipts.AgentEvents.Append | crates/store-postgres/src/transaction_executor.rs:3117-3330 | a command answered before gets the same answer again without effect, or is refused if it differs; else all events are stored or none; accepted are the receipts of the events with a new key, in order, and duplicates those of the others; the cursor version moves by one, and the cursor never becomes an empty text |
| EventReceipts.StoreAbsorbs | crates/store-postgres/src/transaction_executor.rs:3187-3254 | storing what a clean batch normalises to equals taking its events one by one |
| EventReceipts.StoreRefuses | crates/store-postgres/src/transaction_executor.rs:3200-3216 | a batch that contradicts a receipt is refused |
| EventReceipts.BatchingDoesNotMatter | crates/store-postgres/src/transaction_executor.rs:3176-3254 | however events are split into batches and repeated, ingestion goes through exactly when the joined events are clean, with the receipts and the log of the joined events |
| HttpAgentAdapter.AnsweredSubmitFails | crates/adapter-http/src/lib.rs:577-633 | an answered submission is an error exactly for a misread success, an answer that is neither a success nor a server error, or one that is too large; no such error leaves the outcome open |
| HttpAgentAdapter.UnansweredSubmitIsUncertain | crates/adapter-http/src/lib.rs:124-155 | a submission without a complete answer always leaves the outcome open |
| HttpAgentAdapter.AnsweredReconciliation | crates/adapter-http/src/lib.rs:157-175 | a reconciliation names a run exactly for a usable success and denies one exactly for a 404; any other answer is an error whose class its status determines |
| HttpAgentAdapter.UnansweredReconciliation | crates/adapter-http/src/lib.rs:157-175 | a reconciliation without a complete answer denies nothing |
| AgentDispatch.DispatchAgent | crates/runtime/src/adapter/mod.rs:503-607 | an execution with unknown outcome is submitted only after the remote denied it in the same dispatch; the outcome is the remote's answer or the failed check |
| AgentDispatch.ErrorOutcomeIsDecided | crates/runtime/src/adapter/mod.rs:1638-1660 | an adapter error leaves the outcome open exactly if its class asks to query or resume, and else rejects with its code, class and retry time |
| AgentDispatch.CheckFirst | crates/runtime/src/adapter/mod.rs:513-578 | nothing is called unless every check passes; only a mismatched envelope ends without a record |
| AgentProtocol.StepsAreTheDispatch | crates/runtime/src/adapter/mod.rs:503-607 | whatever a dispatch finds and whatever the remote answers, its steps in the protocol make the calls and decide the outcome that the dispatching method specifies |
| AgentProtocol.EveryRequestCarriesTheKey | crates/runtime/src/adapter/mod.rs:1324-1376 | over every history every request of the execution carries the key stored when it was prepared, whatever context was resolved |
| AgentProtocol.ReconciledBeforeResubmitting | crates/runtime/src/adapter/mod.rs:582-604 | over every history, a submission of an execution with unknown outcome follows a reconcile call of the same dispatch that found nothing |
| AgentProtocol.OneRemoteRun | crates/store-postgres/src/transaction_executor.rs:2902-3000 | against a remote that keeps a key's run, at most one run of the execution exists among all its runs, and a recorded reference is that run and is never replaced or lost, under stale replays, delayed requests, other clients, stops and crashes |
| AgentProtocol.OutcomeIsStored | crates/store-postgres/src/transaction_executor.rs:2928-3000 | over every history an outcome is recorded exactly if the execution has not moved since its dispatch started, except to be stopped, and an error has a code; then the reference of an accepted run, the status, the error code and the retry time are those the outcome calls for, and else nothing changes |
| AgentProtocol.AnswerIsStored | crates/adapter-http/src/lib.rs:577-633 | from the wire to the store: status, size and body of an answered submission determine the state that the execution is left in once the outcome is recorded |
| AgentProtocol.ReferenceIffAccepted | crates/store-postgres/src/transaction_executor.rs:2942-3000 | over every history the execution refers to a run exactly if the acceptance of that run was recorded at some step |
| AgentProtocol.OutcomeIsRecordedOnce | crates/store-postgres/src/transaction_executor.rs:2942-3000 | however often a start is replayed, and even around a stop, at most one of its outcomes is recorded |
| AgentProtocol.ReconcilingAloneIsNotEnough | crates/runtime/src/adapter/mod.rs:555-570 | without idempotent keys a delayed request creates a second run although the remote was asked first |
| AgentProtocol.RejectedMayHaveRun | crates/adapter-http/src/lib.rs:614-631 | a success with an undecodable body is recorded as a failure for good although a run exists |
| AgentProtocol.RunsComeFromRequests | crates/runtime/src/adapter/mod.rs:592-604 | a remote run with the execution's key exists exactly if one of its requests was handled |
| AgentProtocol.RejectedMadeRunIff | crates/adapter-http/src/lib.rs:614-631 | if answers without success mean that no run was made, then over every history a rejected submission made a run exactly if its answer was a success, and that answer was misread |
| AgentProtocol.MisreadSuccessIsRejected | crates/adapter-http/src/lib.rs:614-631 | and an answered submission is rejected although it made a run exactly if the answer is a success that is too large, not decodable, without a run id or of another protocol version |
| AgentOutcomes.AcceptedIff | crates/store-postgres/src/transaction_executor.rs:6557-6568 | the store takes an outcome exactly if its status, result, error code and poll time go together |
| AgentOutcomes.StopOutcomeIsDecided | crates/runtime/src/adapter/mod.rs:651-791 | exactly which status and error code a stop records, for every finding, reply and adapter error |
| AgentOutcomes.StatusOutcomeIsDecided | crates/runtime/src/adapter/mod.rs:793-948 | exactly which status, result and error code a status poll records; an answer about another remote run is never taken |
| AgentOutcomes.EventResultIsDecided | crates/runtime/src/adapter/mod.rs:950-1190 | exactly when an event worker appends a batch, asks for the status, asks for a review or does nothing |
| AgentOutcomes.AppendedBatchIsTheRemotes | crates/runtime/src/adapter/mod.rs:1064-1190 | an appended batch has the events, the cursor and the terminal mark of the remote's answer, or is empty at the old cursor |
| AgentOutcomes.StopOutcomesAreLawful | crates/runtime/src/adapter/mod.rs:651-791 | every stop outcome has a legal status, a poll time exactly if reconciling and never a result; ends are the remote's word, and the store accepts all of them |
| AgentOutcomes.StatusOutcomesAreLawful | crates/runtime/src/adapter/mod.rs:793-948 | the same for status outcomes; a result exactly if succeeded, which needs a completed run under the unchanged remote identity, and then it is recorded |
| AgentOutcomes.EventOutcomesAreLawful | crates/runtime/src/adapter/mod.rs:950-1190 | event errors are recorded lawfully, and the store accepts exactly those whose error code is not empty |
| AgentOutcomes.EmptyEventErrorIsRefused | crates/store-postgres/src/transaction_executor.rs:6557-6568 | a concrete event error that the store refuses |
| AgentOutcomes.RetriedReadIsAccepted | crates/runtime/src/adapter/mod.rs:1064-1083 | a passing event error repeats the read at the old cursor with a batch the store accepts |
| AgentOutcomeHistory.OutcomeIsRecordedIffFresh | crates/store-postgres/src/transaction_executor.rs:3339-3440 | over every history a worker's outcome is recorded as it asks exactly if nothing has happened to the execution since it looked and the error code is not empty |
| AgentOutcomeHistory.BatchIsAppendedIffCurrent | crates/store-postgres/src/transaction_executor.rs:3155-3330 | a batch is appended exactly if the receipts take it, its cursor is not empty and the execution still runs at the cursor version that was read; a terminal one hands over to the status worker |
| AgentOutcomeHistory.SuccessIsReached | crates/runtime/src/adapter/mod.rs:793-948 | a concrete history that ends in success with the remote's result |
| AgentOutcomeHistory.EndsAreFinal | crates/store-postgres/src/transaction_executor.rs:3339-3440 | once an execution has ended, nothing of its row changes any more, however many stale workers act later |
| AgentOutcomeHistory.SuccessIsTheRemotes | crates/runtime/src/adapter/mod.rs:793-948 | over every history a result is stored exactly for a succeeded execution, and then the remote had reported it completed with this result under the stored remote identity |
| RecoveryInput.DecodeHexId | crates/runtime/src/recovery/mod.rs:381-394 | decodes a text exactly if it spells sixteen bytes, pair by pair |
| RecoveryInput.PrintedIdDecodes | crates/runtime/src/scheduler/mod.rs:312-319 | a printed id decodes to itself |
| RecoveryInput.OnlyPrintIsCanonical | crates/runtime/src/recovery/mod.rs:381-394 | of all texts that decode to an id only its print consists of lower-case digits |
| RecoveryInput.DecodingIsNotInjective | crates/runtime/src/recovery/mod.rs:381-394 | a plus sign can stand for a leading zero |
| RecoveryInput.SecondSpellingIff | crates/runtime/src/recovery/mod.rs:381-394 | an id has a spelling other than its print exactly if one of its bytes is below sixteen or has a letter among its digits |
| RecoveryInput.InputReadsBack | crates/runtime/src/recovery/mod.rs:334-348 | the worker reads exactly the kind, id and revision that the planner printed |
| DueWork.PlanNeverFails | crates/runtime/src/scheduler/mod.rs:116-169 | every candidate the database can hold is planned, available at its due time with the planner's priority and attempts, and its command is valid exactly if its checkpoint is positive |
| DueWork.PlansShareIdsIffSameWork | crates/runtime/src/scheduler/mod.rs:118-169 | two plans share their command, task, event, idempotency key or request hash exactly if their candidates agree in kind, execution, due time and revision |
| DueWork.ValidCommandsAgree | crates/durable-store/src/due_work.rs:85-97 | a command that the store finds well formed belongs to its candidate's run, stage, generation and checkpoint, as the planned one does |
| DueWork.WorkIdentityDetermines | crates/runtime/src/scheduler/mod.rs:118-124 | distinct kind, execution, due time or revision give distinct identities |
| DueWork.BeginFor | crates/runtime/src/recovery/mod.rs:233-322 | a claimed task starts a retry exactly under the listed conditions, with the decoded kind, execution and revision; an error is true of the task |
| DueWork.RecoveryStore.Start | crates/runtime/src/recovery/mod.rs:245-322 | a start is recorded once per claimed attempt; a replay answers what was recorded, and a start whose commit is not confirmed is answered with an error |
| DueWork.PollOnce | crates/runtime/src/recovery/mod.rs:204-331 | whatever the commit does, a start is handed to the adapter only when it is in the store, which changes by the start of the claimed task or not at all; an invalid task is answered with an error that is true of it |
| DueWork.PlannedWorkStarts | crates/runtime/src/recovery/mod.rs:239-322 | from planner to worker: the retry that starts has the candidate's kind, execution and revision |
| DueWork.Tick | crates/runtime/src/scheduler/mod.rs:234-289 | every candidate of the page is counted once, by its own answer; failures are listed in order and stop nothing |
| DueWork.OnlyTheStoreFails | crates/runtime/src/scheduler/mod.rs:265-287 | the failed candidates are exactly those whose own answer from the store is an error; planning never fails one |
| KeysetScan.KeyOrder | crates/store-postgres/src/query_executor.rs:652-654 | the database's sort key orders rows totally |
| KeysetScan.AgentRetriesComeFirst | crates/store-postgres/src/query_executor.rs:1392-1397 | by text, agent retries sort before tool retries, unlike in the enumeration |
| KeysetScan.Scan | crates/store-postgres/src/query_executor.rs:599-672 | a page is the next stretch of the table past the cursor, at most 1000 rows, with a next cursor exactly if rows remain; one unreadable row fails its whole page, and a zero limit is an error |
| KeysetScan.SweepAscends | crates/store-postgres/src/query_executor.rs:681-770 | under arbitrary changes between pages the keys of a sweep strictly increase |
| KeysetScan.SeenInOnePage | crates/store-postgres/src/query_executor.rs:681-770 | a row that keeps its key throughout a finished sweep is in exactly one page |
| KeysetScan.OnlyRowsAreReturned | crates/store-postgres/src/query_executor.rs:599-672 | a returned key was in the table when its page was read |
| KeysetScan.StaticSweepIsTheTable | crates/store-postgres/src/query_executor.rs:599-672 | on an unchanged table the pages join to the sorted table |
| KeysetScan.MaintenancePollingJob.RunOnce | crates/server/src/maintenance.rs:67-133 | the cursor moves to the page's next one exactly if the scan succeeded; candidates are counted by their own fate |
| KeysetScan.FailedScansKeepThePlace | crates/server/src/maintenance.rs:67-133 | failed scans between pages do not disturb a sweep |
| EventStream.EventStreamState.NextEvent | crates/server/src/api.rs:1263-1317 | a call skips listings of nothing new with checks of a run that goes on, and stops exactly at an event that is there, a failed listing, a failed check or a missing run, a terminal check, or the end of the replies |
| EventStream.StreamIsGapless | crates/server/src/api.rs:1263-1317 | under any interleaved appends the yielded events are a gapless, ordered stretch of the log right after the requested sequence |
| EventStream.ReconnectingIsGapless | crates/server/src/api.rs:1236-1250 | a client that comes back naming the last sequence it saw gets the log on from there, and nothing twice |
| EventStream.LiveStreamsDrain | crates/server/src/api.rs:1263-1317 | while the run goes on and the store answers, only the client ends the stream, and by then it has yielded everything that its last listing showed |
| EventStream.TerminalEnd | crates/server/src/api.rs:1283-1312 | a stream that ends as terminal read a listing and then a terminal status check as its last two replies; it yielded exactly what that listing saw after the requested sequence, and misses events exactly if the log at the status check is another one and reaches past that sequence |
| EventStream.TerminalEventIsMissed | crates/server/src/api.rs:1283-1312 | a concrete run whose terminal event is never yielded |
| Text.DecimalReadsBack | crates/runtime/src/scheduler/mod.rs:118-124 | a printed number reads back |
| Text.HexInjective | crates/runtime/src/scheduler/mod.rs:312-319 | printing bytes in hexadecimal is injective |
| Text.SplitsOnce | crates/runtime/src/scheduler/mod.rs:118-124 | an identity splits in only one way at its first separator |

## Left out

- HTTP transport, authentication, request headers, routing, connection pools and bootstrap provisioning: input and output.
- SQL text and the isolation of transactions: each store operation is one atomic step, as its transaction promises.
- Cron parsing and time-zone arithmetic: a foreign library, kept as a next-fire function and a match test.
- SHA-256 and random ids: taken to be free of collisions.
- The fixed delivery workflow, backoff delays and response mapping: constant tables and single branches.
- Leases, waits, artifacts, outbox claims and merge patches inside the store: only the transactions named above are modelled.
- TaskActivation: a parent task that is put back to waiting when a child run is created is not modelled, and persisted conditions are taken to be readable.
- PlanMaterialization.TaskIdDetermines: keys and ids are texts of characters; byte lengths of non-ASCII keys are not modelled.
- RecoveryInput.ReadInput: reads flat objects of texts without escapes and unsigned numbers; other JSON is answered as malformed, and texts that are not ASCII are not cut at byte positions.
- MigrationJournal.Session: a migration's SQL only creates tables; version numbers beyond 63 bits, which the original treats as a programming error, are not modelled.
- MigrationJournal.Session.LoadHistory: rows that the database's own constraints exclude (an unknown state, a checksum of the wrong length) are not modelled.
- ScheduleProtocol: whether a forbidding schedule has an active run is an arbitrary answer at each scan, and a refused run is a scanner that stops.
- TaskHistory.GatedIffResumedInOrder: times are not modelled; which tasks have become available is an arbitrary set at each resumption, and a claim may take any queued task.
- EventReceipts.AgentEvents.Append: receipts are kept per execution by dedupe key, and answered commands by the cursor version that identifies them, without expiry; workflow projections of stored events, which the event worker never produces, are validated but not applied.
- EventReceipts.HashOf: the request hash of an event command is taken to determine its terminal mark, cursor and events; the original hashes the texts of the remote batch one after the other without their lengths, so that batches which divide them differently share it.
- AgentProtocol.OneRemoteRun: status changes by other transactions are arbitrary, which covers more than the store allows; one execution with its key is modelled, and other clients of the remote use other keys; session ids and protocol versions of a run are not stored.
- AgentProtocol.RejectedMadeRunIff: of the remote it is assumed that a success answers a request that was handled, and that any other answer means that no run was or will be made; without that nothing can be said about rejected requests.
- AgentOutcomeHistory.SuccessIsTheRemotes: what other transactions do to the execution is arbitrary, except that they end it without success, do not replace its remote identity and do not revive it.
- DueWork.RecoveryStore.Start: the store's conditions on a new start beyond its identity are part of whether its commit succeeds.
- KeysetScan.Scan: which rows can be decoded is an arbitrary property of the row's key.
