# Execution protocol and report cores, in Dafny

A model of the parts of the repository that are hardest to get right by reading: a distributed
lease protocol with its scheduler, a delivery queue, a bounded event buffer, two small language
processors, an aggregation over span trees, and two incremental line splitters. Every method is
proved against a specification on values, and the promises of the source are proved about that
specification for all inputs or all runs.

| files | what they hold |
|---|---|
| `LeaseMachine` | the lease protocol by itself: states, fencing tokens, attempts, cancellation; what every run of it keeps |
| `LeaseQueue`, `InMemoryStore` | the in-memory execution store, as values and as the class that updates its maps |
| `LeaseRefinement`, `LeaseSafety`, `LeaseClaims`, `LeaseCapacity` | that store is the machine; fencing, what claims take and when, capacity and overtaking over every run of calls |
| `PhaseOutcome`, `PostgresStore`, `PostgresRows`, `PostgresRefinement`, `PostgresRuns`, `PostgresOrder` | the Postgres store's transactions on job and run rows, column by column, and that they are the same machine; fencing, slots and overtaking over every run of transactions; when job and run rows agree |
| `Cron`, `ScheduleBoard`, `SchedulePolling`, `Scheduler`, `PollersAlone` | compare-and-advance scheduling under any number of pollers, the three misfire loops, and that a poller alone is such a loop |
| `Spool`, `SpoolDelivery`, `SpoolVerdicts`, `SpoolStatuses`, `RunnerService`, `SpoolSafety`, `SpoolDrain` | the runner's spool: the flush loop, what a reply says of each entry, conservation and order, the retry budget |
| `RealtimeBus`, `InMemoryRealtimeBus` | the in-memory realtime bus against the log of everything it published |
| `Glob`, `Regex`, `GlobMeaning` | globs, the ECMAScript patterns they compile to, and that compilation preserves meaning |
| `UnifiedDiff`, `DiffPrinting`, `DiffInversion`, `DiffHeaders` | the unified diff parser, a printer, that the parser inverts it, and which headers it reads as what |
| `AgentSpans`, `AgentAssembly`, `AgentOrder`, `AgentUsage`, `AgentPrices`, `AgentLoops` | which run a span belongs to and in what order, conservation of usage, prices, repeated tool calls |
| `LineFraming`, `EventPump` | splitting a stream into lines, and pumping events out of a growing file |
| `Text`, `Decimal`, `Wrappers` | string operations, decimal numerals, options |

## How it is modelled

- A run is any sequence of calls, transactions, flushes or polls, in any interleaving. Every call
  brings its own clock reading; nothing assumes that clocks agree or move forward.
- Identifiers are numbers, in the order the source compares them, and a random UUID is a number
  that was not used before. Spool entries are numbered in the order they were accepted. An empty
  project id is no project.
- A Postgres `transaction(...)` is one atomic step on a job table and a run table. The row a claim
  locks is the first of its candidates, in the query's order, that no other transaction holds;
  which rows are held is any set. Three things the API does to the same rows are steps too:
  inserting a run, cancelling one, and applying an event batch. Runner rows stay as they are.
- A cron expression is any function from an instant to the least occurrence after it.
- What the outside does is a parameter: the reply to each delivery, what jobs hand over while one
  is out, whether the spool can acknowledge, what a file reads as, whether a handler accepts a line.
- Milliseconds, tokens, priorities and bytes are integers; cost is an exact real.

Where the code and what is written about it differ, the model follows the code:

- `catch_up` is documented as one run per missed occurrence; the latest due occurrence never gets
  one (`Scheduler.LatestDueIsDropped`).
- A flush acknowledges nothing when a later batch fails, and a batch that clears resets the attempt
  counter, so the retry budget bounds only a failing head batch (`SpoolDrain.DeadLettersExactlyWhen`).
  A head that clears in front of a batch that never does is sent again for ever, and nothing is
  acknowledged or given up (`SpoolDrain.NeverDrains`, `SpoolDrain.OneSilentJobHoldsTheSpool`).
- An entry that stands behind one rejected for good is acknowledged with it, whatever the server
  answered about it, and a completion goes out over it (`SpoolDrain.AckedBehindARejectedOne`,
  `SpoolDrain.CompletionPassesARetryableEvent`). Only a batch of one entry clears on that entry's own
  verdict (`SpoolVerdicts.OnlySinglesClearOnVerdicts`).
- An event batch moves its run's phase under a live lease and leaves the job row alone, so a batch
  whose last phase is a terminal one leaves an ended run with a leased job. Job and run rows agree
  exactly as long as none does (`PostgresRuns.AgreementLasts`, `PostgresRuns.AgreementBreaks`).
- The Postgres claim counts waiting time from zero, so one whose clock is behind two jobs' creation
  compares their priorities alone (`PostgresOrder.SlowClockIgnoresAge`).
- Two invocations of one id in a trace each get the spans of both, which are then counted twice
  (`AgentUsage.SpansAreHeld`, `AgentUsage.AssemblyPartitionsExactlyWhen`).
- A file read that cuts a character leaves what the cut one decoded to in the delivered line
  (`EventPump.CutCharacterIsLost`).
- A released job whose cancellation was requested stays queued, and no claim ever takes it.
- Recovery writes run status `failed` where the derivation from the phase gives `interrupted`; what
  is proved of the row is that its phase is terminal exactly when it has an outcome.
- `**` stops at line terminators, because the compiled `.` does: every glob keeps its meaning on a name
  exactly when the name has none (`GlobMeaning.MeaningIsPreservedExactlyWhen`).
- The in-memory store advances a schedule whose pointer equals the expected one, the Postgres store
  one at or before it; in every reachable state the two agree (`SchedulePolling.PgGuardAgrees`).

## Model

| member | source | states |
|---|---|---|
| `LeaseMachine.TokensStrictlyIncrease` | apps/worker/src/in-memory-store.ts:233-301 | over every run of the protocol a job's fencing tokens strictly increase |
| `LeaseMachine.EndedOnce` | apps/worker/src/in-memory-store.ts:316-372 | at most one completion, release, recovery or revocation ends a grant |
| `LeaseMachine.StaleCallRefused` | apps/worker/src/in-memory-store.ts:421-437 | after a grant ended or was superseded its holder's calls change nothing |
| `LeaseMachine.LeaseHasGrant` | apps/worker/src/in-memory-store.ts:233-301 | every lease in force goes back to one grant of the run that nothing has ended |
| `LeaseMachine.EndingHasGrant` | apps/worker/src/in-memory-store.ts:316-372 | every ending takes back an earlier grant that nothing ended in between |
| `LeaseMachine.AttemptBudget` | apps/worker/src/in-memory-store.ts:355-372 | the attempt is the first one plus the requeueing recoveries, and stays within the budget |
| `LeaseMachine.AbsorbingStates` | apps/worker/src/in-memory-store.ts:211-218 | completed, failed and cancelled are never left and a cancel request is never taken back |
| `LeaseMachine.RecoverAllReaps` | apps/worker/src/in-memory-store.ts:346-353 | recovering a list of jobs recovers exactly the lapsed ones, in any order |
| `InMemoryStore.InMemoryExecutionStore.AddJob` | apps/worker/src/in-memory-store.ts:93-120 | the whole store after a job is added: fields, defaults, place in the order |
| `InMemoryStore.InMemoryExecutionStore.RequestCancellation` | apps/worker/src/in-memory-store.ts:211-218 | the whole store after a cancel request, and whether the job was known |
| `InMemoryStore.InMemoryExecutionStore.ClaimJob` | apps/worker/src/in-memory-store.ts:233-301 | a claim sweeps lapsed leases and then takes the foremost eligible job, or changes nothing more |
| `InMemoryStore.InMemoryExecutionStore.RenewLease` | apps/worker/src/in-memory-store.ts:303-314 | the new expiry under a matching lease, else the store as it was |
| `InMemoryStore.InMemoryExecutionStore.ReleaseJob` | apps/worker/src/in-memory-store.ts:316-329 | a matching release queues the job again, else the store as it was |
| `InMemoryStore.InMemoryExecutionStore.CompleteJob` | apps/worker/src/in-memory-store.ts:331-344 | a matching completion ends the job in the state its result names, else the store as it was |
| `InMemoryStore.InMemoryExecutionStore.ReapExpiredLeases` | apps/worker/src/in-memory-store.ts:346-353 | the sweep recovers exactly the lapsed jobs and reports them in order |
| `InMemoryStore.InMemoryExecutionStore.RecoverJob` | apps/worker/src/in-memory-store.ts:355-372 | one recovered job and its report: requeued within budget, else cancelled or failed |
| `InMemoryStore.InMemoryExecutionStore.AdvanceSchedule` | apps/worker/src/in-memory-store.ts:383-392 | compare-and-advance of one pointer |
| `InMemoryStore.InMemoryExecutionStore.EnqueueScheduledRun` | apps/worker/src/in-memory-store.ts:394-419 | an occurrence becomes one new job once; a repeat returns the first answer and changes nothing |
| `LeaseQueue.Foremost` | apps/worker/src/in-memory-store.ts:249-279 | the pick is eligible and comes before every other eligible job in the ageing order; none only if none is eligible |
| `LeaseRefinement.CallRefines` | apps/worker/src/in-memory-store.ts:211-373 | every call of the in-memory store is a list of machine operations, or a refusal that leaves the machine as it was |
| `LeaseRefinement.ReapRefines` | apps/worker/src/in-memory-store.ts:346-373 | the sweep is the machine's recovery of every job in the store's order |
| `LeaseSafety.RunRefines` | apps/worker/src/in-memory-store.ts:93-373 | any interleaving of calls is one run of the lease machine, by the operations the calls amount to in order |
| `LeaseSafety.GrantsExactlyWhen` | apps/worker/src/in-memory-store.ts:281-301 | a call grants a job exactly when the job has the next token after it |
| `LeaseSafety.EndsExactlyWhen` | apps/worker/src/in-memory-store.ts:316-372 | a call ends a grant exactly when the job is leased under its token before and not after |
| `LeaseSafety.StaysWellFormed` | apps/worker/src/in-memory-store.ts:93-373 | in every reachable state a job has a lease exactly when it is leased |
| `LeaseSafety.TokensIncrease` | apps/worker/src/in-memory-store.ts:281-301 | over every interleaving of calls no (job, token) is granted twice, and tokens strictly increase |
| `LeaseSafety.EndedAtMostOnce` | apps/worker/src/in-memory-store.ts:316-372 | a grant is ended at most once and its token is never granted again |
| `LeaseSafety.StaleHolderIsRefused` | apps/worker/src/in-memory-store.ts:421-437 | a renew, release or completion under a spent token answers false and leaves the whole store unchanged |
| `LeaseSafety.ExpiredHolderIsRefused` | apps/worker/src/in-memory-store.ts:421-437 | so does one under a lease that has run out by the clock, reaped or not |
| `LeaseSafety.LeaseWasGranted` | apps/worker/src/in-memory-store.ts:233-301 | every lease in force was granted by an earlier claim of the run and has not ended since |
| `LeaseSafety.EndingHasItsGrant` | apps/worker/src/in-memory-store.ts:316-372 | every ending takes back an earlier grant that nothing ended in between |
| `LeaseSafety.CancelAndTerminalAbsorb` | apps/worker/src/in-memory-store.ts:211-218 | once terminal or asked to cancel, a job is never granted again, and its state and flag stay |
| `LeaseSafety.AttemptsAreBounded` | apps/worker/src/in-memory-store.ts:355-372 | attempt is initial attempt plus requeueing reaps, at most the larger of initial and budget |
| `LeaseClaims.ClaimRefusedExactlyWhen` | apps/worker/src/in-memory-store.ts:239-281 | a claim gets nothing exactly when, after the sweep, the runner is absent, unhealthy or full, or no job waits uncancelled, is due, asks only for what runner and call have, and leaves both quotas room |
| `LeaseClaims.GrantedClaim` | apps/worker/src/in-memory-store.ts:249-301 | a granted claim took a job that fits, ahead of every other that fits; the job's new fields, the answer's, and no other job changed |
| `LeaseClaims.SweptJobIs` | apps/worker/src/in-memory-store.ts:346-372 | field by field, what the sweep makes of a job whose lease ran out, and that it leaves every other job as it was |
| `LeaseClaims.RecoveryIs` | apps/worker/src/in-memory-store.ts:355-372 | what the report says of a recovered job: holder, next attempt, phase |
| `LeaseClaims.CompletedJobIs` | apps/worker/src/in-memory-store.ts:331-344 | a completion is accepted exactly under the lease with time left; the job's fields after it, by its status |
| `LeaseClaims.ReleasedJobIs` | apps/worker/src/in-memory-store.ts:316-329 | a release is accepted exactly under the lease with time left; the job's fields after it |
| `LeaseClaims.AddedJobIs` | apps/worker/src/in-memory-store.ts:93-120 | the fields of an added job: what was given, and the store's own values for the rest |
| `LeaseClaims.RecoveredJobBacksOff` | apps/worker/src/in-memory-store.ts:252-361 | over every run a recovered job is not granted again before the retry backoff is over by the claim's clock |
| `LeaseClaims.ReleasedJobWaits` | apps/worker/src/in-memory-store.ts:252-329 | nor a released one before the time its holder named |
| `LeaseClaims.AddedJobWaits` | apps/worker/src/in-memory-store.ts:93-252 | nor an added one before the time it was given |
| `LeaseCapacity.CapacityHolds` | apps/worker/src/in-memory-store.ts:239-279 | over every run that lowers no runner's slots, leases stay within slots, workspace and project quotas |
| `LeaseCapacity.LoweredSlotsOvercommit` | apps/worker/src/in-memory-store.ts:84-91 | registering a runner with fewer slots keeps capacity exactly when its leases already fit |
| `LeaseCapacity.LeasedRunnerOverSlots` | apps/worker/src/in-memory-store.ts:84-91 | a runner that holds a lease and registers again with no slots is over them |
| `LeaseCapacity.PickIsForemost` | apps/worker/src/in-memory-store.ts:262-279 | with a job eligible there is a pick exactly when the runner is healthy and has a slot free, and no eligible job comes before it |
| `LeaseCapacity.YoungerPrecedesExactlyWhen` | apps/worker/src/in-memory-store.ts:262-279 | a younger job can ever come first exactly when it is younger by less than its priority lead in starvation periods |
| `LeaseCapacity.OvertakingIsBounded` | apps/worker/src/in-memory-store.ts:249-279 | a job granted past an eligible one is older, or younger by less than its lead |
| `LeaseCapacity.OnlyOldJobsPass` | apps/worker/src/in-memory-store.ts:249-279 | over a whole run with bounded priorities only jobs created before a fixed instant ever pass a job |
| `PhaseOutcome.DeriveRunState` | packages/orchestration/src/phase-outcome.ts:145-167 | the phase is kept, is terminal exactly when there is an outcome, and only a complete run takes its outcome from the claim |
| `PhaseOutcome.DerivedRunIs` | packages/orchestration/src/phase-outcome.ts:82-167 | the outcome and status of every phase and claim, value by value |
| `PhaseOutcome.FinishedJobEndsRun` | apps/worker/src/postgres-store.ts:91-146 | the job state, phase, outcome and status each job result ends in, value by value; a requeue alone is no ending |
| `PostgresStore.FirstIsUnique` | apps/worker/src/postgres-store.ts:191-249 | the claim query's order and limit name one row |
| `PostgresStore.Pick` | apps/worker/src/postgres-store.ts:191-249 | the claim takes the first candidate no other transaction holds, and none exactly when all are held |
| `PostgresRows.ClaimTakes` | apps/worker/src/postgres-store.ts:181-249 | a claim is refused exactly when the runner has no slot free or every job that fits is held; else it takes the one that goes before all others not held, said in columns |
| `PostgresRows.ClaimedRowsAre` | apps/worker/src/postgres-store.ts:251-271 | the two rows a claim writes, column by column, and no other |
| `PostgresRows.RenewedRowIs` | apps/worker/src/postgres-store.ts:288-302 | when a renewal is accepted, and the one column it writes |
| `PostgresRows.ReleasedRowsAre` | apps/worker/src/postgres-store.ts:304-331 | when a release is accepted, and the two rows it writes |
| `PostgresRows.CompletedRowsAre` | apps/worker/src/postgres-store.ts:333-372 | when a completion is accepted, and what its result writes into the two rows, value by value; a refused one writes none |
| `PostgresRows.RecoveredRowsAre` | apps/worker/src/postgres-store.ts:392-426 | the two rows a recovery writes: requeued within the run's budget, else cancelled or lost |
| `PostgresRows.ReapedRowsAre` | apps/worker/src/postgres-store.ts:374-426 | a reap writes so exactly the rows of the jobs it visits whose leases ran out, in any order |
| `PostgresRows.BudgetIs` | apps/worker/src/postgres-store.ts:772-776 | the attempts a run allows |
| `PostgresRows.CancelledRowsAre` | apps/api/src/execution/drizzle-execution-store.ts:834-862 | the rows a cancellation writes, of the run and of its live job |
| `PostgresRows.EventRowsAre` | apps/api/src/execution/drizzle-execution-store.ts:1174-1363 | the run columns an accepted event batch writes, from the last event that asks for a phase |
| `PostgresRows.RecoveredJobBacksOff` | apps/worker/src/postgres-store.ts:191-405 | over every run of transactions a recovered job is not claimed again before the retry backoff is over by the claim's clock |
| `PostgresRows.ReleasedJobWaits` | apps/worker/src/postgres-store.ts:191-331 | nor a released one before the time its holder named |
| `PostgresRefinement.ClaimRefines` | apps/worker/src/postgres-store.ts:174-286 | a claim of any candidate, the first or one behind held rows, is the machine's grant and enabled there |
| `PostgresRefinement.RenewRefines` | apps/worker/src/postgres-store.ts:288-302 | a renewal is the machine's, refused also when the new expiry is past |
| `PostgresRefinement.ReleaseRefines` | apps/worker/src/postgres-store.ts:304-331 | a release is the machine's, job row and run row together, and answers whether it was enabled |
| `PostgresRefinement.CompleteRefines` | apps/worker/src/postgres-store.ts:333-372 | a completion is the machine's and ends job row and run row together |
| `PostgresRefinement.RecoverRefines` | apps/worker/src/postgres-store.ts:393-426 | recovering one expired lease is the machine's recovery, with run and job in agreement |
| `PostgresRefinement.ReapRefines` | apps/worker/src/postgres-store.ts:374-426 | the reaping transaction is the machine's, whatever order the rows come in |
| `PostgresRefinement.ReapIsComplete` | apps/worker/src/postgres-store.ts:374-391 | a reap that visits every job leaves no lapsed lease |
| `PostgresRefinement.CancelRefines` | apps/api/src/execution/drizzle-execution-store.ts:834-862 | cancelling a live run revokes its one job, leased or not, and only marks a job that has ended |
| `PostgresRefinement.CreateRefines` | apps/api/src/execution/drizzle-execution-store.ts:689-715 | inserting a run with its job is a submission |
| `PostgresRefinement.EventsRefine` | apps/api/src/execution/drizzle-execution-store.ts:1172-1363 | an event batch leaves the machine as it was and keeps the tables' own checks, accepted or refused |
| `PostgresRefinement.EventsKeepAgreementExactlyWhen` | apps/api/src/execution/drizzle-execution-store.ts:1336-1363 | an accepted batch keeps job and run rows in agreement exactly when the last phase it asks for is not terminal |
| `PostgresRefinement.EventEndsRunUnderLease` | apps/api/src/execution/drizzle-execution-store.ts:1174-1190 | one event naming a terminal phase leaves an ended run with a leased job |
| `PostgresRuns.StaysConsistent` | apps/worker/src/postgres-store.ts:174-427 | in every reachable state a run is terminal exactly when it has an outcome, a job has a lease exactly when it is leased, and no two jobs share a run |
| `PostgresRuns.AgreementLasts` | apps/worker/src/postgres-store.ts:174-427 | jobs and runs that agreed on having ended agree for as long as no event batch ends a run |
| `PostgresRuns.AgreementBreaks` | apps/api/src/execution/drizzle-execution-store.ts:1336-1363 | the step that does end one breaks the agreement |
| `PostgresRuns.RunRefines` | apps/worker/src/postgres-store.ts:174-427 | a whole run of transactions is one run of the lease machine, by the operations they commit in order |
| `PostgresRuns.GrantIsOneOp` | apps/worker/src/postgres-store.ts:174-286 | a granting claim commits exactly one enabled grant and leases the row under the next token |
| `PostgresRuns.TokensIncrease` | apps/worker/src/postgres-store.ts:174-286 | over every run of transactions a job's tokens strictly increase |
| `PostgresRuns.EndedAtMostOnce` | apps/worker/src/postgres-store.ts:304-426 | a lease is taken away at most once and its token never granted again |
| `PostgresRuns.StaleHolderIsRefused` | apps/worker/src/postgres-store.ts:288-372 | a renew, release, completion or event batch under a spent token answers no and changes no row |
| `PostgresRuns.EndedStays` | apps/worker/src/postgres-store.ts:174-427 | a job that ended with its run is never written again, and its run stays ended |
| `PostgresOrder.YoungerPrecedesExactlyWhen` | apps/worker/src/postgres-store.ts:227-234 | at a clock past both creations a younger job can come first exactly when it is younger by less than its lead in periods of at least a second |
| `PostgresOrder.SlowClockIgnoresAge` | apps/worker/src/postgres-store.ts:227-234 | at a clock before both creations a later job comes first exactly when its priority is higher |
| `PostgresOrder.OvertakingIsBounded` | apps/worker/src/postgres-store.ts:191-249 | a job claimed past a free candidate is older, younger by less than its lead, or created after the claim's clock |
| `PostgresOrder.SlotsHold` | apps/worker/src/postgres-store.ts:181-199 | over every run of transactions no runner holds more leases than it has slots |
| `Cron.DueAreTheOccurrences` | apps/worker/src/scheduler.ts:19-23 | what is due is the pointed-at instant and exactly the occurrences after it up to now |
| `SchedulePolling.NewResultsAreCreations` | apps/worker/src/in-memory-store.ts:394-419 | an occurrence gets its result from the step that creates its job, and from no other |
| `SchedulePolling.CreatedAtMostOnce` | apps/worker/src/in-memory-store.ts:394-419 | with any pollers, stale snapshots and clocks, each occurrence of each schedule creates at most one job |
| `SchedulePolling.RepeatsReturnTheSameJob` | apps/worker/src/in-memory-store.ts:394-419 | a repeat returns that same job for ever and changes nothing |
| `SchedulePolling.CreationsInOrder` | apps/worker/src/scheduler.ts:65-93 | a schedule's jobs are created in increasing order of occurrence |
| `SchedulePolling.PointersOnlyAdvance` | apps/worker/src/in-memory-store.ts:383-419 | over any run a pointer stays or is at a strictly later occurrence |
| `SchedulePolling.AcceptedCallsAdvance` | apps/worker/src/in-memory-store.ts:383-419 | a step changes the board exactly when its call is accepted, and then the pointer goes from the point named to a strictly later occurrence |
| `SchedulePolling.PgGuardAgrees` | apps/worker/src/postgres-store.ts:615-754 | the at-or-before guard and the equality guard act alike in every reachable state |
| `SchedulePolling.PgEnqueueIs` | apps/worker/src/postgres-store.ts:615-754 | whatever the board: when the Postgres call is refused, and that an occurrence with a job keeps it and is answered with it |
| `Scheduler.SkipMissed` | apps/worker/src/scheduler.ts:28-45 | one compare-and-advance to the least occurrence after now, no job |
| `Scheduler.RunOnceMissed` | apps/worker/src/scheduler.ts:48-63 | one job for the whole missed window with the schedule's own request, aimed at the least occurrence after now; the board and the queue after it |
| `Scheduler.CatchUpMissed` | apps/worker/src/scheduler.ts:66-93 | every due point but the latest, once each and in order, up to a hundred, each a new job with the fields the schedule's request gives it; no other job changed; where the pointer ends either way |
| `Scheduler.PollSchedule` | apps/worker/src/scheduler.ts:25-118 | whatever the policy: the pointer, the results, and one new job per ticket with the fields the schedule's request gives it; no other job changed |
| `Scheduler.PollSchedules` | apps/worker/src/scheduler.ts:95-118 | unless it throws, a poll leaves each due schedule at the least occurrence after now; every new job comes from a due schedule's request, and no other job changed |
| `Scheduler.LatestDueIsDropped` | apps/worker/src/scheduler.ts:77-91 | the latest due occurrence is never enqueued, and a finished catch-up has passed it |
| `Scheduler.RepeatedCatchUpDrains` | apps/worker/src/scheduler.ts:66-93 | polling again after the limit resumes: together the polls enqueue every due point but the latest, once, in order |
| `Scheduler.ResumesLater` | apps/worker/src/scheduler.ts:66-93 | a catch-up that threw resumes at any later instant on the next point, losing and repeating nothing |
| `PollersAlone.CaughtUpAlone` | apps/worker/src/scheduler.ts:66-93 | the interleaved poller, with no other between its calls, leaves the board as the scheduler's catch-up loop does |
| `PollersAlone.SkipsAlone` | apps/worker/src/scheduler.ts:28-45 | and as its skip |
| `PollersAlone.RunsOnceAlone` | apps/worker/src/scheduler.ts:48-63 | and as its run_once |
| `PollersAlone.NothingDue` | apps/worker/src/in-memory-store.ts:374-381 | a disabled schedule, or one not due yet, is left alone |
| `Spool.MemorySpool.Enqueue` | packages/runner-sdk/src/spool.ts:406-412 | an entry goes to the end, or is refused when the spool is full |
| `Spool.MemorySpool.Ack` | packages/runner-sdk/src/spool.ts:422-425 | exactly the named entries leave |
| `Spool.MemorySpool.DeadLetter` | packages/runner-sdk/src/spool.ts:427-430 | exactly the named entries are kept but no longer deliverable |
| `RunnerService.RunnerService.Batch` | apps/runner/src/runner-service.ts:769-785 | the batch is the head alone, or the run of its job's events up to a hundred |
| `RunnerService.RunnerService.RetryOrDeadLetter` | apps/runner/src/runner-service.ts:698-712 | an attempt is spent, and the last one dead-letters and resets the counter |
| `RunnerService.RunnerService.TryDeliver` | apps/runner/src/runner-service.ts:738-749 | a thrown delivery is charged to the whole batch |
| `RunnerService.RunnerService.SettleOutcome` | apps/runner/src/runner-service.ts:755-768 | settled and terminally rejected batches leave; anything else is charged to its failed entry |
| `RunnerService.RunnerService.Flush` | apps/runner/src/runner-service.ts:714-735 | the loop is the flush of the specification, with entries handed over while deliveries are out |
| `SpoolSafety.BatchIsMaximal` | apps/runner/src/runner-service.ts:769-785 | a batch of events is all of one job and kind and stops only at the end, at a hundred, or where either changes |
| `SpoolSafety.EntriesAreConserved` | apps/runner/src/runner-service.ts:714-823 | after any run each accepted entry is in exactly one of pending, dead-lettered and acknowledged, and the queue keeps their order |
| `SpoolSafety.AckedOnlyAfterClearing` | apps/runner/src/runner-service.ts:719-728 | an entry is acknowledged only after a reply that took it, rejected it for good, or rejected for good one it stood behind in its batch |
| `SpoolSafety.DeliveryIsInOrder` | apps/runner/src/runner-service.ts:714-735 | nothing is sent before every earlier entry was released, unless they go out together |
| `SpoolSafety.CompletionWaits` | apps/runner/src/runner-service.ts:769-800 | a completion is sent only after every earlier entry was taken, was rejected for good, stood behind one rejected for good, or was dead-lettered |
| `SpoolSafety.DeadOnlyAfterFailure` | apps/runner/src/runner-service.ts:698-712 | only what a failed delivery was charged for is dead-lettered |
| `SpoolVerdicts.ClearsExactlyWhen` | apps/runner/src/runner-service.ts:755-823 | an answered batch clears exactly when all its entries settled or the first that did not was rejected for good |
| `SpoolVerdicts.ClearedEntriesAre` | apps/runner/src/runner-service.ts:755-823 | in a batch that clears each entry was taken, was rejected for good, or stands behind the first rejected one |
| `SpoolVerdicts.OnlySinglesClearOnVerdicts` | apps/runner/src/runner-service.ts:755-823 | whatever the server answers, clearing speaks for each entry of an event batch exactly when the batch is a single entry |
| `SpoolStatuses.ClearsByStatus` | apps/runner/src/runner-service.ts:755-823 | which statuses clear a batch, by name |
| `SpoolStatuses.EventsByStatus` | apps/runner/src/runner-service.ts:698-823 | a flush of one job's events: they all leave when each was accepted or a duplicate, or up to one refused for good; else all stay, and which of them the attempt is charged to |
| `SpoolStatuses.EventByStatus` | apps/runner/src/runner-service.ts:698-823 | a flush of one event leaves it or spends an attempt on it, by its status |
| `SpoolStatuses.OneStatus` | apps/runner/src/runner-service.ts:103-108 | accepted and duplicate are taken; stale_lease, terminal_event, event_hash_mismatch and run_not_found are refused for good; nothing else is either |
| `SpoolStatuses.CompletionByReply` | apps/runner/src/runner-service.ts:786-800 | a completion leaves exactly when it is answered or its lease is stale |
| `SpoolStatuses.FullyTakenFlush` | apps/runner/src/runner-service.ts:714-735 | a flush the server answers in full leaves none of what it sent, whatever jobs and kinds it is of |
| `SpoolStatuses.PeekIs` | packages/runner-sdk/src/spool.ts:414-416 | a flush takes the oldest live entries, a hundred or all of them |
| `SpoolDrain.AckedBehindARejectedOne` | apps/runner/src/runner-service.ts:755-823 | a refused but retryable entry behind a rejected one is acknowledged |
| `SpoolDrain.CompletionPassesARetryableEvent` | apps/runner/src/runner-service.ts:714-735 | one flush sends a completion over an event the server asked for again, and acknowledges both |
| `SpoolDrain.FlushRemovesExactly` | apps/runner/src/runner-service.ts:714-735 | a flush removes an entry exactly when it took it, every batch cleared and the spool acknowledged |
| `SpoolDrain.DeadLettersExactlyWhen` | apps/runner/src/runner-service.ts:698-768 | a flush gives up exactly when a delivery fails on its last attempt, counted over flushes only for the head batch |
| `SpoolDrain.NeverDrains` | apps/runner/src/runner-service.ts:698-735 | with two attempts or more, any number of flushes whose head clears and a later batch does not leaves the queue as it was |
| `SpoolDrain.OneSilentJobHoldsTheSpool` | apps/runner/src/runner-service.ts:698-735 | two jobs, one of them never answered: the other's settled event is sent again by every flush and never leaves |
| `SpoolDrain.UnreachableDrains` | apps/runner/src/runner-service.ts:698-749 | if every delivery throws, N entries are dead-lettered, none lost, within N times the attempts allowed |
| `SpoolDrain.HeadIsTriedInFull` | apps/runner/src/runner-service.ts:698-749 | the head batch is sent its full budget of times before it is dead-lettered |
| `RealtimeBus.CursorsRoundTrip` | packages/realtime/src/bus.ts:63-67 | a text is a cursor exactly when it is how the bus prints that number, up to the largest safe integer |
| `RealtimeBus.HistoryIsTheLongestSuffix` | packages/realtime/src/bus.ts:100-200 | after any run the history is the longest end of all that was published that meets both bounds, numbered without a hole |
| `RealtimeBus.SizeFollowsEnvelope` | packages/realtime/src/bus.ts:216-235 | an envelope's size grows by one with each character of each text in it and of its data |
| `RealtimeBus.GapExactlyWhen` | packages/realtime/src/bus.ts:127-132 | the gap flag is set exactly when some cursor after the requested one is no longer retained |
| `RealtimeBus.ReplayIsComplete` | packages/realtime/src/bus.ts:127-132 | without a gap the replay is every event ever published after the cursor |
| `RealtimeBus.ReplayThenLiveIsTheLog` | packages/realtime/src/bus.ts:118-160 | replay then live delivery is exactly the log after the cursor, in order, once each, until closed |
| `RealtimeBus.GapLosesOnlyThePast` | packages/realtime/src/bus.ts:118-160 | with a gap the replay is empty and live delivery is whole from there on |
| `RealtimeBus.RunLogsWhatItPublishes` | packages/realtime/src/bus.ts:100-116 | a run logs each input it publishes, in order, under the next cursor, and nothing else |
| `RealtimeBus.RunTapsAre` | packages/realtime/src/bus.ts:138-158 | a listener is on the bus once something attached it, and removed exactly when something detaches it |
| `RealtimeBus.DetachedAt` | packages/realtime/src/bus.ts:138-158 | a removed listener heard what was published until then |
| `InMemoryRealtimeBus.InMemoryRealtimeBus.Open` | packages/realtime/src/bus.ts:77-98 | a limit below one or a negative first cursor is an error |
| `InMemoryRealtimeBus.InMemoryRealtimeBus.Publish` | packages/realtime/src/bus.ts:100-116 | the bus after a publish: next cursor, evicted history, byte count, and what every listener has been called with |
| `InMemoryRealtimeBus.InMemoryRealtimeBus.Notify` | packages/realtime/src/bus.ts:114-147 | the loop calls every live listener once, which passes on what is past the cursor it asked for |
| `InMemoryRealtimeBus.InMemoryRealtimeBus.HeardIsSent` | packages/realtime/src/bus.ts:118-160 | every listener ever added was called with exactly what the replay results say it was sent |
| `InMemoryRealtimeBus.InMemoryRealtimeBus.Evict` | packages/realtime/src/bus.ts:190-200 | the loop drops oldest events until both bounds hold and keeps the byte count true |
| `InMemoryRealtimeBus.InMemoryRealtimeBus.Subscribe` | packages/realtime/src/bus.ts:118-145 | an invalid cursor is an error; else gap, replay and next cursor of the current state |
| `InMemoryRealtimeBus.RealtimeSubscription.Close` | packages/realtime/src/bus.ts:155-158 | closing removes this subscription's listeners and no other's |
| `Glob.GlobToRegExp` | apps/runner/src/generic-spawn.ts:445-458 | the loop emits the tokens of the glob in order, between anchors |
| `Glob.DoubleStar` | apps/runner/src/generic-spawn.ts:461-465 | what a double star emits and how far it skips |
| `Glob.GlobCharacter` | apps/runner/src/generic-spawn.ts:468-472 | what one character emits |
| `GlobMeaning.CompiledIsRead` | apps/runner/src/generic-spawn.ts:445-473 | the pattern grammar reads the emitted text as the intended tree: escapes and groups are right |
| `GlobMeaning.CompiledMatchesExactly` | apps/runner/src/generic-spawn.ts:445-473 | for every glob and name the pattern matches exactly when the name falls into pieces the tokens admit, `**` within a line |
| `GlobMeaning.CompilationPreservesMeaning` | apps/runner/src/generic-spawn.ts:434-473 | for names without line terminators the pattern matches exactly what the glob means |
| `GlobMeaning.MeaningIsPreservedExactlyWhen` | apps/runner/src/generic-spawn.ts:434-473 | every glob keeps its meaning on a name exactly when the name has no line terminator |
| `GlobMeaning.DeepStopsAtLineTerminators` | apps/runner/src/generic-spawn.ts:461-465 | on every name with a line terminator `**` means any path and its pattern matches nothing |
| `UnifiedDiff.ParseUnifiedDiff` | packages/reporting/src/diff-coverage.ts:122-135 | the loop reads row after row, hunk rows by counting |
| `UnifiedDiff.ConsumeHunkRow` | packages/reporting/src/diff-coverage.ts:150-177 | what a hunk row does to the cursor and the added lines, and which rows are none |
| `UnifiedDiff.ReadOutsideHunk` | packages/reporting/src/diff-coverage.ts:180-195 | what a row outside a hunk does to the cursor |
| `DiffInversion.ParserInvertsPrinter` | packages/reporting/src/diff-coverage.ts:107-195 | parsing any printed files, with a git row or as plain `-u` output or mixed, gives exactly the new-file numbers of the added lines per path, whatever the rows contain |
| `DiffInversion.HunkIsRead` | packages/reporting/src/diff-coverage.ts:75-96 | a printed hunk header, with any heading, reads back as its counts and start |
| `DiffHeaders.HunkIsReadExactlyWhen` | packages/reporting/src/diff-coverage.ts:75-96 | a row is a hunk header exactly when it shows two ranges between the signs, and reads as those |
| `DiffInversion.CleanPathIsItsOwnKey` | packages/reporting/src/diff-coverage.ts:55-105 | a prefixed header of a path that needs no quoting names that path |
| `DiffHeaders.HeaderNamesPath` | packages/reporting/src/diff-coverage.ts:55-105 | however a path is spelled (blanks, quotes, any run of slashes and backslashes, leading dots, a git prefix) the header names it by the names that count |
| `DiffHeaders.SlashesCollapse` | packages/reporting/src/diff-coverage.ts:55-66 | any text is read as it is with each run of slashes made one |
| `DiffHeaders.QuotesGo` | packages/reporting/src/diff-coverage.ts:98-105 | quotes around a path go, whatever stands between them |
| `DiffHeaders.NullDeviceNamesNone` | packages/reporting/src/diff-coverage.ts:98-105 | the null device, quoted or not, names no file |
| `Decimal.ValueOfPrint` | packages/reporting/src/diff-coverage.ts:75-81 | a printed count reads back as itself |
| `AgentSpans.OwningInvocation` | packages/reporting/src/agent-runtime.ts:177-189 | the walk with its seen set is the specified walk, and ends whatever the parent links |
| `AgentSpans.OwnerIsNearest` | packages/reporting/src/agent-runtime.ts:176-189 | for a span its trace's index holds, the walk finds the nearest invocation at or above it, and none exactly when there is none, cycles included |
| `AgentAssembly.GroupByTrace` | packages/reporting/src/agent-runtime.ts:166-174 | each trace's spans in the order of the sort, traces in order of first occurrence; the order is `AgentOrder.TimedIsInStartOrder` |
| `AgentOrder.TimedIsInStartOrder` | packages/reporting/src/agent-runtime.ts:153-164 | the sort is by start and then by span id in character order, keeps every span, and leaves what is level in the order it came |
| `AgentOrder.AssemblyInStartOrder` | packages/reporting/src/agent-runtime.ts:157-239 | every trace's list, every run and the loose spans of each trace are in start order |
| `AgentOrder.TraceIgnoresInputOrder` | packages/reporting/src/agent-runtime.ts:157-174 | where ids name spans, a trace's list does not depend on the order the spans came in |
| `AgentOrder.RunsIgnoreInputOrder` | packages/reporting/src/agent-runtime.ts:166-239 | nor do the runs |
| `AgentOrder.FirstAgentIs` | packages/reporting/src/agent-runtime.ts:192-206 | the agent of a trace without invocations is the first one named in start order, and unattributed when none is |
| `AgentOrder.TraceAssemblyIs` | packages/reporting/src/agent-runtime.ts:191-239 | the fields of every run of a trace, and when there is one for the whole trace |
| `AgentAssembly.Assemble` | packages/reporting/src/agent-runtime.ts:209-239 | one run per invocation, one for a trace without any, the rest loose |
| `AgentAssembly.InvocationOwnsItself` | packages/reporting/src/agent-runtime.ts:225-235 | every invocation has a run, with itself in it |
| `AgentUsage.SpansAreHeld` | packages/reporting/src/agent-runtime.ts:209-239 | a span stands in runs and loose spans as often as it came in, times the invocations of its trace with its owner's id |
| `AgentUsage.AssemblyPartitionsExactlyWhen` | packages/reporting/src/agent-runtime.ts:209-239 | runs and loose spans are the spans that came in, each exactly once, precisely when no trace has two invocations of one id |
| `AgentUsage.UsageOf` | packages/reporting/src/agent-runtime.ts:390-404 | the counters are the sums over the billable spans |
| `AgentPrices.CostIs` | packages/reporting/src/agent-runtime.ts:79-124 | tokens at the rates of the response model's price, else the request model's, own provider before any; no cost exactly when no price is listed |
| `AgentPrices.OnePriceCharged` | packages/reporting/src/agent-runtime.ts:85-124 | and there is never a choice of prices |
| `AgentPrices.UsageOfOneIs` | packages/reporting/src/agent-runtime.ts:386-404 | what one span adds to the counters, and which spans add nothing |
| `AgentUsage.TotalIgnoresOrder` | packages/reporting/src/agent-runtime.ts:390-404 | usage does not depend on the order of the spans |
| `AgentUsage.RowKeysCover` | packages/reporting/src/agent-runtime.ts:526-590 | the rows are the agents of both windows and what no agent owns, once each, in increasing order |
| `AgentUsage.RowsDivide` | packages/reporting/src/agent-runtime.ts:476-541 | every span the assembly holds is counted by exactly one of the agent rows there are |
| `AgentUsage.AgentRowsAddUp` | packages/reporting/src/agent-runtime.ts:456-590 | tokens, priced and unpriced spans and cost of the agent rows add up to the overall row, for this window and the last; and to the input unless two invocations share an id |
| `AgentOrder.AnalysedInOrder` | packages/reporting/src/agent-runtime.ts:456-467 | the overall row's spans are all there are, by trace and in start order |
| `AgentLoops.LoopsIn` | packages/reporting/src/agent-runtime.ts:259-294 | the streak automaton reports what run-length grouping gives |
| `AgentLoops.DetectLoops` | packages/reporting/src/agent-runtime.ts:296-308 | the loops of every run in turn, at a threshold of at least two |
| `AgentLoops.LoopsAreTheMaximalGroups` | packages/reporting/src/agent-runtime.ts:252-294 | the loops are exactly the maximal groups of enough equal known calls, in order, disjoint |
| `AgentOrder.LoopsIgnoreInputOrder` | packages/reporting/src/agent-runtime.ts:296-308 | where ids name spans, the loops found do not depend on the order the spans came in |
| `AgentOrder.LoopIs` | packages/reporting/src/agent-runtime.ts:259-275 | a loop names its run and the call it repeats |
| `AgentOrder.LoopThresholdIs` | packages/reporting/src/agent-runtime.ts:291-294 | the threshold rounded down, at least two, three by default |
| `LineFraming.ReadLines` | packages/automation/src/lines.ts:27-52 | however the text is chunked the lines are those of the whole text, an unended last one included |
| `LineFraming.ChunkingDoesNotMatter` | packages/automation/src/lines.ts:27-52 | two ways of cutting one text give the same lines, those of its decomposition |
| `LineFraming.DecompositionIsUnique` | packages/automation/src/lines.ts:35-44 | the lines are the one way to write the text as rows with their ends and a rest |
| `LineFraming.EveryTextDecomposes` | packages/automation/src/lines.ts:35-44 | and every text can be written so |
| `LineFraming.YieldedLinesStay` | packages/automation/src/lines.ts:33-46 | a line once yielded begins what the whole text yields |
| `EventPump.EventPump.FlushEvents` | apps/runner/src/execution.ts:573-584 | one flush delivers the new complete lines in order up to the first failure |
| `EventPump.EventPump.QueueFlush` | apps/runner/src/execution.ts:585-589 | a failure is recorded and the pump goes on from where the file is |
| `EventPump.EventPump.Finish` | apps/runner/src/execution.ts:592-602 | two more flushes, and whether anything ever failed |
| `EventPump.PumpDeliversLines` | apps/runner/src/execution.ts:565-602 | for every growing file text, no error means each complete non-empty line was delivered once, in order; an error means not all were |
| `EventPump.PumpDeliversFirstRead` | apps/runner/src/execution.ts:565-602 | for texts that only lengthen, the same of the characters as they were when first read |
| `EventPump.FirstReadIsNewestExactlyWhen` | apps/runner/src/execution.ts:573-584 | that is the newest text exactly when every character was final when it was first read |
| `EventPump.CutCharacterIsLost` | apps/runner/src/execution.ts:573-584 | a read that cuts the last character of a line gets the line delivered with the cut one in it |

## Left out

- Report schedules and delivery syncs of both stores: the same compare-and-advance, more weakly.
- `listDueSchedules` and its sort and limit: a poll is given the due schedules; a schedule's policy and cron expression do not change during a run.
- LeaseCapacity.CapacityHolds: requires a positive starvation period, as every configuration of the worker has; the store itself would divide by zero.
- Deep copies of jobs handed out by the in-memory store: jobs are values, so sharing cannot arise.
- Job payloads (specification, timeout, artefacts, heartbeat and updated-at columns), which no decision reads.
- SQL, isolation levels and row locks: a transaction is atomic, apart from the held rows a claim skips. The check the API makes before its cancelling transaction is part of that step. Two claims by different runners may check a workspace's or a project's quota at once, so nothing is proved of the Postgres quotas.
- The API's own claim, completion, reaping and heartbeat of the same rows (drizzle-execution-store.ts:1035-1163, 1456-1663 and 1912-1960) are no steps of `PostgresRuns`; the heartbeat renews every lease its runner holds, one that has run out included. A retry inserts a new run, which is a step.
- PostgresOrder.SlotsHold: runner rows do not change during a run; registering a runner again with fewer slots is what `LeaseCapacity.LoweredSlotsOvercommit` says of the in-memory store.
- PostgresStore.ApplyEvents: given the accepted events' phases; the event rows, their hash and sequence checks and the test rows are not modelled, nor the refusal of an event after a terminal one.
- LeaseMachine.Recover: a machine step, so that a reap is several; the Postgres reap commits them together.
- Scheduler.CatchUpMissed: the tickets of a catch-up that throws are returned by the model and lost by the source, which throws them away with the exception.
- Scheduler.RunOnceMissed: says nothing about which of two pollers wins; `SchedulePolling` does.
- Backoff delays, jitter and the timer around a flush; the one-flush-at-a-time guard, which makes flushes atomic against each other but not against jobs handing entries over.
- SpoolDelivery.Deliver: the sequence number, lease and payload of an entry are not modelled, so nothing is said about a batch carrying one lease.
- Spool.MemorySpool.DeadLetter: the attempts and reason kept with a dead entry are not modelled.
- The durable spool's file format, encryption, compaction and torn tails.
- RealtimeBus.ParseCursor: cursors past the largest safe integer, where the source's counter would stop counting, are not modelled.
- InMemoryRealtimeBus.InMemoryRealtimeBus.Publish: a listener that throws or calls back into the bus is not modelled.
- Regex.Parse: counted quantifiers, look-around, back references, class ranges and escapes are rejected; no emitted pattern has them. Characters are code points.
- UnifiedDiff.HeaderPath: without the optional source root, which the parser never passes. Counts and line numbers beyond exact doubles are not modelled.
- DiffPrinting.Printed: git's quoting of unusual paths is not printed; a header is any text, and the key is what `HeaderPath` reads from it.
- AgentAssembly.Assemble: latency, failure and percentile columns and the per-model rows are not modelled, nor is the window that selects traces.
- AgentAssembly.Before: characters are compared by code point, where the source compares UTF-16 code units; they differ only past the basic plane.
- AgentUsage.CostOf: prices that are not finite are not modelled; sums are exact where the source's are floating point.
- AgentLoops.LoopThreshold: a threshold that is not finite is not modelled.
- LineFraming.ReadLines: bytes are already decoded to text; a consumer that stops early and the release of the reader are not modelled.
- EventPump.EventPump.FlushEvents: a file that shrinks, and the watcher that decides when to flush, are not modelled. Texts are decoded; which text bytes cut inside a character decode to is not modelled.
- The log cap of the runner and the gateway's fragment merging, whose stated bounds are not what the code does.
- HTTP, processes, file system, configuration, the web application and the finite state tables of the orchestration package.
