# CloudSentinel in Dafny

A model of CloudSentinel's probe execution protocol, its scheduling and retry arithmetic, its incident state
machine, its GitOps image rewriter and the life cycle of hosts, services and tasks, with proofs over every input,
every run and every reachable state. `dafny verify dfyconfig.toml` checks all of it.

## What is modelled

**The execution protocol.** `Protocol.dfy` is one state machine over the MySQL rows, the Redis Stream with its
consumer group, and any number of worker processes. One SQL statement or transaction, one Redis command or one
local action is one step. A crash, a panic, a failed statement and a cancelled context all drop in-memory work at
any point; a `MarkFinal` that commits but reports an error is `MarkFinal` followed by `Abandon`.
`Invariants.dfy` holds the inductive invariant, `Outcomes.dfy` the delivery guarantees, `Lease.dfy` and
`LeaseBound.dfy` when the lease excludes a second worker, `Recovery.dfy` that every unfinished execution can be
finished, and `Progress.dfy` the backlog that pays for recovery. `ProbeRepository.dfy` and `Processor.dfy` are the
methods as they run, proved against the functions the machine uses; `Processor.dfy` also shows that an undisturbed
call, a whole job and the cycles of both publishers are runs of the machine. `Pool.dfy` opens up one worker process:
reader, claimer, workers and the bounded channel between them, beside whatever other processes do to the consumer
group. `PoolRefinement.dfy` relates it to the machine: each of its steps is matched by a list of the machine's steps,
and each step of the machine elsewhere is one it allows for, so every interleaving of a process with the rest of the
system is a run of the machine. `StaleReadings.dfy` is the run in which the backlog grows late, and `Publishing.dfy`
puts the machine's messages on the wire.

**Scheduling and retry.** `Ranking.dfy` is ordered, limited selection; `Scheduling.dfy` runs any number of
schedulers with arbitrary clocks beside life-cycle calls, `ProtocolSchedule.dfy` carries its results over to the
runs of the protocol, and `Retry.dfy` is the retry loop in int64 nanoseconds.

**Messages and time.** `Rfc3339.dfy` has decimal numerals, the Gregorian calendar and the timestamp format of
section 5.6 of RFC 3339 with its fraction; `StreamCodec.dfy` writes and reads the stream entry.

**Incidents.** `Identity.dfy` is `normalize` and the identity of an alert; `Incident.dfy` the webhook loop, the user
actions and their SQL; `IncidentRuns.dfy` what holds over runs that mix both.

**Image files.** `Text.dfy` and `Lines.dfy` are strings as Go and JavaScript treat them; `ImageRewriter.dfy` is the
reader and the writer as functions, and `LineForms.dfy` what they make of a single line; `Promotion.dfy`, `PromotionExact.dfy`, `RepeatedBlocks.dfy`, `Copying.dfy` and
`RewriteTwice.dfy` say when the two undo each other; `GitopsImages.dfy` has the scripts' own loops over arguments,
lines and files.

**Assets and tasks.** `Lifecycle.dfy` is the three-level chain and the service methods that keep it.

## Premises

- The stream is durable, and one SQL statement or transaction is one atomic step.
- All processes share one monotone clock in whole milliseconds. A clock reading and the statement that uses it are
  separate steps.
- "Rows affected" means rows matched. The data source name in `internal/platform/database/database.go` does not ask
  the driver for this, so a statement that rewrites a row within the millisecond of its last update, with the same
  values, would be taken for one that found no row; GORM's `updated_at` stamp makes it hold otherwise.
- A probe attempt returns within its timeout. With a cancelled context `MarkFinal` and `XAck` do nothing.
- An execution id is the 32 hexadecimal digits of any 16 bytes; a clash rolls the transaction back.
- SHA-256 is a function that does not collide on the texts compared. Lower-casing maps character to character, and
  neither makes nor removes white space.
- Acquiring and finalising an execution take no longer than `overhead` beyond the retry budget of its task, where a
  theorem speaks of a timed run. All other theorems hold without this.
- A call of a host, service or task method is one atomic step. The source does not put its check and its write into
  one transaction, so the chain is not claimed for interleaved calls.

## Where the code does less than one might read into it

- A block whose `digest` line comes before its `newName` line, or whose lines are more than three lines away, is
  rewritten without error but does not read back as written: `PromotionExact.PreservesIffReady` gives the exact
  condition, `RepeatedBlocks.PreservesIff` the one for files in which a component has several blocks, and
  `PromotionExact.SwappedFileIsNotReady` a file that fails it.
- `occurrence_count` depends on the order of deliveries, unlike the set of incidents and their statuses:
  `IncidentRuns.OrderChangesCount` has two orders that disagree, `IncidentRuns.OccurrencesAgreeIff` says when they do.
- A stream entry without an `execution_id` passes the check for an empty one, and is refused only for its task or
  its time: `StreamCodec.MissingIdIff`.
- The backlog that recovery has to work off can still grow after the clock has passed its time, because a creation or
  a scheduling can commit with an older clock reading: `StaleReadings.BacklogCanGrow` is such a commit, and
  `Progress.GrowsIff` says exactly when one does.
- A worker count of zero is accepted, and then `Run` can return with jobs in its buffer:
  `Pool.BufferIsDrainedIff`. They are still pending in the group.
- The lease is exact: two workers can probe one execution if and only if 1,290,000 ms and the overhead exceed the
  message idle timeout (`LeaseBound.LeaseExcludesIff`). The default of 30 minutes leaves 8 min 30 s for overhead:
  `LeaseBound.DefaultsAreSafe`.
- Alerts of different sources can share a fingerprint. An accepted alert shares its own with another source that the
  service accepts exactly when its name or its probe type can be divided at what stands between the two in the
  canonical text, line breaks and all, with numbers from 1 to 2^64-1 and no white space at the cuts
  (`Identity.AcceptedSharesTextIff`); `Identity.CanonicalIff` says which pairs, and `Identity.AcceptedAlertsCollide`
  has two such alerts.

## Model

| member | source | states |
|---|---|---|
| `Lifecycle.ApplyKeepsChain` | internal/asset/service.go:64-141 | every accepted call keeps: an active task's service is active, an active service's host is active, and the references exist |
| `Lifecycle.ApplySucceeds` | internal/asset/repository.go:145-156 | disabled is absorbing for hosts, services and tasks, no call re-times a task or touches an execution |
| `Lifecycle.ApplyKeepsNames` | migrations/000003_create_assets.up.sql:12-31 | every accepted call keeps names apart: hosts everywhere, services on their host, tasks on their service |
| `Lifecycle.AssetService.CreateHost` | internal/asset/service.go:26-37 | each error exactly when the host's input does not fit or its name is taken; otherwise one new active row that holds the trimmed input, and nothing else |
| `Lifecycle.AssetService.UpdateHost` | internal/asset/service.go:49-63 | each error exactly when it is due; otherwise the row holds the trimmed input and keeps its status |
| `Lifecycle.AssetService.DisableHost` | internal/asset/service.go:64-76 | refused exactly while the host has an active service; afterwards it is disabled, keeps its name and address, and has none |
| `Lifecycle.DisableHostGuard` | internal/asset/service.go:68-74 | the guard refuses exactly when disabling would break the chain |
| `Lifecycle.AssetService.CreateMonitoredService` | internal/asset/service.go:78-96 | each error exactly when it is due, among them a disabled host and a type other than http and tcp; otherwise one new active row that holds the input |
| `Lifecycle.AssetService.UpdateMonitoredService` | internal/asset/service.go:107-128 | each error exactly when it is due; the service may move to another host, which must be active, and keeps its status |
| `Lifecycle.AssetService.DisableMonitoredService` | internal/asset/service.go:129-141 | refused exactly while the service has an active task; afterwards it is disabled, otherwise as it was, and has none |
| `Lifecycle.DisableServiceGuard` | internal/asset/service.go:133-139 | the guard refuses exactly when disabling would break the chain |
| `Lifecycle.TaskService.Create` | internal/probe/task_service.go:23-40 | each error exactly when it is due: a service that is missing or disabled, numbers out of bounds, a name that is taken; otherwise one new active row, due at once and never scheduled |
| `Lifecycle.TaskService.Update` | internal/probe/task_service.go:51-71 | each error exactly when it is due; only active tasks under an active service change, and never the next run time |
| `Lifecycle.TaskService.Disable` | internal/probe/task_service.go:72-77 | succeeds exactly if the task exists, and changes its status alone |
| `Ranking.SelectTop` | internal/probe/repository.go:128 | the first rows in the order of the key, none of the rest before any of them |
| `Ranking.TopStartingWith` | internal/probe/repository.go:154 | any least row can head the answer, which ties leave open |
| `ProbeRepository.IdsClashIff` | internal/probe/repository.go:183-189 | two drawn ids are equal exactly when the same 16 bytes were drawn |
| `ProbeRepository.Repository.ScheduleRow` | internal/probe/repository.go:137-146 | the new row names the task, the task's service, that service's type and target and the old next run time, is queued and untouched; the task moves on from now and keeps its configuration |
| `ProbeRepository.Repository.ScheduleRows` | internal/probe/repository.go:132-148 | all rows of the batch or none, one message each in order; a rollback means a failed statement or an unusable id for the next row |
| `ProbeRepository.Repository.ScheduleDue` | internal/probe/repository.go:124-151 | exactly the earliest due, active, unlocked tasks up to the batch; each gets one queued snapshot of its service and one message and moves on, and every other row stays; or nothing changed |
| `ProbeRepository.CommittedIff` | internal/probe/repository.go:132-148 | the row-by-row account of the transaction holds of exactly the tables and messages the loop computes |
| `ProbeRepository.Repository.QueuedBefore` | internal/probe/repository.go:152-162 | exactly the oldest queued executions from before the bound, up to the limit, each with its task and time |
| `ProbeRepository.Repository.GetWork` | internal/probe/repository.go:106-116 | the execution with its task, or not found |
| `ProbeRepository.Repository.Acquire` | internal/probe/repository.go:163-166 | succeeds exactly on a queued or stale running row, which is then running, owned, started and stamped, and otherwise as it was, like all other rows |
| `ProbeRepository.Repository.MarkFinal` | internal/probe/repository.go:167-181 | succeeds exactly on a running row of this consumer, which is then succeeded if the result is a success and failed if not, with its times, attempts, duration and result, the message cut; otherwise a conflict and no change |
| `Processor.Processor.Process` | internal/probe/processor.go:32-63 | final rows are left alone, busy rows refused; others are taken over and end as succeeded or failed as the retried probe reported, with its attempts |
| `Processor.SchedulerCycle` | internal/probe/scheduler.go:33-44 | nothing is published unless committed; then exactly the messages whose publish succeeds are appended, in order |
| `Processor.RecoveryTick` | internal/probe/scheduler.go:65-74 | exactly the oldest queued rows older than two intervals are announced again, as far as their publish succeeds |
| `Processor.HandleJob` | internal/probe/consumer.go:133-142 | acknowledged exactly when Process returned no error and the XACK succeeded, and then the row is final |
| `Processor.ProcessIsARun` | internal/probe/processor.go:32-63 | an undisturbed call, with clock readings and stamps in any order the source can take them, is a run of its worker in the protocol |
| `Processor.JobIsARun` | internal/probe/consumer.go:133-142 | so is the whole job, acknowledged exactly when the call returned no error and the XACK succeeded |
| `Processor.SchedulerCycleIsARun` | internal/probe/scheduler.go:33-44 | a committed cycle with a reading of any age is a run that leaves the rows and the messages whose publish succeeded |
| `Processor.RecoveryTickIsARun` | internal/probe/scheduler.go:65-74 | so is a tick of the recovery dispatcher |
| `Publishing.PublishedAreDecodable` | internal/probe/consumer.go:147-158 | no message that the protocol publishes is ever dropped as undecodable or read as another, up to 64-bit task ids and year 9999 |
| `Invariants.StepMovesRows` | internal/probe/repository.go:163-181 | in any step a row keeps its identity, its status never goes back, and a final row never changes |
| `Invariants.InvKept` | internal/probe/consumer.go:122-145 | every step, crashes and redelivery included, keeps the invariant that ties rows, stream, pending list and workers |
| `Invariants.InvAlways` | internal/probe/processor.go:32-63 | hence every run does |
| `Outcomes.NothingStranded` | internal/probe/consumer.go:122-145 | in every reachable state an unfinished execution is queued, where the scan finds it, or running with an unacknowledged message of its own pending |
| `Outcomes.AckImpliesFinal` | internal/probe/consumer.go:133-142 | every acknowledged message's execution is final |
| `Outcomes.StatusOnlyMovesForward` | internal/probe/repository.go:163-181 | from any reachable state on, queued, running, final in this order, and frozen once final |
| `Outcomes.RowsTellTheirOutcome` | internal/probe/repository.go:163-181 | in every reachable state a row has an owner and a start unless queued, and is succeeded or failed exactly as its stored result is a success or a failure |
| `Outcomes.UnsupportedTypeUnreachable` | internal/probe/processor.go:48-51 | no worker ever meets a probe type it has no implementation for |
| `Outcomes.HistoryAlways` | internal/probe/repository.go:163-181 | the history of conditional updates agrees with every row in every run |
| `Outcomes.FinalisedAtMostOnce` | internal/probe/repository.go:167-181 | one MarkFinal at most takes effect, by the consumer of the latest successful Acquire, and nothing acquires afterwards |
| `Lease.LeaseExcludes` | internal/probe/processor.go:40-57 | if the worst accepted retry budget and the overhead fit into the idle timeout, at most one worker is inside the probing window of an execution, though goroutines share a consumer name |
| `Lease.NoResultLost` | internal/probe/repository.go:173-179 | and every MarkFinal attempted within the lease takes effect |
| `LeaseBound.LeaseExcludesIff` | internal/probe/repository.go:163-166 | the lease excludes in all runs that keep to the budget of the policy each worker read if and only if 1,290,000 ms and the overhead fit into the idle timeout |
| `LeaseBound.DefaultsAreSafe` | internal/platform/config/config.go:220-222 | the default idle timeout leaves 8 min 30 s for overhead |
| `Recovery.ByClaim` | internal/probe/consumer.go:90-120 | a delivered, unfinished execution is finished by waiting out the idle timeout and claiming |
| `Recovery.ByScan` | internal/probe/scheduler.go:57-77 | a queued one is finished by publishing again, oldest first, however many are ahead |
| `Recovery.Recoverable` | internal/probe/processor.go:37-63 | after every timed run a timed continuation without crash, error, failed publish or dropped job makes any chosen execution final and acknowledges it |
| `Recovery.RecoverableFromAnywhere` | internal/probe/processor.go:37-63 | from every reachable state, timed or not, some continuation without mishaps does so |
| `Progress.StepBalances` | internal/probe/repository.go:124-166 | the exact balance of every step: what creations and schedulings add to the work of a past time, what starts and disablings take |
| `Progress.GrowsIff` | internal/probe/task_service.go:34-35 | the backlog grows exactly by a creation, or a row moved on, with a time that is not past |
| `StaleReadings.BacklogCanGrow` | internal/probe/scheduler.go:33-44 | a cycle that commits with a reading of the past adds to the backlog of a past time |
| `Progress.RunBalances` | internal/probe/scheduler.go:33-44 | over any run, stale readings included, the backlog changes by exactly that |
| `Progress.StepShrinksBacklog` | internal/probe/repository.go:124-166 | with readings that are past, no step adds and each start takes one away |
| `Progress.BacklogPaysForStarts` | internal/probe/scheduler.go:65-74 | so once every reading still in use is past, the starts and the remaining backlog stay within the original backlog |
| `Scheduling.RunMoves` | internal/asset/service.go:64-141 | every sequence of life-cycle calls and scheduling cycles keeps the chain and the rows |
| `Scheduling.SchedulesAreSpaced` | internal/probe/repository.go:128-146 | with any schedulers and clocks, consecutive executions of a task are an interval apart, so a window of W milliseconds holds at most W/10000 + 1 |
| `Scheduling.FiringsAreRows` | internal/probe/repository.go:137-146 | the new rows of a task are exactly its schedulings, one each |
| `Scheduling.LastBeforeNext` | internal/probe/repository.go:142-145 | last_scheduled_at lies before next_run_at after every run |
| `Scheduling.NoStarvation` | internal/probe/repository.go:124-151 | a due task with k tasks ahead is scheduled within k/batch + 1 cycles unless disabled |
| `Scheduling.CycleServesAhead` | internal/probe/repository.go:128-146 | a cycle that passes over a due task takes a full batch from those ahead of it |
| `Scheduling.DisabledStays` | internal/probe/repository.go:128 | a disabled task keeps its row and never gains another execution |
| `ProtocolSchedule.ProtocolRunIsSchedulingRun` | internal/probe/repository.go:124-181 | the transactions of every protocol run are a run of schedulers, life-cycle calls and execution updates, with the same tables at the end |
| `ProtocolSchedule.ProtocolSchedulesAreSpaced` | internal/probe/repository.go:128-146 | so in every protocol run, crashes and redelivery included, the executions of a task are scheduled an interval apart |
| `ProtocolSchedule.ProtocolNoStarvation` | internal/probe/repository.go:124-151 | and a due task is scheduled within k/batch + 1 scheduling steps unless disabled, whatever workers do meanwhile |
| `ProtocolSchedule.ProtocolDisabledStays` | internal/probe/repository.go:128 | and a disabled task never gains another execution |
| `Retry.ExecuteWithRetry` | internal/probe/execution.go:25-66 | no attempt that succeeded, was cancelled or got a 4xx is followed by another, each one followed had a 5xx, a network failure or an error, and the returned attempt is the first that needs none or the last; after exactly that many calls, and the time it took |
| `Retry.ReturnsFromOne` | internal/probe/execution.go:35-45 | which leaves no choice of the attempt |
| `Retry.DelayExactIff` | internal/probe/execution.go:38 | the int64 back-off is the mathematical one exactly below 2^63 |
| `Retry.WaitsDouble` | internal/probe/execution.go:38-45 | for an accepted task the waits before attempt n come to exactly 2^n - 1 base delays |
| `Retry.RetryBudget` | internal/probe/execution.go:25-48 | elapsed time is at most (R+1) timeouts and 2^R - 1 base delays |
| `Retry.BudgetAtMost` | internal/probe/task_service.go:88-93 | no accepted policy has a budget above 1,290,000 ms, and one has exactly that |
| `Retry.AcceptedTasksFitTheLease` | internal/probe/task_service.go:88-93 | a call for an accepted task stays within its policy's budget, hence within 1,290,000 ms, without overflow and inside the 30 minute lease |
| `Pool.InvKept` | internal/probe/consumer.go:36-54 | every interleaving of reader, claimer and workers keeps order of shutdown, capacity, order of jobs and the account of every message |
| `Pool.ShutdownIsSafe` | internal/probe/consumer.go:160-167 | in every interleaving, with other processes reading, claiming and acknowledging: nothing is sent on the closed channel, the buffer stays within capacity, and every message read is acknowledged or pending |
| `Pool.BufferIsDrainedIff` | internal/probe/consumer.go:40-53 | the buffer is always empty on return if and only if there is a worker or no buffer |
| `Pool.ShutdownIsBounded` | internal/probe/consumer.go:56-120 | after cancellation the steps taken are paid for by the work left, further ticks and what replies still bring |
| `Pool.ShutdownNeverBlocks` | internal/probe/consumer.go:49-53 | until Run has returned, some step other than a tick is possible |
| `PoolRefinement.StartFits` | internal/probe/consumer.go:36-49 | a new process fits its goroutines |
| `PoolRefinement.PoolRefinesProtocol` | internal/probe/consumer.go:56-145 | each step of the goroutines is matched by an allowed list of protocol steps after which both fit again |
| `PoolRefinement.ProcessFits` | internal/probe/processor.go:32-63 | a step inside Process keeps them fitting |
| `PoolRefinement.OthersAreObserved` | internal/probe/consumer.go:99-106 | every protocol step of other processes is one the goroutines allow for, deliveries to peers included |
| `PoolRefinement.RunsMatch` | internal/probe/consumer.go:36-145 | every interleaving of goroutine steps, steps inside Process and steps elsewhere is a run of both machines that ends with them fitting |
| `PoolRefinement.PoolRunsAreProtocolRuns` | internal/probe/consumer.go:36-145 | so for a process started in any reachable state, every entry acknowledged by the end of such a run belongs to a final execution |
| `Calendar.DateOf` | internal/probe/stream.go:23 | the date of a day, valid and numbered back to that day |
| `Calendar.DateOfDayNumber` | internal/probe/consumer.go:153 | every valid date is the date of its day |
| `Calendar.NextInMonth` | internal/probe/stream.go:23 | within a month a date is followed by the next day |
| `Calendar.NextMonth` | internal/probe/stream.go:23 | the last day of a month is followed by the first of the next |
| `Calendar.NextYear` | internal/probe/stream.go:23 | and the last day of December by the first of the next year |
| `Calendar.MonthLengths` | internal/probe/stream.go:23 | with the Gregorian lengths of months, leap years included |
| `Calendar.FirstOf1970` | internal/probe/stream.go:23 | and counts its days from year 0, so that day 719528 is the first of January 1970 |
| `Rfc3339.FormatThenParse` | internal/probe/consumer.go:153 | parsing the formatted instant gives it back to the nanosecond |
| `Rfc3339.FormatExample` | internal/probe/stream.go:23 | an instant of 2026 and its text, letter by letter |
| `Rfc3339.NumeralExample` | internal/probe/consumer.go:149 | numerals are written and read in base ten |
| `Rfc3339.ParsesBackIff` | internal/probe/stream.go:23 | exactly for the years with four digits |
| `Rfc3339.FormatIsInjective` | internal/incident/service.go:99 | different instants have different texts, in any year |
| `StreamCodec.DecodeEncode` | internal/probe/consumer.go:147-158 | a message is read back unchanged if it has an id, a 64-bit task and a four-digit year, and refused otherwise |
| `StreamCodec.EncodeIsInjective` | internal/probe/stream.go:22-24 | different messages differ on the stream |
| `StreamCodec.MissingIdIff` | internal/probe/consumer.go:148-156 | an entry without an id is refused exactly when its task or its time cannot be read |
| `StreamCodec.MissingTaskOrTime` | internal/probe/consumer.go:149-156 | an entry without a task or a time is refused |
| `StreamCodec.MissingFields` | internal/probe/consumer.go:148-156 | what becomes of a published message that loses one field |
| `StreamCodec.RedisPublisher.Publish` | internal/probe/stream.go:22-24 | appends one entry of the three named fields, which decodes to the message, or nothing |
| `Identity.CanonicalIff` | internal/incident/service.go:97 | two sources share their canonical text exactly when they are equal or one overlaps the other |
| `Identity.SharesTextIff` | internal/incident/service.go:97 | among all sources, accepted or not, one shares its text with another exactly when its name or its probe type holds a middle part |
| `Identity.AcceptedIff` | internal/incident/service.go:83-97 | the sources of accepted alerts are exactly those with positive 64-bit numbers and trimmed, lower-cased, non-empty texts |
| `Identity.AcceptedSharesTextIff` | internal/incident/service.go:83-97 | an accepted source shares its text with another accepted one exactly when its name or its probe type can be divided |
| `Identity.CanonicalIsInjective` | internal/incident/service.go:97 | so the text determines name, service, task and probe type when the names, or the probe types, are single lines |
| `Identity.AcceptedAlertsCollide` | internal/incident/service.go:83-99 | two accepted alerts from different sources have one fingerprint and one event key |
| `Identity.LineBreaksCollide` | internal/incident/service.go:97 | a pair that shares its text for any numbers and any text around the line breaks |
| `Identity.SameKeyIff` | internal/incident/service.go:97-99 | two alerts share an event key if and only if their sources share their text and the start instants agree |
| `Identity.SameKeyForSingleLines` | internal/incident/service.go:97-99 | for single lines, if and only if source and start instant agree |
| `Identity.OnlyTheSourceCounts` | internal/incident/service.go:83-109 | annotations, severity, external fingerprint, end and time of receipt change neither identity nor acceptance |
| `Identity.RefusedIff` | internal/incident/service.go:83-96 | an alert is refused exactly for a service or task that is not a positive 64-bit number, in this order, or for a blank name or probe type or no start |
| `Identity.ColumnsOf` | internal/incident/service.go:97-109 | which label or annotation each stored column comes from, and of which texts fingerprint and key are the digests |
| `Incidents.Repository.UpsertFiring` | internal/incident/repository.go:19-22 | a new incident is stored as it is; a known one is counted once more and seen again, and nothing else changes |
| `Incidents.Repository.Resolve` | internal/incident/repository.go:23-34 | resolved unless closed, the first resolution time stays, an unknown incident is inserted as resolved |
| `Incidents.Repository.Transition` | internal/incident/repository.go:57-86 | the incident of that number, if its status permits it, moves on with an audit entry of the number; otherwise a conflict and no change |
| `Incidents.Service.Ingest` | internal/incident/service.go:21-51 | alerts are taken in order up to the first error, which is returned; what is stored afterwards is what was before and what the alerts taken report, and settled is what was before and what they report resolved |
| `Incidents.Service.TransitionTo` | internal/incident/service.go:64-82 | the three user actions by number: possible exactly from their statuses, stamped with time and user, with one audit entry; not found told from conflict, and an error changes nothing |
| `IncidentRuns.IncidentsOnlyMoveForward` | internal/incident/repository.go:19-86 | over every run mixing webhooks and users the rank never falls, timestamps agree with the status and are written once, identity and number never change |
| `IncidentRuns.AuditIsExact` | internal/incident/repository.go:77-82 | one audit entry for each action that took effect on the incident of a number, at most three for each |
| `IncidentRuns.GaugeBalances` | internal/platform/metrics/incident.go:20-28 | the gauge is what it was plus firing inserts minus resolutions of active incidents |
| `IncidentRuns.SettledIffReported` | internal/incident/repository.go:23-34 | whatever users do, resolved or closed exactly when ever reported resolved; a late firing reopens nothing |
| `IncidentRuns.WebhooksConverge` | internal/incident/service.go:21-51 | deliveries that report the same, in any order and number, lead to the same incidents and statuses |
| `IncidentRuns.ReplayAfterFailure` | internal/incident/service.go:21-51 | a webhook that failed part of the way and is sent again ends where one that succeeded at once does |
| `IncidentRuns.OccurrencesAre` | internal/incident/repository.go:19-22 | the count is the firing deliveries, plus one if the resolution came first |
| `IncidentRuns.OccurrencesAgreeIff` | internal/incident/repository.go:32 | two runs with equally many firings agree on it if and only if they agree on that |
| `IncidentRuns.OrderChangesCount` | internal/incident/repository.go:19-34 | firing before resolution counts one, resolution before firing counts two, and the status is the same |
| `ImageRewriter.FirstAfter` | scripts/gitops-images.mjs:15-17 | the first of three lines with the marker, and none before it |
| `Lines.SplitJoin` | scripts/gitops-images.mjs:57-58 | reading joined lines back loses at most one carriage return a line and gains one empty line |
| `Lines.StripJoin` | scripts/gitops-images.mjs:57 | removing trailing newlines removes the trailing empty lines |
| `RewrittenLines.NameLineReads` | scripts/gitops-images.mjs:46-48 | a rewritten name line reads back as the name |
| `RewrittenLines.DigestLineReads` | scripts/gitops-images.mjs:49-52 | a rewritten digest line reads back as the digest |
| `LineForms.BlockOfIff` | scripts/gitops-images.mjs:12 | a line opens the block of a component exactly if it is its name line between white space |
| `LineForms.ValidDigestIff` | scripts/gitops-images.mjs:6 | a digest is valid exactly if it is sha256: and 64 lower-case hexadecimal digits |
| `LineForms.BetweenIs` | scripts/gitops-images.mjs:20-21 | the value is what stands after the first marker, up to the next one or the end |
| `LineForms.RewrittenIs` | scripts/gitops-images.mjs:45-54 | a rewritten line keeps exactly the white space in front and has the new value; a line with both markers counts as a name |
| `Promotion.CollectHolds` | scripts/gitops-images.mjs:8-27 | the images read are exactly those the blocks hold |
| `Promotion.PromotionPreservesImages` | scripts/gitops-images.mjs:8-58 | reading a rewritten file whose blocks are in order gives the images written |
| `PromotionExact.PreservesIffReady` | scripts/gitops-images.mjs:8-58 | with one block for each component, all clean images survive if and only if the blocks are in order |
| `RepeatedBlocks.PreservesIff` | scripts/gitops-images.mjs:8-58 | for any file, all clean images survive if and only if every component has a block, every block is complete and the last one of each is in order |
| `PromotionExact.SwappedFileIsNotReady` | scripts/gitops-images.mjs:38-54 | a file with its first two lines swapped is accepted and fails it |
| `Copying.CopyFromPromotes` | scripts/gitops-images.mjs:71-89 | after copy-from the target reads as the source |
| `RewriteTwice.ActiveIff` | scripts/gitops-images.mjs:36-54 | the writer's variable is the block that is open in the text |
| `RewriteTwice.OtherLinesStay` | scripts/gitops-images.mjs:38-54 | every line outside open blocks or without a marker stays, up to newline normalisation |
| `RewriteTwice.WritingTwice` | scripts/gitops-images.mjs:29-58 | without stray carriage returns, writing twice is writing once |
| `GitopsImages.Files.ReadImages` | scripts/gitops-images.mjs:8-27 | the index loop computes the images or the first error |
| `GitopsImages.Files.RewriteLines` | scripts/gitops-images.mjs:36-54 | the scan with its two variables computes the rewritten lines and the blocks met |
| `GitopsImages.Files.WriteImages` | scripts/gitops-images.mjs:29-58 | the new file, or an error and no change; digests are checked before the file is opened |
| `GitopsImages.Files.Parse` | scripts/gitops-images.mjs:60-69 | the loop over two arguments at a time gives the map of keys and values or the first malformed one |
| `GitopsImages.WrittenArgsParse` | scripts/gitops-images.mjs:60-69 | a map written out as arguments is read back, in any order and over anything given before |
| `GitopsImages.ParseArgsFailsIff` | scripts/gitops-images.mjs:65 | arguments are refused exactly if one at an even place has no dashes or no value, and the first such is named |
| `GitopsImages.Files.Promote` | scripts/gitops-images.mjs:71-90 | the errors of the arguments in order, and no change with one; with a registry the file reads back as the four images of that registry without its trailing slashes, cloudsentinel- and the component, and the digests given; with a file to copy from as that file, each if the blocks are in order and the names clean |
| `GitopsImages.Files.Run` | scripts/gitops-images.mjs:71-90 | the whole command: a malformed argument changes nothing, otherwise promotion with the parsed ones |
| `GitopsImages.Files.WriteDataImages` | scripts/gitops-data-images.mjs:8-40 | on success the file reads back as the two data images of the registry with their digests, if the blocks are in order and the names clean |
| `GitopsImages.Files.RunData` | scripts/gitops-data-images.mjs:42-63 | the whole command for the data components: its errors in order, and the same for the file written |
| `GitopsImages.NoSlashIs` | scripts/gitops-data-images.mjs:9 | trailing slashes of the registry do not matter |

## Left out

- HTTP handlers, authentication, configuration loading, logging, listing and pagination: plumbing.
- The HTTP and TCP probes: an attempt is an arbitrary result that respects its timeout.
- URL, host name and address parsing: opaque predicates in `Lifecycle.Rules`; so is the column collation.
- Audit entries of hosts, services and tasks, descriptions and the created_by and updated_by columns.
- Gaps in AUTO_INCREMENT ids; column lengths.
- NULL status codes and texts of a result: 0 and the empty text stand for them, which are never stored as such.
- Loss of Redis data: a running row whose message is lost is not republished by this code.
- The COUNT of a read or a claim: a reply brings any number of entries, which the machine takes one by one.
- The updated_at of a queued row is the scheduler's clock reading here; no statement reads it before Acquire sets it.
- Recovery.Recoverable: the continuation it shows starts a new worker process; that a scheduler of goroutines runs it is outside the model.
- PoolRefinement.PoolRefinesProtocol: that Process returned without error is taken to mean that its worker has been through it.
- Incidents.Repository.UpsertFiring: the count is unbounded, not 64 bits wide.
- Rfc3339.FormatThenParse: the parser reads the format's own texts and numeric offsets; Go's leniency about a one-digit hour or a comma before the fraction is not modelled.
- GitopsImages.Files.WriteImages: the error for missing blocks does not list them.
- Identity.SameKeyIff: bytes that are not UTF-8 are not modelled.
- The monitoring image script, the console, manifests and shell scripts.
