# stashd in Dafny

A model of the controller of STASH: the transfer and reservation engine that queues warms and flushes, hands them to
storage daemons, follows them through an unreliable stream of events, and keeps what each user has reserved within
limits. Two small cores beside it are modelled too: the stream splitter of the rsync engine and the reference parser.

`dafny verify dfyconfig.toml` checks everything.

## How it is laid out

- **Domain rules**: `Transfers`, `Filesets`, `Scheduling`, `Priority`, `FairShare`, `Allocation`, `References`,
  `Splitter`, `Percentiles`, with `Options`, `Numbers` and `Sums` under them. Pure code is written as functions; the
  dispatch walk and the splitter are loops proved against a function.
- **Tables**: `Tables` holds the rows, the part of the config the services read, and the sums admission is decided on.
- **Services**: `Events`, `Releases`, `Cancels`, `Reconciling`, `Submissions`, `Reservations`, `SchedulerLoop`,
  `Retention` and `Reports` say what each service call does to the tables, as a function from the tables, the call, the
  clock and the daemons' answers to the new tables and how the call ended. A raised error leaves the tables as the last
  commit left them.
- **`Controllers.Controller`** (`Controller.dfy`) is the controller itself: a class whose fields are the tables and
  whose methods run step by step, loop by loop, the way the services do. Each is proved to do exactly what its service
  function says, and `Perform` ties all of them to one step of the model.
- **Runs**: `Runs` collects the calls into `Action` and `Step`, with the invariant every step keeps. What holds of whole
  runs is in `LimitRuns`, `AttemptRuns`, `EventRuns`, `OrderRuns`, `FilesetRuns`, `ReservationRuns`, `CoverageRuns`,
  `AccountRuns`, `RefundRuns`, `RecoveryRuns`, `WarmRuns` and `ReconcileRuns`.
- **From the outside**: `PassRuns`, `ReportRuns`, `AdmissionRuns`, `SubmissionRuns`, `RowRuns` and `Outcomes` say what
  each call does in terms of its arguments and the tables alone - which transfers a pass hands over, what a report
  leaves on record, what is let in - without the functions that compute it, and what is left of that after any run.
- **Interleaving**: `Admissions` splits an admission into lock, look-up, three separate reads, decision and insert;
  `AdmissionSteps` shows that without interleaving they come to the create of the model.
- `Reporting` is the daemon's side of the event stream: its numbering.

A daemon is an answer passed in: it accepts, refuses, cannot be reached, or the request is cut short. Times are integers
(microseconds), points are reals, ids come from sequences and are never reused.

## What turned out not to hold

Each of these is kept as the code has it, with the exact condition proved.

- `docs/OPERATIONS.md:72` says pruning keeps report totals the same. It does for every table if and only if each bound
  of the window is the UTC midnight of its own date, or the window is empty (`Reports.NeverNoticedIff`): a bound is
  compared with rows as an instant and with buckets by the date it was written with (`Reports.WestOfMidnight`). Even
  then the mean wait is taken over as many more transfers as were pruned without having started
  (`Reports.MeanWaitDrifts`).
- `src/stashd/services/filesets.py:3-5` says two requests that fit alone but not together can never both be admitted.
  For the capacity of a storage that is so if and only if all users share one lock, and each user has their own
  (`Admissions.CapacityKeptIff`). The limits of a user do hold under every interleaving.
- An output fileset whose create was cut short cannot be released: nothing short of a warm into its name moves it
  (`RecoveryRuns.FreeableIff`, `RecoveryRuns.InterruptedCreateOrphans`).
- A reconcile pass stops at the first row it cannot bring up to date (`ReconcileRuns.PassEndsIff`): at one that has
  finished although its start was never reported (`ReconcileRuns.LostStartEndsThePass`), or at a release that was cut
  short before its daemon answered, until somebody cancels it (`ReconcileRuns.InterruptedReleaseStopsPasses`).
- `src/stashd/services/events.py:3-6` lets the sequence number decide where events arrive out of order. The reports of
  an attempt then leave what they leave in order, however they arrive as long as the last is taken in, if and only if
  nothing before the last ends the attempt, or a failure for good ends it first, none is retried until the last, and the
  last is a failure that is (`OrderRuns.OrderDoesNotMatterIff`). A daemon that is shut down as the work ends can report
  both ends, in either order (`OrderRuns.FailedThenFinished`, `OrderRuns.FinishedThenFailed`). Deliveries that take in
  the last need not even agree with each other where there are two failures and the first is retried
  (`EventRuns.AgreeIff`, `EventRuns.TwoFailures`).
- A warm into a fileset that is by then being filled, flushed or released raises only after its transfer has been
  queued (`WarmRuns.WarmRaisesIff`), and one into an output fileset that was created since its preflight fills it
  (`WarmRuns.FillsOutputIff`).
- A refund is neither tied to a charge nor decayed as the charge was (`RefundRuns.WarmRefundIsFairIff`); a flush that
  was cut short before it was charged is paid back all the same (`RefundRuns.FlushRefundIsFairIff`).
- `src/stashd/services/events.py:172` pays back what never ran. What is tested is whether the start was ever reported
  (`RefundRuns.CancelRefundedIff`, `RefundRuns.FailureRefundedIff`): a transfer whose start was lost is paid back
  although it runs (`RefundRuns.LostStartIsRefunded`).
- A transfer whose source measured zero bytes can never report any progress (`Events.StorableIff`).
- A resize is checked against what a fileset uses, not against what a warm still has to bring
  (`CoverageRuns.ResizeStaysCoveredIff`).
- A sweep of the accounts would go unnoticed unless a charge is stamped before it (`FairShare.SweepUnnoticedIff`).
- The patterns of storage ids and fileset names let one newline through at the end (`References.NewlineSlipsThrough`).

## Model

| member | source | states |
|---|---|---|
| `LimitRuns.LimitsNeverExceeded` | src/stashd/scheduler/loop.py:38-83 | After any run of any calls and daemon answers, the warms and flushes in flight are within the global, per-user, per-storage (either end) and per-route limits, although releases run without being counted against any. |
| `LimitRuns.ScheduleKeepsLimits` | src/stashd/domain/scheduling.py:68-109 | One pass keeps every limit, whichever daemons refuse. |
| `LimitRuns.LoadCountsTable` | src/stashd/scheduler/loop.py:118-134 | In every scope the load gathered from the table is the number of rows in flight that take a slot there. |
| `LimitRuns.OrderedRows` | src/stashd/scheduler/loop.py:93-115 | What a pass orders is exactly the submitted rows whose backoff is over, each once. |
| `LimitRuns.RecountAgrees` | src/stashd/scheduler/loop.py:118-134 | After a pass without refusals or waiting releases, recounting the table gives exactly the counters the plan ended with, key for key. |
| `LimitRuns.SecondPassStartsNothing` | src/stashd/scheduler/loop.py:38-83 | A second pass at the same clock and drain set plans and starts nothing. |
| `PassRuns.LeastOwingFirst` | src/stashd/scheduler/loop.py:57-65 | Along the queue of a pass what the users owe, decayed to the moment of the pass and nothing without an account, never falls; at equal debts the older transfer comes first, and the lower id of two as old. |
| `PassRuns.PassPlans` | src/stashd/scheduler/loop.py:57-72 | Told from the tables: a waiting transfer is planned if and only if both its ends are open and, in every scope it uses a slot of, one is left by what is at work and by the planned transfers that go before it. |
| `PassRuns.OnlyPlan` | src/stashd/scheduler/loop.py:57-72 | Only one set of transfers is such a plan. |
| `PassRuns.PassHandsOver` | src/stashd/scheduler/loop.py:74-83 | A planned warm or flush whose daemon takes it is ASSIGNED to that daemon under its task name, with the share of the bandwidth its route then leaves it; nothing else changes. |
| `PassRuns.PassReturns` | src/stashd/scheduler/loop.py:74-83 | What a pass returns is what it has handed over. |
| `PassRuns.ConfiguredLimits` | src/stashd/domain/scheduling.py:86-93 | The limits of the config, counted over the rows: after any run no more warms and flushes are with daemons in all, at either end of a storage, for a user or on a route than it says. |
| `AttemptRuns.StateChangesFall` | src/stashd/domain/transfers.py:34-66 | Whatever the step, a row whose state or attempt changes gets nearer its end: (count + 1 - attempt, 3 - rank) falls lexicographically and never below zero. |
| `AttemptRuns.AtMostOnePerAttempt` | src/stashd/services/events.py:145-166 | Over any run a transfer reaches ASSIGNED at most retries.count + 1 times. |
| `AttemptRuns.NeverBack` | src/stashd/domain/transfers.py:57-66 | Over any run attempts never fall, and within an attempt the rank never does. |
| `AttemptRuns.OvertakenReports` | src/stashd/services/events.py:82-85 | Once a transfer has got as far as a report says, the report changes nothing and raises nothing whenever it comes in during the attempt, unless it says again what the row says. |
| `Runs.RequeueNeverFires` | src/stashd/services/reconcile.py:53-58 | A row in flight without a task is a release, so where reconcile would requeue it raises instead and changes nothing. |
| `Runs.StepMovesTable` | src/stashd/domain/transfers.py:34-66 | Every call moves every transfer row by one of three legal moves, removes only terminal rows, adds only fresh ones, and never lowers a sequence number. |
| `FilesetRuns.StepPreserves` | src/stashd/domain/filesets.py:27-45 | Failing, retrying, cancelling, flushing, scheduling, pruning and a refused delete write at most one fileset and leave its reservation; only a confirmed delete frees one. |
| `FilesetRuns.StepKeepsSound` | src/stashd/models/fileset.py:43-57 | Every call keeps live names unique, rows linked and the invariants of the transfer rows. |
| `FilesetRuns.RunsAreSound` | src/stashd/models/transfer.py:45-51 | Every run, of whatever calls and answers, keeps the ids, links, live names and row invariants sound. |
| `FilesetRuns.NamesLast` | src/stashd/services/filesets.py:155-164 | Over any run a fileset keeps its id, owner, storage, name, kind and source. |
| `LimitRuns.OlderFirst` | src/stashd/domain/priority.py:23-39 | Of two waiting transfers of one user the older is offered first, and the lower id of two of the same age. |
| `LimitRuns.StartsOnlyOffered` | src/stashd/scheduler/loop.py:93-103 | What a pass changes was submitted and is past its backoff. |
| `LimitRuns.BackoffHolds` | src/stashd/services/events.py:159-166 | Until the backoff of a retry is over every pass leaves its transfer where it is. |
| `Transfers.Lifecycle` | src/stashd/domain/transfers.py:34-66 | Work succeeds only from RUNNING, can fail or be cancelled exactly while it is not over, and goes back only from ASSIGNED or FAILED. |
| `Transfers.NamedIff` | src/stashd/domain/failures.py:6-20 | A text names a failure class if and only if it is the class's own name; any other text names none. |
| `Filesets.Lifecycle` | src/stashd/domain/filesets.py:27-45 | Work begins on a fileset at rest and brings it back to rest; all that is not over may fail; only a release that was begun ends in RELEASED, which nothing leaves. |
| `RowRuns.JobLasts` | src/stashd/services/events.py:159-166 | Over any run a transfer stays the job that was submitted: kind, user, fileset, far end, route, bytes, age. |
| `RowRuns.CancelledForGood` | src/stashd/services/cancel.py:42-60 | A cancel goes through for whatever has not ended, and the transfer is CANCELLED as of that moment through every run, for as long as its row is kept. |
| `ReportRuns.TakenInIff` | src/stashd/services/events.py:68-109 | A report is taken in if and only if it is newer, says what the transfer and its fileset can have come to, and can be stored; otherwise it changes nothing. |
| `ReportRuns.IgnoredIff` | src/stashd/services/events.py:73-85 | It is ignored, and not an error, if and only if it is not newer or says less than, or other than, what the transfer has come to. |
| `ReportRuns.RowReported` | src/stashd/services/events.py:87-101 | What a report records: the smaller of the bytes it brings and the bytes measured, or what there was where it brings none; who started it and when it first did; when it ended. |
| `ReportRuns.FailureReported` | src/stashd/services/events.py:98-105 | A failure is recorded with its code and message, and either ends the attempt then or leaves the next one waiting out its backoff, without a task. |
| `ReportRuns.FilesetReported` | src/stashd/services/events.py:188-214 | A warm's finish makes its fileset READY and records as used what the transfer recorded; a flush's finish says when and where to; a failure for good leaves it FAILED; nothing else of it changes. |
| `ReportRuns.RowReconciled` | src/stashd/services/reconcile.py:60-116 | Asking about a row changes nothing while it is not over; what its daemon says, or its silence for as long as is allowed, is recorded as of now as its next report would be. |
| `ReportRuns.ProgressIsLastHeard` | src/stashd/services/events.py:93-94 | After any run the progress of a transfer is the last number of bytes heard of it, by report or by asking, up to what was measured. |
| `EventRuns.RedeliveryChangesNothing` | src/stashd/services/events.py:73-87 | An event accepted once changes nothing when delivered again at any later point of any run. |
| `EventRuns.ErasingRedeliveries` | src/stashd/services/events.py:61-112 | Erasing all redeliveries of accepted events from a run gives the same transfers, filesets, points and releases. |
| `EventRuns.AgreeIff` | src/stashd/services/events.py:73-109 | All deliveries of the events of one attempt, reordered, duplicated and with losses, that take in the last leave the same state, attempt, last sequence, finish time and error as each other if and only if no earlier event is a failure that sends the transfer back and after which the last, a failure too, can still be taken in. |
| `EventRuns.TwoFailures` | src/stashd/tasks/threaded.py:65-85 | Of two failures reported for one attempt, the first of them retried, it matters whether the first arrives. |
| `OrderRuns.OrderDoesNotMatterIff` | src/stashd/services/events.py:73-109 | For the events of any attempt: some delivery takes in the last and all that do leave what delivery in order leaves, if and only if nothing before the last ends the attempt and the last does, or a failure for good ends it first, none is retried until the last, and the last is a failure that is. |
| `OrderRuns.TakenInOrderIff` | src/stashd/services/events.py:73-105 | That guard holds exactly where delivery in order takes in the last and no two complete deliveries can disagree. |
| `OrderRuns.GuardWhereTaken` | src/stashd/services/events.py:145-156 | Where some delivery takes in the last, the guard says that nothing before it ends the attempt (and that a finish would not record a negative use), or else that the last is the first failure to be retried after one for good. |
| `OrderRuns.FailedThenFinished` | src/stashd/tasks/threaded.py:65-85 | A shutdown reported before the end of the work: in order the transfer is back in the queue, with the finish alone it has succeeded. |
| `OrderRuns.FinishedThenFailed` | src/stashd/tasks/threaded.py:124-132 | A shutdown reported after it: in order the transfer has succeeded, with the failure alone it is back in the queue. |
| `OrderRuns.OneEndIsLast` | src/stashd/services/events.py:73-94 | An attempt that starts, makes progress and ends once, in counts of bytes, meets the guard whenever some delivery takes in its end. |
| `EventRuns.RestartedDaemonIsUnheard` | src/stashd/clients/events.py:29-34 | A daemon that numbers from one again is not heard until it has sent as many reports as had been taken in, whatever they say. |
| `EventRuns.HeardAgain` | src/stashd/services/events.py:73-109 | Its next report, whatever it says, is taken in or refused, and leaves what it leaves, as with a controller that had never heard of the transfer. |
| `Events.StorableIff` | src/stashd/models/transfer.py:45-47 | A report can be stored if and only if it brings no bytes or the transfer was measured at more than none. |
| `Events.RetriedIff` | src/stashd/domain/transfers.py:101-104 | A failure goes back to the queue, keeping its place, if and only if its class is named, may be retried and attempts are left; otherwise the transfer is FAILED. |
| `Events.EndedStays` | src/stashd/services/events.py:82-89 | A transfer that has ended stays as it ended whatever is reported of it, but for a failure reported anew. |
| `Events.NeverRetried` | src/stashd/domain/transfers.py:68-76 | Four classes of failure end a transfer at once, whatever the config names and however many attempts are left. |
| `Reporting.EventReporter.Report` | src/stashd/clients/events.py:32-34 | Each report is numbered by how many there have been for its transfer. |
| `Reporting.NumbersRise` | src/stashd/clients/events.py:32-34 | A transfer's numbers start at one and rise by one from each of its reports to its next, whatever is reported of others in between. |
| `ReservationRuns.CeilingsNeverExceeded` | src/stashd/domain/allocation.py:72-138 | In any serial run no user limit on a storage or across caches, no fileset count and no storage's floor(capacity x fill limit) is exceeded. |
| `ReservationRuns.StepKeepsCeilings` | src/stashd/services/filesets.py:288-320 | Creates, warms, refreshes, resizes and releases each keep all those ceilings. |
| `ReservationRuns.ConfigIsRespected` | src/stashd/services/allocations.py:41-52 | The same in the config's terms: a user's own limit binds in place of the default, and a storage is never reserved beyond its capacity times its fill limit. |
| `ReservationRuns.ShrinksIff` | src/stashd/domain/allocation.py:149-162 | A live fileset shrinks to any size of at least a byte that is not below its use, and below that by force; limits never stand in the way. |
| `ReservationRuns.ReservationsAreConserved` | src/stashd/services/transfers_release.py:66-116 | Over any run, live reservations are the bytes admitted less those of confirmed deletes, rolled-back creates and shrinks, for every user and storage. |
| `ReservationRuns.FreesNothing` | src/stashd/services/cancel.py:98-104 | Without a confirmed delete no fileset stops or starts holding its reservation. |
| `ReservationRuns.ReleasedIsFinal` | src/stashd/domain/filesets.py:27-45 | A released fileset is still there, and still released, after any run. |
| `AdmissionRuns.CreateAdmittedIff` | src/stashd/services/filesets.py:180-214 | A create gets to its daemon if and only if the storage is a cache, the name is valid and free, and there is room: no drain, no overdrawn fileset, at least a byte, one fileset fewer than may be, and every sum with the size within its limit. |
| `AdmissionRuns.WarmAdmittedIff` | src/stashd/services/warm.py:213-226 | A warm gets into the queue if and only if its user's queue is not full and there is such room for the bytes it adds, if any. |
| `AdmissionRuns.ResizeAdmittedIff` | src/stashd/services/filesets.py:279-333 | A resize goes through if and only if the fileset is live, the size at least a byte and not below use unless forced, there is such room for what it adds, and its daemon sets the quota; it rewrites the reservation and nothing else. |
| `AdmissionRuns.FlushAdmittedIff` | src/stashd/services/flush.py:111-152 | A flush gets into the queue if and only if its fileset is READY or FAILED and its user's queue is not full. |
| `AdmissionRuns.RoomIffCeilings` | src/stashd/domain/allocation.py:72-138 | There is room exactly when every sum the bytes count in stays within its ceiling and none of the other rules is broken. |
| `AdmissionRuns.CreateRefusedFor` | src/stashd/domain/allocation.py:72-138 | A create that gets to admission is refused for the first rule that stands in its way, told from the tables. |
| `AdmissionRuns.WarmRefusedFor` | src/stashd/domain/allocation.py:72-138 | So is a warm that adds bytes. |
| `AdmissionRuns.ResizeRefusedFor` | src/stashd/domain/allocation.py:72-138 | So is a resize that does. |
| `AdmissionRuns.DrainedIff` | src/stashd/services/drain.py:18-49 | After any run a storage is drained if and only if that is what was last asked for it. |
| `AdmissionRuns.DrainedTakesNothingIn` | src/stashd/domain/allocation.py:79-83 | From when a storage is drained until it is undrained, over any run, no fileset on it is new or reserves more, and no warm or flush that touches it is started. |
| `AdmissionRuns.MeasuredIff` | src/stashd/services/usage.py:25-59 | A measurement is recorded unless the fileset is being created or is released, and marks it if and only if it uses more than it reserves. |
| `AdmissionRuns.MarkedIff` | src/stashd/services/usage.py:48 | After any run a fileset is marked as overdrawn if and only if the last measurement of it found it so. |
| `CoverageRuns.WarmsStayCovered` | src/stashd/services/warm.py:213-256 | As long as no resize cuts below a warm's measured size, every warm fits the reservation of its fileset, across refreshes and retries. |
| `CoverageRuns.ResizeStaysCoveredIff` | src/stashd/domain/allocation.py:149-162 | A resize keeps that if and only if the new size has room for each warm of the fileset. |
| `CoverageRuns.RecordedUseIsReserved` | src/stashd/services/events.py:202-206 | The use a finish event records never exceeds the reservation. |
| `Submissions.PlanCoversSource` | src/stashd/services/warm.py:105-142 | A plan some preflight returns reserves at least a byte and at least what was measured, on a cache storage. |
| `SubmissionRuns.PreflightIff` | src/stashd/services/warm.py:92-169 | A warm passes its preflight if and only if it reads from a source, fills a cache under a valid name, finds what it reads, and what is under the name already is refreshed on request, from the same place, and not while it is being filled. |
| `SubmissionRuns.PreflightPlans` | src/stashd/services/warm.py:126-142 | A plan is what was asked for, of the bytes measured, and reserves the least that is at least a byte, what was asked for, and what was measured with its headroom. |
| `SubmissionRuns.WarmFills` | src/stashd/services/warm.py:228-298 | A queued warm fills the fileset of its name, whose reservation only grows, or a new one: POPULATING in the place that was prepared, or as it was if none was. |
| `SubmissionRuns.WarmLasts` | src/stashd/services/warm.py:256-272 | Through any run the queued transfer is the warm that was asked for, for the fileset of that name. |
| `SubmissionRuns.FlushQueued` | src/stashd/services/flush.py:139-152 | A queued flush carries the bytes that were measured, or else those known to be used, and leaves its fileset FLUSHING. |
| `SubmissionRuns.FlushReleasesIff` | src/stashd/services/events.py:109-122 | From the call to the end: whenever the finish of a flush is taken in, its fileset is released if and only if it was submitted not to be kept and the delete is confirmed; a kept one is READY. |
| `Allocation.AdmittedIff` | src/stashd/domain/allocation.py:72-138 | A request is admitted if and only if it meets every rule, and is refused for the first it breaks, the unconditional ones coming first. |
| `Allocation.ReservationCoversSource` | src/stashd/domain/allocation.py:141-146 | A reservation covers what was measured and what was asked for, and is no larger than rounding up, the minimum or the request makes it. |
| `Admissions.LocksKeepUserLimits` | src/stashd/services/filesets.py:88-139 | Under any interleaving of new-fileset admissions by many users, read by read, with releases in between, no user exceeds a limit and no two live filesets share owner, storage and name. |
| `Admissions.CapacityKeptIff` | src/stashd/services/filesets.py:88-96 | The capacity of an open storage is kept under every interleaving if and only if all users lock the same key. |
| `Admissions.TwoUsersOverrun` | src/stashd/services/filesets.py:106-110 | Two users with different locks who each ask for all of a storage end up holding it twice over. |
| `AdmissionSteps.AloneIsCreate` | src/stashd/services/filesets.py:188-225 | Lock, look-up, reads, decision and insert, with nobody else's steps in between, leave the filesets a create leaves up to its daemon's answer, and give the lock back. |
| `WarmRuns.WarmRaisesIff` | src/stashd/services/warm.py:256-274 | A warm that the queue and admission let through raises after its first commit if and only if the fileset it then finds is being filled, flushed or released, whatever its preflight saw, and its transfer is queued either way. |
| `WarmRuns.FreshWarmRaisesIff` | src/stashd/services/warm.py:145-169 | If preflight saw the fileset as it still is, only flushing and releasing are left. |
| `WarmRuns.FillsOutputIff` | src/stashd/services/warm.py:213-258 | A warm fills an output fileset if and only if one has the name when the warm is submitted. |
| `WarmRuns.UnchangedNameIsSafe` | src/stashd/services/warm.py:123-154 | It never does when the name still holds the kind of fileset its preflight saw. |
| `RefundRuns.WarmRefundIsFairIff` | src/stashd/services/cancel.py:61-73 | Cancelling a warm while it is still queued leaves its user owing what they would have owed without it if and only if it was charged and no time has passed since, or nothing was owed, or nothing was to be charged; otherwise they owe less. |
| `RefundRuns.FlushRefundIsFairIff` | src/stashd/services/flush.py:139-163 | The same of a flush, which is queued by one commit and charged by the next: cut short in between, it is paid back without having been charged. |
| `RefundRuns.StartedIff` | src/stashd/services/events.py:90-92 | After any run a warm or flush counts as started if and only if a report of its start was taken in. |
| `RefundRuns.CancelRefundedIff` | src/stashd/services/cancel.py:61-73 | Cancelling a warm or flush after any run pays its user back if and only if no report of its start was taken in, whatever else it has done. |
| `RefundRuns.FailureRefundedIff` | src/stashd/services/events.py:169-185 | So does a failure for good. |
| `RefundRuns.LostStartIsRefunded` | src/stashd/services/events.py:82-92 | A transfer whose first report is one of progress runs, and is paid back in full when it is cancelled. |
| `ReconcileRuns.RowsTakenUp` | src/stashd/services/reconcile.py:34-40 | A pass takes up every row in flight, once, and no other. |
| `ReconcileRuns.RaisesIff` | src/stashd/services/reconcile.py:46-116 | Whatever the daemon answers, a row in flight raises if and only if it has no task, is done but was never known to run, has a fileset that cannot make the move, reports bytes where none were measured, or leaves a negative use. |
| `ReconcileRuns.AdoptionSettles` | src/stashd/services/reconcile.py:60-86 | Otherwise what is concluded about it is never ignored as old: it is no longer in flight; and where it raises, nothing is changed. |
| `ReconcileRuns.PassEndsIff` | src/stashd/services/reconcile.py:26-43 | Whatever the daemons answer, a pass comes to its end if and only if no row is blocked in this way once the rows before it are done, as can be foreseen from the tables it begins with. |
| `ReconcileRuns.PassEndsIffApart` | src/stashd/services/reconcile.py:26-43 | Where no two rows in flight share a fileset, that is each row judged by the tables as they are. |
| `ReconcileRuns.PassCountsSettled` | src/stashd/services/reconcile.py:26-43 | A pass that comes to its end returns how many of its rows it has taken out of flight. |
| `ReconcileRuns.LostStartEndsThePass` | src/stashd/services/reconcile.py:66-84 | A transfer still ASSIGNED whose daemon says it is done keeps every pass from its end. |
| `ReconcileRuns.StuckEndsThePass` | src/stashd/services/reconcile.py:40-43 | Whatever the daemons say, a pass raises at the latest at the first running row without a task, and the rows behind it are not looked at. |
| `ReconcileRuns.InterruptedReleaseStopsPasses` | src/stashd/services/transfers_release.py:75-80 | A release cut short after its first commit leaves such a row, and after any run that neither cancels it nor reports on it the row is as it was and a pass raises. |
| `Cancels.CancelNeverBlocked` | src/stashd/services/cancel.py:98-104 | The move to FAILED that a cancel asks of a live fileset is one it can always make. |
| `Outcomes.CancelLeaves` | src/stashd/services/cancel.py:55-104 | A cancel leaves a live fileset FAILED, marked with the transfer, and a released one alone. |
| `Outcomes.ReleaseAcceptedIff` | src/stashd/services/transfers_release.py:25-83 | A release by name is carried out if and only if the fileset is there, at rest, and a cached one or to be discarded. |
| `Outcomes.ReleaseLeaves` | src/stashd/services/transfers_release.py:66-142 | It leaves its own row and the fileset RELEASED, FAILED or RELEASING, as the delete is confirmed, refused or not answered. |
| `Outcomes.CreateLeaves` | src/stashd/services/filesets.py:203-248 | A create that is let in leaves one new fileset of that name and size, READY where its daemon made it, gone where it refused, CREATING where it did not answer. |
| `Outcomes.PrunedIff` | src/stashd/services/retention.py:41-57 | A row is pruned if and only if it has ended and was submitted longer ago than rows are kept. |
| `Outcomes.PrunedAreCounted` | src/stashd/services/retention.py:60-96 | Every row that is pruned is counted, once, in the bucket of its user, storage, route, kind and UTC day, and in no other. |
| `RecoveryRuns.AlwaysTended` | src/stashd/domain/filesets.py:27-45 | After any run a fileset that is being filled, flushed or released has a transfer at work on it, and one being created has none that is over. |
| `RecoveryRuns.FreeableIff` | src/stashd/services/transfers_release.py:66-116 | In any state a run can reach, a live reservation can be given back without a warm into its fileset if and only if the fileset is not one still being created with no transfer at work on it. |
| `RecoveryRuns.FreesInTwo` | src/stashd/services/cancel.py:98-104 | Giving it back takes a cancel of what is at work on the fileset, if anything is, and a release. |
| `RecoveryRuns.InterruptedCreateOrphans` | src/stashd/services/filesets.py:224-233 | A create cut short after its reservation was committed leaves such a fileset, with all it asked for reserved. |
| `AccountRuns.StepCharges` | src/stashd/services/fairshare.py:33-49 | A call changes at most one account: a warm or flush that goes through to its charge is charged, a cancel or final failure of a transfer whose start was never reported is paid back. |
| `AccountRuns.AccountsAreHistories` | src/stashd/services/fairshare.py:33-49 | After any run a user's account is what decaying it on every tick would have made of the charges and refunds of the run, is stamped with the latest of them, and is never negative. |
| `Scheduling.PlanDispatch` | src/stashd/domain/scheduling.py:68-109 | The loop with its four counters returns the plan of the recursive walk the lemmas are about. |
| `Scheduling.CountStorages` | src/stashd/domain/scheduling.py:104-105 | Each end is counted once, in whatever order the ends come. |
| `Scheduling.PlanIsMaximal` | src/stashd/domain/scheduling.py:82-93 | Every entry is taken, or touches a drained storage, or is at a limit, under the final counters, in a scope it takes a slot of. |
| `Scheduling.TakenIff` | src/stashd/domain/scheduling.py:82-107 | An entry is taken if and only if it touches no drained storage and, in every scope it takes a slot of, the load and what is taken ahead of it leave one. |
| `Scheduling.ShareIff` | src/stashd/domain/scheduling.py:62-65 | The limit given out is the one number within the bounds that keeps the route within the aggregate, or is the minimum, and could not be one more. |
| `Scheduling.PrefixOfPlan` | src/stashd/domain/scheduling.py:82-93 | An entry is never a barrier: the plan for a prefix of the queue is a prefix of the whole plan. |
| `Scheduling.WalkCounts` | src/stashd/domain/scheduling.py:102-107 | In every scope the counters end at what they began with plus what was taken, within the limit if anything was. |
| `Scheduling.TakenFromQueue` | src/stashd/domain/scheduling.py:82-100 | What is dispatched comes from the queue, touches no drained storage, and has a bandwidth limit exactly if it moves data. |
| `Scheduling.TakenOnce` | src/stashd/domain/scheduling.py:82-100 | No transfer is dispatched twice. |
| `Scheduling.ShareBounds` | src/stashd/domain/scheduling.py:62-65 | A share is within its bounds, falls as its route fills, and keeps the route within the aggregate unless it is the minimum. |
| `Scheduling.PassBandwidth` | src/stashd/domain/scheduling.py:95-107 | Along one plan the limits on a route never increase, and each times the number then active on the route is within the aggregate unless it is the minimum. |
| `Priority.OrderQueueSorts` | src/stashd/domain/priority.py:30-39 | The queue comes back as a permutation sorted by decayed points, submission time and id. |
| `Priority.SortedIsUnique` | src/stashd/domain/priority.py:30-39 | With distinct ids there is only one such permutation, so the order does not depend on the sort. |
| `Priority.OrderNeverChanges` | src/stashd/domain/priority.py:23-39 | Without new charges the order is the same at every later time, once every account was last decayed at or before the first. |
| `FairShare.LazyIsEager` | src/stashd/domain/fairshare.py:24-44 | For any charges and refunds, whatever the clock does, the lazily decayed account is the one decayed on every tick up to the latest time seen, and never negative. |
| `FairShare.PointsHalve` | src/stashd/domain/fairshare.py:24-29 | Points halve every half-life. |
| `FairShare.PointsRoundUp` | src/stashd/domain/fairshare.py:32-36 | A warm or flush pays for every GiB it begins, a release for none. |
| `FairShare.DecayedTwice` | src/stashd/domain/fairshare.py:24-29 | Decaying in two readings is decaying once, to the later of them. |
| `FairShare.SweepUnnoticedIff` | src/stashd/services/fairshare.py:33-49 | Rewriting the row before a charge goes unnoticed if and only if the charge is not stamped before the rewrite. |
| `Reports.AlignedIff` | src/stashd/services/reports.py:182-188 | Comparing days with the bounds' own dates agrees with comparing instants if and only if each bound is the UTC midnight of its own date, or the window is empty both ways. |
| `Reports.AtMidnightIff` | src/stashd/api/public/reports.py:34-35 | A bound is such a midnight if and only if it is midnight UTC written with an offset from zero to less than a day ahead. |
| `Reports.ReportedIff` | src/stashd/services/reports.py:100-134 | A row is on a line if and only if it has ended, was submitted in the window, and is of the line's user, route, storage or location; a storage the config does not know is its own location. |
| `Reports.PruningIsInvisible` | src/stashd/services/retention.py:41-96 | For every grouping and every such window, any number of prunes leaves the lines of the report, their bytes, transfers and successes, and moves running time and waiting time by less than a second for each pruned transfer. |
| `Reports.NeverNoticedIff` | src/stashd/services/reports.py:175-197 | Bytes, transfers and successes survive pruning whatever is in the tables if and only if the window is such. |
| `Reports.WestOfMidnight` | src/stashd/services/reports.py:185-186 | A report since 2026-01-01T19:00:00-05:00 leaves out a transfer of noon UTC that day until it is pruned, and counts it after. |
| `Reports.MeanWaitDrifts` | src/stashd/services/reports.py:189-197 | In such a window pruning adds to the number of waits a mean is taken over exactly the pruned transfers that never started. |
| `Percentiles.NearestRank` | src/stashd/services/reports.py:91-97 | Of the values, at least the share asked for are at most the percentile, and fewer are below it. |
| `Splitter.Updates` | src/stashd/engines/rsync.py:219-231 | However a stream is cut into chunks, what is yielded is the non-empty pieces of the whole text, in order. |
| `Splitter.PiecesDescribe` | src/stashd/engines/rsync.py:227-230 | No piece holds a carriage return or newline, and with one break between neighbours they are the text again. |
| `References.PathAcceptedIff` | src/stashd/domain/references.py:58-68 | A path is accepted, and normalised to another, exactly when it is that path with slashes behind it and that path is the root or plain segments. |
| `References.PathIdempotent` | src/stashd/domain/references.py:58-68 | Validating a validated path returns it. |
| `References.ParsePrinted` | src/stashd/domain/references.py:71-81 | Parsing the text of any valid reference returns the reference. |
| `References.ParsedIsValid` | src/stashd/domain/references.py:71-81 | Whatever parses is valid. |
| `References.PrintParsed` | src/stashd/domain/references.py:18-37 | Printing what was parsed returns the text less a path's trailing slashes; the root keeps its own. |
| `References.NewlineSlipsThrough` | src/stashd/domain/references.py:40-55 | The validators accept what their patterns describe and, beyond that, exactly those texts with a newline behind them. |
| `References.RouteSurvivesStorage` | src/stashd/scheduler/loop.py:106-115 | Splitting the stored text of a route gives back its two ends. |
| `Controllers.Controller.Perform` | src/stashd/api/app.py:131-156 | Every call the controller answers is exactly one step of the model, and keeps its tables sound. |
| `Controllers.Controller.ApplyEvent` | src/stashd/services/events.py:61-112 | Applying an event field by field is the event function: what is ignored or raised changes nothing, and a flush that asked for it releases its fileset. |
| `Controllers.Controller.Check` | src/stashd/services/events.py:68-89 | An event is refused for the first reason there is, in the order the service meets them. |
| `Controllers.Controller.TakeIn` | src/stashd/services/events.py:87-101 | The row taken forward by an event, or none for a move its state cannot make. |
| `Controllers.Controller.Requeue` | src/stashd/services/events.py:159-166 | A retry is the same job in its next attempt, offered from the end of its backoff on and not before. |
| `Controllers.Controller.TakeUp` | src/stashd/services/events.py:87-109 | An accepted event changes its transfer, its fileset and at most the account of its user. |
| `Controllers.Controller.Charge` | src/stashd/services/fairshare.py:33-49 | A charge opens or moves one account, which ends not negative and stamped no earlier than the charge, and leaves every other as it was. |
| `Controllers.Controller.PerformRelease` | src/stashd/services/transfers_release.py:66-142 | The reservation is freed only by a confirmed delete; a refusal leaves fileset and release FAILED, an interruption leaves them as first committed. |
| `Controllers.Controller.ReleaseFileset` | src/stashd/services/transfers_release.py:25-63 | The live fileset of that name is released, an output one only with discard. |
| `Controllers.Controller.CancelTransfer` | src/stashd/services/cancel.py:31-104 | A cancel ends the transfer, leaves a live fileset FAILED and refunds a transfer whose start was never reported. |
| `Controllers.Controller.ReconcileOne` | src/stashd/services/reconcile.py:46-116 | One row brought up to date with what its daemon says, or given up on after the grace period. |
| `Controllers.Controller.Reconcile` | src/stashd/services/reconcile.py:26-43 | A pass is the rows one by one until one raises, and counts those that changed. |
| `Controllers.Controller.FindLive` | src/stashd/services/filesets.py:155-164 | The one live fileset of that owner, storage and name, if there is one. |
| `Controllers.Controller.SumOf` | src/stashd/services/filesets.py:106-115 | The loop over the table is the sum, or the count, over the live filesets of a slice. |
| `Controllers.Controller.UsagePerStorage` | src/stashd/services/allocations.py:19-33 | Grouped by storage, the sums are those of each storage, and over the caches they come to what the user holds on all of them. |
| `Controllers.Controller.AdmissionStateOf` | src/stashd/services/filesets.py:99-139 | What admission is decided on is what the tables hold, sum by sum. |
| `Controllers.Controller.CheckCreate` | src/stashd/services/filesets.py:180-196 | A create is refused for the first rule it breaks. |
| `Controllers.Controller.CreateOutputFileset` | src/stashd/services/filesets.py:167-248 | A create reserves and becomes READY, is undone by its daemon's refusal, or stays CREATING with its reservation when it is cut short. |
| `Controllers.Controller.ResizeFileset` | src/stashd/services/filesets.py:260-333 | Growing is admitted, shrinking below use is forced, and what is refused changes nothing. |
| `Controllers.Controller.CheckQueueLength` | src/stashd/services/warm.py:301-314 | A user is stopped exactly when their queued and assigned transfers reach the limit. |
| `Controllers.Controller.Admission` | src/stashd/services/warm.py:216-226 | A warm that needs no more bytes is not asked; one that does is refused for the first rule it breaks. |
| `Controllers.Controller.Reserve` | src/stashd/services/warm.py:242-272 | The first commit holds the reservation, which only grows, and the queued transfer. |
| `Controllers.Controller.Prepare` | src/stashd/services/warm.py:274-298 | What follows it makes the fileset POPULATING and charges the user, or neither. |
| `Controllers.Controller.SubmitWarm` | src/stashd/services/warm.py:199-298 | A refused warm changes nothing; an admitted one reserves and queues whatever becomes of its destination. |
| `Controllers.Controller.SubmitFlush` | src/stashd/services/flush.py:111-180 | A flush is queued under the same limit, reserves nothing and takes the fileset to FLUSHING in one commit, and is charged in a second, which an interruption leaves out. |
| `Controllers.Controller.CountLoad` | src/stashd/scheduler/loop.py:118-134 | The counters filled row by row are the load of the rows in flight. |
| `Controllers.Controller.ScheduleOnce` | src/stashd/scheduler/loop.py:38-83 | One pass orders what waits, plans what fits and returns what was started. |
| `Controllers.Controller.RollUp` | src/stashd/services/retention.py:60-96 | One bucket changes, by one transfer with its bytes, at most one success, and no time for a transfer that never started. |
| `Controllers.Controller.Prune` | src/stashd/services/retention.py:24-57 | Every expired row is in its bucket before all of them go, and their number is returned. |
| `Controllers.Controller.AddTransfer` | src/stashd/services/reports.py:216-229 | A row is added to the totals of its key and to no other. |
| `Controllers.Controller.AddBucket` | src/stashd/services/reports.py:189-197 | A bucket is added to the totals of its key, in seconds, and to no other. |
| `Controllers.Controller.UsageReport` | src/stashd/services/reports.py:100-158 | There is a line exactly for the keys some row or bucket of the window has; its sums are theirs, its rates and means the quotients of those sums or zero, and its 95th percentile that of the waits still known. |

## Left out

- Authorisation, audit rows, uid and gid, log lines and metrics: they decide nothing the properties speak of.
- HTTP, the CLI, configuration parsing and reload, tokens, storage drivers and running rsync: foreign calls. What a daemon answers is a parameter.
- Float rounding: points, the fill limit and the headroom are reals, with the floor and ceiling the code takes.
- The probes of a flush preflight (target exists, is a directory, is writable) and its dry run: only the measured size reaches the model.
- `--delete`, endpoints and paths sent to the daemon at dispatch: nothing in the tables depends on them.
- Queue estimates (`eta`, bytes queued ahead) and the allocation report.
- Concurrent sessions writing the same row: each service call is one step. Only admission is split further.
- Admissions.LocksKeepUserLimits: covers new filesets, where the sums are read under the lock; a resize reads its own row before it takes the lock and stays one step.
- Controllers.Controller.UsageReport: durations are in microseconds, and the lines come as a map, where the service sorts them by key. A bound written without an offset is not part of the model: what it is compared as is up to the database driver.
- Controllers.Controller.Prune: audit events, which have their own retention, are not in the tables.
- Controllers.Controller.Measure: one row of a measuring pass; a pass is any number of them.
- Controllers.Controller.SubmitFlush: looks its fileset up when it submits, where the service keeps the row its preflight found earlier in the same request.
- Controllers.Controller.ScheduleOnce: a pass that cannot take the scheduler lock does nothing and is not a step; a row without a fileset cannot occur in sound tables.
- Routes are pairs of storages in the model and text in the tables; `References.RouteSurvivesStorage` is why that is the same.
- Rows a query returns in no stated order are taken by id where the order shows (the rows of a reconcile pass) and in any order elsewhere.
