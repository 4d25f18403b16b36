# Alexandria: locks, queue, approvals and checkpoints, verified

Alexandria keeps a vault of notes and an index over it. This project models the parts of its
backend whose correctness rests on interleavings, crashes and retries, and proves in Dafny
what they keep over every run. `dafny verify dfyconfig.toml` checks everything.

## The parts

**Index maintenance lane.** `index_lane` is the re-entrant shared/exclusive lock on one
condition variable. The condition's mutex is never held across a suspension, so each stretch
between two awaits is one atomic function; a run is any sequence of such blocks of any tasks.
`asyncio.Condition` is that of the Python the backend requires (3.13, backend/pyproject.toml:5):
a wait that is cancelled notifies one other waiter before it raises.
`lease_programs` runs one task's whole tree of nested blocks against arbitrary other tasks.
`index_coordinator` is the object with its mutable fields, each method proved against the
block it runs. `advisory_lock` and `process_lock` are PostgreSQL's session lock and the
object that polls and releases it; `index_processes` puts any number of processes, each with
its own lane and a connection pool, over one such lock. `lane_overtaking` and
`process_overtaking` say who can pass a waiting rebuild, in a lane and across processes.

**Redis maintenance queue.** `redis_server` is the Redis state with one function a command;
the enqueue script is one step. `queue_runs` is the step system of submitters and any number
of worker loops, any of which may lose its place between two commands; it keeps a history of
what was written about every entry. `queue_settlement` is about one worker loop,
`queue_submission` about deduplication, rate and status keys, `queue_status` about the times
and summaries of a status, `queue_letters` about dead letters, `queue_replay` about replays,
`queue_delivery` about the rounds of a worker loop, which `RoundsAreARun` ties to the step
system, and `queue_progress` about a job from its admission to its end. `queue_objects` has
the scripts, the submitter, the consumer and the worker loop as methods that change one Redis
and are cut off where no answer comes. `fixed_window` is the counter both scripts share,
`job_codec` and `decimal` the text of keys, entries and status hashes, `batch_payloads` the
staged payloads.

**Local OAuth approval.** `oauth_store` has one function per repository transaction and what
all runs of transactions keep. `oauth_attempts` splits an approval call into its check, its
decision and its recorded failure, with any number of calls in flight. `oauth_objects` is
pairing-code text, the repository object and the approval service, with the transactions of
others between its steps.

**Checkpoint store.** `checkpoint_disk` is a directory as a file system keeps it: synced and
unsynced contents, directory changes waiting for a sync of which any may survive a power
loss. `checkpoint_store` is one save, call by call; `checkpoint_runs` whole lives of a
directory, and the store object.

**Two small cores.** `failure_message` flattens exception groups; `ndcg` scores a ranking
over the reals.

## What does not hold as one might expect

The code is modelled as it is. Where a natural statement is false of it, the project proves
exactly when it holds and, by a concrete run or input, that it can fail.

- A cancelled waiter passes on one notification, and only one. When the last exclusive waiter is
  cancelled while nobody owns the lane and several writes sleep behind it, all but one of them
  sleep on although they could enter, at the longest until the next lease ends
  (`CancelLosesWakeupExactlyWhen`, `RunKeepsWakeupsExactlyWhen`, `LeaseEndWakesAll`, `LostWakeupIsReachable`). A lane that nobody
  holds is never asleep for that, and the processes never deadlock, whatever is cancelled
  (`IdleLaneHasReadyWaiter`, `NoDeadlock`).
- Maintenance can be starved. In a lane an exclusive request takes the lane whenever it finds
  it free, also ahead of a registered and notified exclusive waiter, so with serialized writes
  (the coordinator's default; the application's container allows concurrent ones) any number
  of writes overtake a rebuild (`SerializedWritesOvertake`); beside writes alone this happens
  exactly then (`WritesOvertakeExactlyWhen`), and only exclusive requests can pass (`PassesExactlyWhen`, `ExclusiveIsNext`). Across processes the try-lock
  keeps no queue: a rebuild that polls is refused exactly while anybody else holds the lock
  (`PollIsRefusedExactlyWhen`), and writers of other processes overtake it any number of times
  even when writes are concurrent (`WritersOvertakeAcrossProcesses`).
- A status time to live shorter than the deduplication cooldown, which the configuration
  allows, leaves live keys without a status (`KeysAreBackedExactlyWhen`).
- A deduplication key is shared with another request exactly when its text holds U+001F
  (`DedupKeyIsAmbiguousExactlyWhen`).
- A request with a blank requester or source is queued but can neither be read back nor
  replayed (`EntryRoundTrip`, `SnapshotRoundTrip`, `ReplayReadsExactly`).
- A rate limit lets through at most 2 * limit - 1 calls in a window's length, and can let
  through exactly that many (`RateBoundIsReached`).
- The seconds a rate-limited caller is told are the rest of the window to the nearest second, so
  waiting them can end up to 499 milliseconds early and be refused again; exactly when is said by
  `RetryIsEarlyExactlyWhen`.
- A job can end FAILED although its batch was written, when a worker is lost before it
  reports, deliveries overlap, the delete raises, or a failed job is replayed after a replay
  of it succeeded; and only then (`WrittenBatchCanFailExactlyWhen`). After a delete every
  execution misses its payload (`FindsPayloadExactlyWhen`).
- Concurrent wrong approvals can pass the attempt maximum, by their number in flight less one
  (`AttemptBoundIsReached`).
- The checkpoint store syncs its directory but not the directories above it, so the first
  records of a directory just made can be lost although `save` returned
  (`ReturnedSaveSurvives`).
- nDCG can exceed 1 for a case that declares both ids and titles
  (`ScoreIsNormalizedExactlyWhen`).

## Conventions

Times in Redis are milliseconds, a key that expires at `e` is absent from `e` on, and the
clock never goes back. XREADGROUP delivers a new entry once, XAUTOCLAIM may pick any pending
entry, XACK removes one. The times a worker writes are that clock's at the command. Stream entries are named by position. Random values (job ids,
request ids, codes, temporary names) are fresh where a predicate says so, and digests stand
for what they are taken of. A failure of the environment is an argument of the operation: the
number of commands still answered, the call that raises, the transactions in between.

## Model

| member | source | states |
|---|---|---|
| `IndexLane.StepConsistent` | backend/app/shared/application/index_maintenance_coordinator.py:185-274 | Every atomic block (acquire, parked wait, resume, cancellation, release) keeps the bookkeeping: owner iff one exclusive lease and no other, shared count = number of shared leases, depths at least 1, waiting count = parked exclusive tasks, active name iff owner. |
| `IndexLane.RunConsistent` | backend/app/shared/application/index_maintenance_coordinator.py:185-274 | That bookkeeping holds in every reachable state, with cancellation allowed at every await. |
| `IndexLane.OwnerIffSoleExclusiveLease` | backend/app/shared/application/index_maintenance_coordinator.py:65-72 | In every run from the empty lane: a task is the recorded owner exactly when the only lease is its exclusive one; an exclusive lease excludes every other lease. |
| `IndexLane.StepFramesOthers` | backend/app/shared/application/index_maintenance_coordinator.py:185-274 | A block of one task changes no other task's lease and nothing of another task's wait, except that it may notify it. |
| `IndexLane.StepMovesActor` | backend/app/shared/application/index_maintenance_coordinator.py:185-274 | Where a block takes the acting task: re-entry raises the depth by exactly one and a refused upgrade changes nothing, a new lease starts at depth 1, a cancelled waiter ends with neither lease nor wait, a release lowers the depth by one or ends the lease. |
| `IndexLane.AcquireIsExact` | backend/app/shared/application/index_maintenance_coordinator.py:185-253 | What a caller is told: the outermost lease exactly when it held none and the guard is open, another level of the mode it holds exactly on an allowed re-entry, a refused upgrade exactly under shared, a conflict exactly when it would have to wait and asked not to, and otherwise it parks; with the lane after each. |
| `IndexLane.ExclusivePreference` | backend/app/shared/application/index_maintenance_coordinator.py:203-245 | From the registration of an exclusive waiter for as long as one is registered, the set of shared holders never grows and the shared count never rises, over any run. |
| `IndexLane.RunKeepsWakeupsExactlyWhen` | backend/app/shared/application/index_maintenance_coordinator.py:210-274 | Over whole runs, cancellations included: no parked, un-notified waiter ever has a true guard exactly if no cancellation is of the one kind CancelLosesWakeupExactlyWhen names. |
| `IndexLane.IdleLaneHasReadyWaiter` | backend/app/shared/application/index_maintenance_coordinator.py:210-274 | In every state of every run, with cancellation at every await: a lane that nobody holds but somebody waits for has a notified waiter that takes a lease at its next turn, an exclusive one if any is registered. |
| `IndexLane.StepIsNotStuck` | backend/app/shared/application/index_maintenance_coordinator.py:210-274 | Every atomic block, cancellations included, keeps an idle lane with waiters from being all asleep. |
| `LaneOvertaking.PassesExactlyWhen` | backend/app/shared/application/index_maintenance_coordinator.py:210-253 | A task passes a registered exclusive waiter exactly when it asks for an exclusive lease itself while nobody holds the lane; shared requests never pass. |
| `LaneOvertaking.ExclusiveIsNext` | backend/app/shared/application/index_maintenance_coordinator.py:203-245 | In every run, cancellations included: once the holders present at some moment have left, with exclusive waiters registered throughout, an exclusive lease was granted meanwhile or an exclusive waiter enters at its next turn. |
| `LaneOvertaking.SerializedWritesOvertake` | backend/app/shared/application/index_maintenance_coordinator.py:107-242 | With serialized writes, for every list of writers some run has a rebuild overtaken by all writes after the first, although it has its turn after each: no bound exists. |
| `LaneOvertaking.WritesOvertakeExactlyWhen` | backend/app/shared/application/index_maintenance_coordinator.py:107-245 | Beside write operations alone, a rebuild can be overtaken in its lane exactly when concurrent writes are not allowed. |
| `IndexLane.CancelLosesWakeupExactlyWhen` | backend/app/shared/application/index_maintenance_coordinator.py:214-242 | A cancelled waiter passes one notification on; from a state without lost wake-ups that leaves a waiter asleep that could enter exactly when it was the last exclusive waiter, nobody owns the lane and at least two shared waiters sleep, whichever of them is woken. |
| `IndexLane.LeaseEndWakesAll` | backend/app/shared/application/index_maintenance_coordinator.py:261-274 | Such a lost wake-up lasts until the next lease ends at most: then all waiters are notified and none sleeps where it could enter until the next such cancellation. |
| `IndexLane.LostWakeupIsReachable` | backend/app/shared/application/index_maintenance_coordinator.py:214-242 | A run of four tasks in which a cancelled rebuild leaves a write asleep that could enter. |
| `IndexLane.RunIsNotStuck` | backend/app/shared/application/index_maintenance_coordinator.py:210-274 | In every run, cancellations included, no exclusive waiter sleeps through a moment at which it could enter and no idle lane with waiters is all asleep. |
| `LeasePrograms.ProgramRestoresLease` | backend/app/shared/application/index_maintenance_coordinator.py:139-165 | Running any tree of nested operation and write_operation blocks, with raising bodies, refused upgrades, fail-fast conflicts, process-lock conflicts and cancellations, leaves the task's lease and depth as found, leaks no waiting count and never ends in the unmatched-release error. |
| `LeasePrograms.WaitTurnsEnds` | backend/app/shared/application/index_maintenance_coordinator.py:210-242 | However the wait loop of a parked task ends, the task holds a depth-1 lease when granted and neither lease nor wait when cancelled, and the bookkeeping holds. |
| `LeasePrograms.FinishLeaves` | backend/app/shared/application/index_maintenance_coordinator.py:164-274 | The release in finally gives up exactly one level and passes the body's outcome on. |
| `LeasePrograms.OthersFrame` | backend/app/shared/application/index_maintenance_coordinator.py:185-274 | Whatever other tasks do meanwhile, a task's own lease is untouched. |
| `LeasePrograms.NoBodyWithoutProcessLock` | backend/app/shared/application/index_maintenance_coordinator.py:149-165 | The block of a task without a lease whose process lock is not acquired never runs its body, whatever the body is, ends in an error and leaves no lease. |
| `LeasePrograms.NoBodyWithoutAdmission` | backend/app/shared/application/index_maintenance_coordinator.py:139-148 | Nor does a block that met a conflict, asked for an upgrade or was cancelled while waiting: it ends in an error without running its body. |
| `LeasePrograms.OutermostBlockEnds` | backend/app/shared/application/index_maintenance_coordinator.py:149-165 | An admitted outermost block runs its body under a depth-1 lease of its mode with the process lock acquired, and ends as the body does, a failing unlock turning a normal end into an error. |
| `LeasePrograms.InnerBlockNeedsNoProcessLock` | backend/app/shared/application/index_maintenance_coordinator.py:145-148 | A block inside another does not depend on the process lock: its fate, its answers and who acts meanwhile make no difference. |
| `LeasePrograms.WaitIsGrantedExactlyWhen` | backend/app/shared/application/index_maintenance_coordinator.py:210-242 | A parked task gets its lease exactly if at some turn it has been notified and finds its guard open; otherwise its wait ends cancelled. |
| `IndexCoordinator.IndexMaintenanceCoordinator.AcquireLocal` | backend/app/shared/application/index_maintenance_coordinator.py:167-201 | The fields after an acquire up to its first suspension, and its answer, are those of the lane function proved about above. |
| `IndexCoordinator.IndexMaintenanceCoordinator.AcquireForWrite` | backend/app/shared/application/index_maintenance_coordinator.py:106-120 | A write operation queues for a shared lease when concurrent writes are allowed and for an exclusive one otherwise. |
| `IndexCoordinator.IndexMaintenanceCoordinator.ResumeWait` | backend/app/shared/application/index_maintenance_coordinator.py:210-245 | One turn of the wait loop of a notified task: enters and records the lease, or parks again. |
| `IndexCoordinator.IndexMaintenanceCoordinator.CancelWait` | backend/app/shared/application/index_maintenance_coordinator.py:210-242 | A cancelled waiter passes its notification on to the given sleeping waiter and leaves; only an exclusive one is taken off the waiting count. |
| `IndexCoordinator.IndexMaintenanceCoordinator.LeaveLoop` | backend/app/shared/application/index_maintenance_coordinator.py:237-242 | Leaving the wait loop, granted or cancelled, takes exactly an exclusive waiter off the waiting count. |
| `IndexCoordinator.IndexMaintenanceCoordinator.ReleaseLocal` | backend/app/shared/application/index_maintenance_coordinator.py:255-274 | One level of the lease goes; at depth 0 the lease, owner or shared count go and all waiters are notified; without a lease it is the unmatched-release error. |
| `IndexCoordinator.IndexMaintenanceCoordinator.EnterShared` | backend/app/shared/application/index_maintenance_coordinator.py:215-216 | Records a depth-1 shared lease and counts it. |
| `IndexCoordinator.IndexMaintenanceCoordinator.EnterExclusive` | backend/app/shared/application/index_maintenance_coordinator.py:243-245 | Records a depth-1 exclusive lease, its owner and its name. |
| `IndexCoordinator.IndexMaintenanceCoordinator.WaitLoop` | backend/app/shared/application/index_maintenance_coordinator.py:210-242 | The whole wait loop, with other tasks running between turns, ends as WaitTurns says: granted, or cancelled with its notification passed on. |
| `IndexCoordinator.IndexMaintenanceCoordinator.FinallyRelease` | backend/app/shared/application/index_maintenance_coordinator.py:164-165 | The release in finally, keeping the body's outcome unless the release itself fails. |
| `IndexCoordinator.IndexMaintenanceCoordinator.Lease` | backend/app/shared/application/index_maintenance_coordinator.py:122-165 | The try/finally of _lease, run recursively on a whole nested program, leaves exactly the state and outcome of Exec. |
| `AdvisoryLock.TryLockSafe` | backend/app/shared/infrastructure/postgres_advisory_lock.py:66-81 | Granting never puts two sessions in conflict: an exclusive holder is the only holder. |
| `AdvisoryLock.UnlockUndoesTryLock` | backend/app/shared/infrastructure/postgres_advisory_lock.py:145-151 | An unlock after a granted lock succeeds and restores what every session held. |
| `IndexProcesses.MoveIsLaneStep` | backend/app/shared/application/index_maintenance_coordinator.py:139-165 | Every move of a task in any process is one enabled block of its own lane or none, and touches no other process's lane. |
| `IndexProcesses.EnterFollowsAnswer` | backend/app/shared/application/index_maintenance_coordinator.py:141-158 | A task goes on to the process lock exactly when its lane answered with an outermost lease, waits exactly when it parked, is out exactly on a conflict, and a task inside a block is never told that its lease is outermost. |
| `IndexProcesses.HistoryAgrees` | backend/app/shared/infrastructure/postgres_advisory_lock.py:66-99 | In every reachable world each task's stage agrees with its process's lane and each connection's locks with the stage of its user. |
| `IndexProcesses.MutualExclusion` | backend/app/shared/application/index_maintenance_coordinator.py:149-165 | Across any number of processes and tasks: while one task is in a body under an exclusive lease no other task of any process is in a body. |
| `IndexProcesses.SharedBodiesOverlap` | backend/app/shared/application/index_maintenance_coordinator.py:193-201 | Any number of shared bodies, of one process or several, overlap in some run: for every list of different tasks all are in their bodies at once. |
| `IndexProcesses.WriterEnters` | backend/app/shared/application/index_maintenance_coordinator.py:149-158 | From any reachable world without exclusive holders or waiters, any further writer, also of a process that already runs writers, can be brought into its body. |
| `IndexProcesses.PooledConnectionHoldsNothing` | backend/app/shared/infrastructure/postgres_advisory_lock.py:83-99 | In every reachable world a connection that is in the pool or closed holds no advisory lock. |
| `IndexProcesses.ReleaseIsNeverUnmatched` | backend/app/shared/application/index_maintenance_coordinator.py:261-264 | In every run each release finds its lease. |
| `IndexProcesses.HistoryStaysAwake` | backend/app/shared/application/index_maintenance_coordinator.py:210-274 | Over every history, cancellations included, in every process: no sleeping exclusive waiter could enter and no idle lane with waiters is all asleep. |
| `IndexProcesses.WaitsForDescends` | backend/app/shared/application/index_maintenance_coordinator.py:149-158 | Waiting ranks: sleeping local waiter above notified or process-lock waiter above body; whoever is waited for ranks strictly lower. |
| `IndexProcesses.NoWaitingCycle` | backend/app/shared/application/index_maintenance_coordinator.py:149-158 | No chain of waiting tasks closes. |
| `IndexProcesses.BlockedWaitsForSomeone` | backend/app/shared/infrastructure/postgres_advisory_lock.py:119-126 | Every blocked task waits for some task that is inside a block. |
| `IndexProcesses.NoDeadlock` | backend/app/shared/application/index_maintenance_coordinator.py:149-158 | In every reachable world, with cancellation at every await: if any task is inside a block then some task has an enabled move, other than being cancelled, that changes the world. |
| `ProcessOvertaking.PollIsRefusedExactlyWhen` | backend/app/shared/infrastructure/postgres_advisory_lock.py:119-126 | In every reachable world a poll is refused exactly while some other task of any process holds the lock in an incompatible mode, whoever asked first. |
| `ProcessOvertaking.WritersOvertakeAcrossProcesses` | backend/app/shared/infrastructure/postgres_advisory_lock.py:119-126 | Even with concurrent writes and nothing cancelled: for every list of writers of other processes, several of one process included, some run has a polling rebuild overtaken by all after the first and refused twice for each: no bound exists. |
| `ProcessLock.PollTakesFirstChance` | backend/app/shared/infrastructure/postgres_advisory_lock.py:119-126 | Polling succeeds if the lock is free at any of its attempts: giving up means every attempt was refused. |
| `ProcessLock.PollSucceedsExactlyWhen` | backend/app/shared/infrastructure/postgres_advisory_lock.py:101-126 | Polling succeeds exactly if some attempt before the cancellation is admitted. |
| `ProcessLock.PostgresAdvisoryLock.WaitUntilAcquired` | backend/app/shared/infrastructure/postgres_advisory_lock.py:101-126 | The loop of short try-lock calls leaves the lock table of PollUntil and returns True exactly when it acquired. |
| `ProcessLock.PostgresAdvisoryLock.ReleaseOrInvalidate` | backend/app/shared/infrastructure/postgres_advisory_lock.py:128-154 | Afterwards the session that held exactly the lock holds nothing, other sessions are untouched, and the connection is discarded exactly when the answer was not a matched release. |
| `ProcessLock.PostgresAdvisoryLock.Operation` | backend/app/shared/infrastructure/postgres_advisory_lock.py:51-99 | Around any body and any activity of other sessions: the body runs exactly when the poll or single attempt succeeded, only with the requested lock held and no incompatible holder, and the connection ends holding nothing. |
| `FixedWindow.HitKeepsValid` | backend/app/operations/infrastructure/redis_fixed_window_rate_limiter.py:13-20 | One INCR/EXPIRE call keeps: a live counter expires exactly one window after the call that opened it, windows do not overlap, and no window admitted more than the limit. |
| `FixedWindow.HitKeepsExact` | backend/app/operations/infrastructure/redis_fixed_window_rate_limiter.py:13-80 | It keeps: the counter is the number of calls of its window, and a call was admitted exactly when fewer calls than the limit came before it in its window. |
| `FixedWindow.CallsAreExact` | backend/app/operations/infrastructure/redis_fixed_window_rate_limiter.py:67-80 | Both hold after every sequence of calls from an empty counter. |
| `FixedWindow.AtMostTwoWindows` | backend/app/operations/infrastructure/redis_fixed_window_rate_limiter.py:13-20 | Calls less than one window apart belong to at most two counter windows, and the earlier window opened before the interval. |
| `FixedWindow.FewerThanTwiceTheLimit` | backend/app/operations/infrastructure/redis_fixed_window_rate_limiter.py:13-20 | In any half-open interval of one window length at most 2 * limit - 1 calls are admitted. |
| `FixedWindow.RateBound` | backend/app/operations/infrastructure/redis_fixed_window_rate_limiter.py:67-80 | The same for every sequence of call times from an empty counter. |
| `FixedWindow.RateBoundIsReached` | backend/app/operations/infrastructure/redis_fixed_window_rate_limiter.py:67-80 | For every limit and window some call times admit exactly 2 * limit - 1 in one window length: the bound is tight. |
| `QueueObjects.RedisFixedWindowRateLimiter.Acquire` | backend/app/operations/infrastructure/redis_fixed_window_rate_limiter.py:45-80 | Bad limits and windows are refused without a permit; otherwise exactly one call is counted under the key, allowed iff within the limit, with what remains and a retry delay of at least 1 second. |
| `Decimal.IntTextRoundTrip` | backend/app/operations/infrastructure/redis_maintenance_job_codec.py:599-614 | int(str(n)) is n, for every integer. |
| `Decimal.IntTextInjective` | backend/app/operations/infrastructure/redis_maintenance_job_queue.py:391-399 | Different integers have different text. |
| `JobCodec.DedupKeyIsAmbiguousExactlyWhen` | backend/app/operations/infrastructure/redis_maintenance_job_queue.py:391-401 | Another request has the same deduplication key exactly when a text field holds U+001F. |
| `JobCodec.CleanMaterialIsUnique` | backend/app/operations/infrastructure/redis_maintenance_job_queue.py:391-401 | Without U+001F in its text a request is the only one under its key. |
| `JobCodec.RateKeyIsExact` | backend/app/operations/infrastructure/redis_maintenance_job_queue.py:417-419 | Rate keys are equal exactly for equal kind and requester, whatever the text. |
| `JobCodec.NormalizeFields` | backend/app/operations/infrastructure/redis_maintenance_job_codec.py:463-508 | The loop over a hash reply computes the known fields, later pairs winning, and fails exactly when some key or known value is not text. |
| `JobCodec.KnownFieldsMeaning` | backend/app/operations/infrastructure/redis_maintenance_job_codec.py:463-508 | A decoded field is present exactly when it is known and some pair names it, and holds the text of the last such pair. |
| `JobCodec.EntryRoundTrip` | backend/app/operations/infrastructure/redis_maintenance_job_codec.py:400-426 | The stream fields the enqueue script writes decode to the submitted kind, requester, source, limit and force exactly when requester and source are nonblank; otherwise decoding fails. |
| `JobCodec.LetterRoundTrip` | backend/app/operations/infrastructure/redis_maintenance_job_codec.py:359-397 | A dead letter decodes to what was written, its error text stripped. |
| `JobCodec.DecodeAllMeaning` | backend/app/operations/infrastructure/redis_maintenance_job_codec.py:359-397 | Decoding a list succeeds exactly when every reply decodes, and gives one record per reply, in order. |
| `JobCodec.DecodeRecords` | backend/app/operations/infrastructure/redis_maintenance_job_codec.py:359-397 | The loop over replies succeeds exactly when every reply decodes, with one record per reply in order, and otherwise gives the error of the first bad one. |
| `JobCodec.DecodeDeadLetterEntries` | backend/app/operations/infrastructure/redis_maintenance_job_codec.py:359-397 | A list reply gives one decoded letter per record, in order, exactly when every record decodes; anything else is an error. |
| `JobCodec.SnapshotRoundTrip` | backend/app/operations/infrastructure/redis_maintenance_job_codec.py:98-134 | A complete status hash decodes to its job, request, status, attempts and submission time exactly when the request's text is nonblank, and its start and finish times, stream id, error summary and result are the nonblank ones of the hash. |
| `JobCodec.SnapshotIsExact` | backend/app/operations/infrastructure/redis_maintenance_job_codec.py:98-134 | A status decodes to nothing exactly for an empty hash, and to a snapshot exactly when every required field is filled and of its kind; each part comes from its own field. |
| `JobCodec.OptionalTextIsExact` | backend/app/operations/infrastructure/redis_maintenance_job_codec.py:127-130 | An optional text is shown exactly when its field holds something that is not blank, without the blanks around it. |
| `JobCodec.CounterAloneIsUnreadable` | backend/app/operations/infrastructure/redis_maintenance_job_codec.py:98-134 | A hash with nothing but an attempt count, as HINCRBY leaves it after expiry, is an error and not an absence. |
| `QueueRuns.NoEntryIsLost` | backend/app/operations/infrastructure/redis_maintenance_job_consumer.py:77-113 | With any number of workers and a loss between any two Redis commands: every admitted entry is undelivered, pending or acknowledged, and acknowledged only after SUCCEEDED with a result, or FAILED and a dead letter naming it, or a status read as missing. |
| `QueueRuns.StepLosesNothing` | backend/app/operations/infrastructure/redis_maintenance_job_consumer.py:162-247 | Every single command, submission, tick or loss keeps that. |
| `QueueRuns.WorkKeepsOthers` | backend/app/operations/infrastructure/redis_maintenance_job_consumer.py:77-113 | A worker's command moves no entry but the one it holds, claims or reads. |
| `QueueRuns.WorkKeepsNotes` | backend/app/operations/infrastructure/redis_maintenance_job_consumer.py:204-247 | What was written about an entry, and its dead letters, are never taken back. |
| `QueueSettlement.StartsAreBounded` | backend/app/operations/infrastructure/redis_maintenance_job_consumer.py:124-149 | With one loop, in every run, statuses expiring anywhere: a job is started at most max_attempts plus the number of losses that hit it. |
| `QueueSettlement.AcknowledgedIsSettled` | backend/app/operations/infrastructure/redis_maintenance_job_consumer.py:109-247 | With one loop, in every run, an acknowledged job is SUCCEEDED with a result, or FAILED with a dead letter, or its status was read as missing; without a loss it has exactly one dead letter if FAILED and none otherwise. |
| `QueueSettlement.SettledStaysSettled` | backend/app/operations/infrastructure/redis_maintenance_job_consumer.py:162-247 | With one loop, in every run, once acknowledged its status hash and dead letters never change again, apart from expiry. |
| `QueueSettlement.StepStaysOneLoop` | backend/app/operations/workers/redis_maintenance_worker.py:125-188 | Every step, expiry included, keeps what the place of the one loop promises about each entry: attempts counted while the status keeps its request, status written before acknowledgement, letter before acknowledgement. |
| `QueueLetters.LettersAreExact` | backend/app/operations/infrastructure/redis_maintenance_job_consumer.py:226-244 | In every run each dead letter was written by a worker that counted this very attempt before: it names its entry, job and kind, an attempt of at least the maximum, the time it was written, not before the admission, and the first 1000 characters of the error. |
| `QueueDelivery.DeliveryConcludes` | backend/app/operations/workers/redis_maintenance_worker.py:156-188 | A delivery whose commands are all answered does exactly: one more attempt, then SUCCEEDED, result and acknowledgement; or RETRYING and still pending; or FAILED, one dead letter and acknowledgement. |
| `QueueDelivery.PendingJobEnds` | backend/app/operations/infrastructure/redis_maintenance_job_consumer.py:77-247 | From any state of any run: a worker that claims a pending readable job whenever it is stale, before its status expires, ends it in the step system without a loss, in at most its remaining attempts: SUCCEEDED with no new dead letter iff some attempt succeeds, else FAILED with exactly one more. |
| `QueueDelivery.RedeliveryEnds` | backend/app/operations/infrastructure/redis_maintenance_job_consumer.py:77-247 | The same on Redis alone, through the claim, the status read and the passing time of every round. |
| `QueueDelivery.RoundsAreARun` | backend/app/operations/workers/redis_maintenance_worker.py:125-139 | The rounds of a worker loop, from any state of any run with the worker between rounds, are a run of the step system in which it loses its place exactly once for every round cut off. |
| `QueueProgress.AdmittedJobEnds` | backend/app/operations/infrastructure/redis_maintenance_job_consumer.py:77-247 | From any state of any run: a worker that, after whatever rounds, reads an undelivered entry before its status expires and claims it again whenever it is stale ends its job in the step system, in at most the configured attempts: SUCCEEDED with its result and no dead letter iff some attempt succeeds, else FAILED with exactly one. |
| `QueueProgress.UndeliveredIsUntouched` | backend/app/operations/infrastructure/redis_maintenance_job_scripts.py:22-49 | In every run, with any number of workers, the status of an entry not yet delivered is exactly what the script wrote, and no dead letter names it. |
| `QueueProgress.ReadsReach` | backend/app/operations/infrastructure/redis_maintenance_job_consumer.py:77-113 | Rounds that find nothing stale and are not cut off deliver the undelivered entries one by one, so they reach every entry in turn. |
| `QueueProgress.DeliveriesAreSpaced` | backend/app/operations/infrastructure/redis_maintenance_job_consumer.py:77-99 | In every run two deliveries of one entry, to whichever workers, are at least the configured idle time apart. |
| `QueueStatus.StatusesAreStamped` | backend/app/operations/infrastructure/redis_maintenance_job_consumer.py:124-225 | In every run, with any number of workers: a queued status has neither times nor summary, a running one a start but no end and no summary, a succeeded one an end, a result and no summary, a failed one an end; and no start is later than the end beside it. |
| `QueueStatus.RetryingIsUnfinished` | backend/app/operations/infrastructure/redis_maintenance_job_consumer.py:124-225 | With one worker loop a status that waits for its retry never shows the end of an earlier attempt. |
| `QueueSubmission.EqualRequestsAreSpaced` | backend/app/operations/infrastructure/redis_maintenance_job_scripts.py:8-48 | In every run two entries of equal requests are at least one cooldown apart. |
| `QueueSubmission.DeduplicatedNamesLatestEntry` | backend/app/operations/infrastructure/redis_maintenance_job_scripts.py:8-11 | A deduplicated submission changes nothing, so spends no permit, and answers with the job of the live entry, of the same request unless text holds U+001F. |
| `QueueSubmission.KeysAreBackedExactlyWhen` | backend/app/operations/infrastructure/redis_maintenance_job_scripts.py:47-48 | A live deduplication key names a readable status in every state of every run exactly when the status time to live is at least the cooldown. |
| `QueueSubmission.ShortStatusLeavesKeyUnbacked` | backend/app/operations/infrastructure/redis_maintenance_job_scripts.py:47-48 | With a shorter status time to live, a concrete run has a live key without status. |
| `QueueSubmission.EnqueueFindsSnapshot` | backend/app/operations/infrastructure/redis_maintenance_job_queue.py:159-173 | With a status time to live of at least the cooldown, a queued or deduplicated enqueue finds its status, carrying the submitted request unless text holds U+001F. |
| `QueueSubmission.StatusLivesItsTime` | backend/app/operations/infrastructure/redis_maintenance_job_scripts.py:32-47 | For its whole time to live an entry's status is there and shows the entry's request. |
| `QueueSubmission.SubmissionsAreBounded` | backend/app/operations/infrastructure/redis_maintenance_job_scripts.py:13-20 | For any kind and requester, any run and any half-open interval of one window: at most 2 * limit - 1 new entries. |
| `QueueSubmission.RateKeyExpires` | backend/app/operations/infrastructure/redis_maintenance_job_scripts.py:13-16 | A live rate key always carries an expiry one window after its first increment. |
| `QueueSubmission.RefusalEnds` | backend/app/operations/infrastructure/redis_maintenance_job_scripts.py:13-20 | The rest of the window a refused submission is told is exact: its key stays refused until then and is admitted from then on. |
| `QueueObjects.RetryIsEarlyExactlyWhen` | backend/app/operations/infrastructure/redis_maintenance_job_queue.py:160-163 | A caller that waits the seconds it was told is refused again exactly when Redis rounded the rest of the window down to them. |
| `QueueReplay.ReplayReadsExactly` | backend/app/operations/infrastructure/redis_maintenance_job_queue.py:299-316 | What a replay reads through the decoders is the admitted request, exactly when the letter and its source entry are there and its text is nonblank; otherwise it fails as not found, source gone or unavailable, respectively. |
| `QueueReplay.LetterReads` | backend/app/operations/infrastructure/redis_maintenance_job_codec.py:359-426 | A dead letter reads back with the job, kind, attempts, failure time and source it was written with, its error text stripped. |
| `QueueReplay.ReplaysKeepTheRequest` | backend/app/operations/infrastructure/redis_maintenance_job_queue.py:290-316 | However often jobs are replayed, and replays replayed, every entry carries the request of the submission it goes back to, and so does whatever a replay reads. |
| `QueueObjects.RedisClient.EvalEnqueue` | backend/app/operations/infrastructure/redis_maintenance_job_scripts.py:8-49 | The script command by command, with its early returns, equals the enqueue function proved about above. |
| `QueueObjects.RedisMaintenanceJobSubmitter.Submit` | backend/app/operations/infrastructure/redis_maintenance_job_queue.py:122-173 | The script ran completely or not at all; rate-limited answers carry a delay of at least 1; an accepted answer returns the status of the job the script named. |
| `QueueObjects.RedisMaintenanceJobSubmitter.Get` | backend/app/operations/infrastructure/redis_maintenance_job_queue.py:175-191 | An absent status is none; an incomplete one is an error. |
| `QueueObjects.RedisMaintenanceJobConsumer.Receive` | backend/app/operations/infrastructure/redis_maintenance_job_consumer.py:68-113 | Claims a stale entry before reading a new one; a delivery comes with its status present; without one the round is over or the answers ran out, and Redis, place and answers are those of the round so far. |
| `QueueObjects.RedisMaintenanceJobConsumer.LookUp` | backend/app/operations/infrastructure/redis_maintenance_job_consumer.py:109-113 | An entry whose status is missing is acknowledged and not delivered. |
| `QueueObjects.RedisMaintenanceJobConsumer.MarkRunning` | backend/app/operations/infrastructure/redis_maintenance_job_consumer.py:115-149 | Increment, then RUNNING with its start and the end and summary of the last attempt cleared, then expiry, as far as the answers go; the attempt returned is the incremented count. |
| `QueueObjects.RedisMaintenanceJobConsumer.MarkSucceeded` | backend/app/operations/infrastructure/redis_maintenance_job_consumer.py:151-186 | SUCCEEDED with result, expiry, acknowledgement, in that order, as far as the answers go and no less. |
| `QueueObjects.RedisMaintenanceJobConsumer.MarkFailed` | backend/app/operations/infrastructure/redis_maintenance_job_consumer.py:188-247 | RETRYING and left pending without a dead letter, or at the last attempt FAILED, one dead letter with this entry, job, kind, attempt, time and bounded error, acknowledgement, in that order, as far as the answers go and no less; says which once done. |
| `QueueObjects.RedisMaintenanceJobConsumer.MoveToDeadLetters` | backend/app/operations/infrastructure/redis_maintenance_job_consumer.py:226-242 | The dead letter is written before the entry is acknowledged. |
| `QueueObjects.RedisMaintenanceJobConsumer.WriteFailure` | backend/app/operations/infrastructure/redis_maintenance_job_consumer.py:204-225 | FAILED with its end exactly at the last attempt, RETRYING before it, either with the summary cut to 1000 characters, then a fresh time to live. |
| `QueueObjects.RedisMaintenanceJobConsumer.Conclude` | backend/app/operations/workers/redis_maintenance_worker.py:157-188 | Runs the job and records its end, as far as the answers go and no less. |
| `QueueObjects.RedisMaintenanceJobConsumer.ProcessDelivery` | backend/app/operations/workers/redis_maintenance_worker.py:142-188 | Redis, place and answers left are exactly those of the delivery; with enough answers it has the effect of Delivered. |
| `QueueObjects.RedisMaintenanceJobConsumer.RunRound` | backend/app/operations/workers/redis_maintenance_worker.py:125-139 | One turn of the loop: Redis, place and answers left are exactly those of the whole round, cut off only where no answer is left. |
| `QueueObjects.RedisMaintenanceJobConsumer.ConsumerLoop` | backend/app/operations/workers/redis_maintenance_worker.py:125-139 | Redis afterwards is exactly what the rounds, one after the other with time passing between them, leave; an error ends only its round. |
| `BatchPayloads.PayloadOutlivesItsJob` | backend/app/operations/application/maintenance_batch_note_write_service.py:85-105 | If submit returned a job, its payload is still there unless a batch write of exactly its operations completed; a payload goes earlier only when its own submit raised. |
| `BatchPayloads.PayloadIsUnchanged` | backend/app/operations/workers/redis_maintenance_worker.py:261-272 | A payload that is still there has exactly the submitted operations. |
| `BatchPayloads.FindsPayloadExactlyWhen` | backend/app/operations/workers/redis_maintenance_worker.py:261-266 | In every run an execution whose read is answered finds its payload exactly when it was staged and no delete or compensation of it ran before. |
| `BatchPayloads.WrittenBatchCanFailExactlyWhen` | backend/app/operations/workers/redis_maintenance_worker.py:156-295 | A job can end FAILED although the batch of its payload was written exactly when workers can be lost, or deliveries of one payload overlap, or the delete can raise, or jobs that failed because their read or write raised are replayed. |
| `BatchPayloads.OrderlyNeverFails` | backend/app/operations/workers/redis_maintenance_worker.py:261-295 | In every run without any of these, no job of a written batch is reported FAILED. |
| `BatchPayloads.LossFails` | backend/app/operations/workers/redis_maintenance_worker.py:293-295 | A run in which the worker is lost between its delete and its report, and the job ends FAILED at its last attempt. |
| `BatchPayloads.MaintenanceBatchNoteWriteService.Submit` | backend/app/operations/application/maintenance_batch_note_write_service.py:56-105 | A job exactly when the service is enabled, the batch within bounds, the row new and the queue accepted; the row is taken back when the queue refused and kept after any other exception. |
| `BatchPayloads.MaintenanceBatchNoteWriteService.ExecuteBatch` | backend/app/operations/workers/redis_maintenance_worker.py:243-295 | The operations written are the staged ones, and the row goes exactly when the write and the delete succeeded. |
| `BatchPayloads.MaintenanceJobPayloadStore.Save` | backend/app/operations/infrastructure/maintenance_job_payload_store.py:25-47 | A new row, or the primary key refuses and nothing changes. |
| `BatchPayloads.MaintenanceJobPayloadStore.Remove` | backend/app/operations/infrastructure/maintenance_job_payload_store.py:63-74 | Exactly that row goes, if it was there. |
| `OAuthStore.CommitKeepsInv` | backend/app/mcp_server/local_oauth/repository.py:92-306 | Every transaction keeps: one active pairing code, registered clients behind all rows, decisions recorded once with their consumed times, codes carrying their requests. |
| `OAuthStore.OnePairingCodeIsActive` | backend/app/mcp_server/local_oauth/repository.py:162-175 | In every run at most one pairing code is unconsumed. |
| `OAuthStore.DecisionsAreSingleUse` | backend/app/mcp_server/local_oauth/repository.py:198-282 | In every run no two decisions share a request, a pairing code or an issued code. |
| `OAuthStore.RequestIsDecidedOnce` | backend/app/mcp_server/local_oauth/repository.py:198-282 | An existing request is consumed exactly when it was decided, and its decision issued a code exactly when it was an approval. |
| `OAuthStore.CodeCarriesItsRequest` | backend/app/mcp_server/local_oauth/repository.py:222-248 | Every code carries the client, scopes, challenge, redirect and resource of the request that was approved (section 4.1.2 of RFC 6749, section 4.4 of RFC 7636). |
| `OAuthStore.RowsHaveRegisteredClients` | backend/app/mcp_server/local_oauth/repository.py:284-306 | Every request, code and token has a registered client, also after delete_client. |
| `OAuthStore.PairingConsumedOnce` | backend/app/mcp_server/local_oauth/repository.py:162-280 | The consumed time of a pairing code is never written again. |
| `OAuthStore.RequestConsumedOnce` | backend/app/mcp_server/local_oauth/repository.py:221-281 | The consumed time of a request never changes while it exists. |
| `OAuthStore.CodeTimeStays` | backend/app/mcp_server/local_oauth/repository.py:222-236 | No transaction overwrites the consumed time of a code. |
| `OAuthStore.DecisionStays` | backend/app/mcp_server/local_oauth/repository.py:198-282 | A decision once made is in every later state. |
| `OAuthStore.ExchangeIsExact` | backend/app/mcp_server/local_oauth/persistence/local_oauth_grant_repository.py:119-138 | A code is exchanged exactly when it is there, unconsumed and unexpired and the token names are new; then it is consumed at this time, two tokens of its client are added and no other row changes. |
| `OAuthStore.CodeIsExchangedOnce` | backend/app/mcp_server/local_oauth/persistence/local_oauth_grant_repository.py:119-138 | In every run, with deletions in between, no code is exchanged twice. |
| `OAuthStore.DeleteClientIsExact` | backend/app/mcp_server/local_oauth/repository.py:284-306 | Deleting a client takes exactly the requests, codes and tokens of that client; every other row stays as it is. |
| `OAuthAttempts.AttemptsAreBounded` | backend/app/mcp_server/local_oauth/provider_approval.py:106-118 | With check, decision and recording as separate steps and at most K calls in flight on a request, its attempts never exceed max_approval_attempts - 1 + K. |
| `OAuthAttempts.AttemptBoundIsReached` | backend/app/mcp_server/local_oauth/provider_approval.py:148-161 | For every K some run reaches that bound. |
| `OAuthAttempts.StepStaysBounded` | backend/app/mcp_server/local_oauth/provider_approval.py:217-233 | Counted attempts and calls still in flight stay under the bound together, in every step. |
| `OAuthObjects.NormalizeForgetsCaseAndSeparators` | backend/app/mcp_server/local_oauth/provider_approval.py:273-285 | Two typed codes normalize alike exactly when they agree up to case and separators; normalizing is idempotent. |
| `OAuthObjects.CompactLaws` | backend/app/mcp_server/local_oauth/provider_approval.py:273-285 | What counts of a typed code: capitals and digits as they are, small letters as their capitals, nothing else. |
| `OAuthObjects.TypedCodeIsFound` | backend/app/mcp_server/local_oauth/provider_approval.py:262-285 | A generated code is what exactly the texts that spell its eight characters normalize to. |
| `OAuthObjects.OnlyTheNewCodeOpens` | backend/app/mcp_server/local_oauth/repository.py:162-175 | Right after a pairing code is created a pending request can be decided by exactly the operator key and the texts that spell the new code. |
| `OAuthObjects.CheckIsExact` | backend/app/mcp_server/local_oauth/provider_approval.py:106-118 | Approvals and denials alike: 400 exactly when the request is not registered, decided or expired at the check, 429 when all its attempts are used, whatever code or key was typed; the store is unchanged in both cases. |
| `OAuthObjects.CheckStepIsTheServices` | backend/app/mcp_server/local_oauth/provider_approval.py:106-118 | The check that the bound on attempts is about lets a call pass exactly when the service does: the request open and attempts left. |
| `OAuthObjects.ApprovalIsExact` | backend/app/mcp_server/local_oauth/provider_approval.py:148-166 | Whatever others commit between the steps: a redirect is answered exactly when at the check the request was registered, undecided, unexpired and had attempts left, and at the decision it was still open and the pairing code unused and unexpired; then exactly one decision is added and the redirect is that of the issued code's own grant. |
| `OAuthObjects.ApprovalTouchesThreeRows` | backend/app/mcp_server/local_oauth/repository.py:209-236 | A granted approval consumes the request and its pairing code at the decision, adds one unused code with the request's grant and its time to live, and changes no other row. |
| `OAuthObjects.DenialIsExact` | backend/app/mcp_server/local_oauth/provider_approval.py:180-193 | A denial is answered under exactly the same conditions, adds exactly one decision without a code, and leaves all codes alone. |
| `OAuthObjects.RefusalIsExact` | backend/app/mcp_server/local_oauth/provider_approval.py:211-233 | An approval refused after its check decides nothing and answers 400 when the request is gone, 429 from the attempt that reaches the maximum on, 403 below it, counting exactly one attempt in the last two cases and changing nothing else. |
| `OAuthObjects.DenialRefusalIsExact` | backend/app/mcp_server/local_oauth/provider_approval.py:186-233 | A denial refused after its check answers and counts the same way. |
| `OAuthObjects.GrantStays` | backend/app/mcp_server/local_oauth/repository.py:92-118 | What a client asked for never changes while its request exists, whatever is committed. |
| `OAuthObjects.LocalMcpOAuthRepository.SaveClient` | backend/app/mcp_server/local_oauth/repository.py:62-71 | A new registration, or the primary key refuses and nothing changes. |
| `OAuthObjects.LocalMcpOAuthRepository.CreateAuthorizationRequest` | backend/app/mcp_server/local_oauth/repository.py:92-118 | A new pending request of a registered client, or nothing changes. |
| `OAuthObjects.LocalMcpOAuthRepository.RecordFailedApproval` | backend/app/mcp_server/local_oauth/repository.py:134-147 | One more attempt on a pending request, otherwise 0 and no change. |
| `OAuthObjects.LocalMcpOAuthRepository.CreatePairingCode` | backend/app/mcp_server/local_oauth/repository.py:149-175 | Retires every active code at this moment and adds the new one; a refused insert undoes the retirements. |
| `OAuthObjects.LocalMcpOAuthRepository.ApproveAuthorizationRequest` | backend/app/mcp_server/local_oauth/repository.py:177-248 | Decides exactly a pending request with a usable pairing code, consumes both and adds the code; otherwise nothing changes, also when the code row is refused at the end. |
| `OAuthObjects.LocalMcpOAuthRepository.DenyAuthorizationRequest` | backend/app/mcp_server/local_oauth/repository.py:250-282 | Decides exactly a pending request with a usable pairing code, consumes both and issues nothing. |
| `OAuthObjects.LocalMcpOAuthRepository.TakePairing` | backend/app/mcp_server/local_oauth/repository.py:209-220 | Consumes exactly a usable pairing code; without one to consume it succeeds and changes nothing. |
| `OAuthObjects.LocalMcpOAuthRepository.ExchangeCode` | backend/app/mcp_server/local_oauth/persistence/local_oauth_grant_repository.py:97-145 | Consumes exactly an unconsumed, unexpired code and adds two tokens of its client; otherwise nothing changes. |
| `OAuthObjects.LocalMcpOAuthRepository.DeleteClient` | backend/app/mcp_server/local_oauth/repository.py:284-306 | The client and all its requests, codes and tokens go, and no other row. |
| `OAuthObjects.LocalMcpOAuthApprovalService.PendingAuthorization` | backend/app/mcp_server/local_oauth/provider_approval.py:96-118 | The pending request, or 400, or 429 when its attempts are used up. |
| `OAuthObjects.LocalMcpOAuthApprovalService.CreatePairingCode` | backend/app/mcp_server/local_oauth/provider_approval.py:120-134 | Stores the grouped code for its time to live and shows it. |
| `OAuthObjects.LocalMcpOAuthApprovalService.ApproveAuthorization` | backend/app/mcp_server/local_oauth/provider_approval.py:136-166 | The three separate transactions of an approval, with others in between, end as the call ApprovalIsExact and RefusalIsExact speak about. |
| `OAuthObjects.LocalMcpOAuthApprovalService.DenyAuthorization` | backend/app/mcp_server/local_oauth/provider_approval.py:168-193 | The same for a denial. |
| `OAuthObjects.LocalMcpOAuthApprovalService.RaiseFailedApproval` | backend/app/mcp_server/local_oauth/provider_approval.py:211-233 | Records the failure and picks the answer from the attempts it returned. |
| `CheckpointStore.NamesDiffer` | backend/app/obsidian/infrastructure/obsidian_report_bundle_run_store.py:79-172 | A temporary name is never a destination, and different keys have different destinations. |
| `CheckpointStore.CallsMakeStages` | backend/app/obsidian/infrastructure/obsidian_report_bundle_run_store.py:77-93 | Each system call of save takes one described stage to the next; the final unlink finds nothing to remove after a rename. |
| `CheckpointStore.SaveIsCrashAtomic` | backend/app/obsidian/infrastructure/obsidian_report_bundle_run_store.py:77-93 | After a power loss at any step of save every key loads what one same power loss before save would have left, except that the saved key may load the new record. |
| `CheckpointStore.SettledSaveIsOldOrNew` | backend/app/obsidian/infrastructure/obsidian_report_bundle_run_store.py:77-93 | In an anchored directory with nothing waiting for a sync: exactly the old or the new record, old until the rename, new after the directory sync; every other key unchanged. |
| `CheckpointStore.ReturnedSaveSurvives` | backend/app/obsidian/infrastructure/obsidian_report_bundle_run_store.py:90-180 | After save returned, its record is lost exactly by power losses that lose the directory itself, possible only when it was not yet anchored; all others load it, and every other key as before. |
| `CheckpointStore.RaisedSaveIsWholeOrNothing` | backend/app/obsidian/infrastructure/obsidian_report_bundle_run_store.py:85-93 | A save that raised serves the old record up to a failed rename and the new one after it, changes no other key and leaves no temporary file unless its removal raised. |
| `CheckpointRuns.ReadsWereSaved` | backend/app/obsidian/infrastructure/obsidian_report_bundle_run_store.py:127-135 | In every life of the directory a key loads nothing or a whole record some earlier save of that key was given. |
| `CheckpointRuns.SavedRecordStays` | backend/app/obsidian/infrastructure/obsidian_report_bundle_run_store.py:77-93 | A record saved in an anchored directory is loaded until its key is saved again, across saves of other keys, errors and power losses. |
| `CheckpointRuns.EventSound` | backend/app/obsidian/infrastructure/obsidian_report_bundle_run_store.py:77-93 | Every event keeps: destinations name synced files with a record passed to save for that destination. |
| `CheckpointRuns.TypedRoundTrip` | backend/app/obsidian/infrastructure/obsidian_report_bundle_run_store.py:112-160 | A typed record loads as itself under keys of its kind and asks for recovery under any other. |
| `CheckpointRuns.LoadTypedIsExact` | backend/app/obsidian/infrastructure/obsidian_report_bundle_run_store.py:95-125 | A typed load gives nothing exactly for a missing file and a record exactly for a two-field object of the key's own nonempty kind that the adapter accepts; everything else needs recovery. |
| `CheckpointRuns.ObsidianReportBundleRunStore.Save` | backend/app/obsidian/infrastructure/obsidian_report_bundle_run_store.py:70-93 | The calls in order with one of them raising or none, and the unlink in finally, leave exactly the described outcome. |
| `CheckpointRuns.ObsidianReportBundleRunStore.WriteAndReplace` | backend/app/obsidian/infrastructure/obsidian_report_bundle_run_store.py:85-91 | The guarded part: what each failing call leaves. |
| `CheckpointRuns.ObsidianReportBundleRunStore.ReadCheckpoint` | backend/app/obsidian/infrastructure/obsidian_report_bundle_run_store.py:127-135 | None exactly for a missing file; an unreadable one needs recovery. |
| `CheckpointRuns.ObsidianReportBundleRunStore.LoadTypedRecord` | backend/app/obsidian/infrastructure/obsidian_report_bundle_run_store.py:95-125 | None exactly for a missing file; otherwise the validated record or recovery. |
| `CheckpointRuns.ObsidianReportBundleRunStore.SaveTyped` | backend/app/obsidian/infrastructure/obsidian_report_bundle_run_store.py:137-160 | A record that cannot be wrapped changes nothing; after a save that returned, load_typed gives it back. |
| `FailureMessage.FailureMessage` | backend/benchmarks/mcp_readonly_benchmark.py:231-250 | The work-list ends and the message holds the first five leaves of the left-to-right depth-first traversal, for any nesting. |
| `FailureMessage.JoinOfConcat` | backend/benchmarks/mcp_readonly_benchmark.py:250 | The shown parts stand in order with exactly one separator between neighbours. |
| `FailureMessage.PathLeadsToItsLeaf` | backend/benchmarks/mcp_readonly_benchmark.py:231-250 | The leaf at a path of the tree stands in the traversal at its position. |
| `FailureMessage.PathsAreInOrder` | backend/benchmarks/mcp_readonly_benchmark.py:231-250 | Leaves stand in the lexicographic order of their paths. |
| `FailureMessage.EveryLeafHasAPath` | backend/benchmarks/mcp_readonly_benchmark.py:231-250 | Every element of the traversal is the leaf at some path: none missing, none added. |
| `Ndcg.NdcgAt` | backend/benchmarks/memory_eval_metrics.py:155-180 | The loop over ranks computes the score, for any cutoff and discount; none for abstention or nothing expected. |
| `Ndcg.ScoreIsGivenExactlyWhen` | backend/benchmarks/memory_eval_metrics.py:167-169 | A score is given exactly when something is expected and abstention is not. |
| `Ndcg.HitsBelowIdeal` | backend/benchmarks/memory_eval_metrics.py:170-177 | Distinct hits are worth at most as many hits at the top ranks. |
| `Ndcg.OneKindScoreIsNormalized` | backend/benchmarks/memory_eval_metrics.py:155-180 | With only ids or only titles declared the score lies in [0, 1]. |
| `Ndcg.OneKindScoreIsOneExactlyWhen` | backend/benchmarks/memory_eval_metrics.py:155-180 | It is 1 exactly when each of the first min(k, n) ranks holds a further expected memory. |
| `Ndcg.KeyIsExact` | backend/benchmarks/memory_eval_metrics.py:46-67 | A rank counts for its retrieved id exactly when that is expected, for its retrieved title exactly when that is expected and its id is not, and for nothing otherwise. |
| `Ndcg.TitlesAloneDecide` | backend/benchmarks/memory_eval_metrics.py:46-180 | A case with only titles scores 1 exactly when the first min(k, n) retrieved titles are different expected ones, whatever ids stand beside them, and 0 exactly when none of the first k is expected. |
| `Ndcg.IdsAloneDecide` | backend/benchmarks/memory_eval_metrics.py:46-180 | The same for a case with only ids, whatever titles stand beside them. |
| `Ndcg.OneHitIsWorthItsRank` | backend/benchmarks/memory_eval_metrics.py:172-177 | An answer with a single new rank is worth the discount of that rank. |
| `Ndcg.GainBound` | backend/benchmarks/memory_eval_metrics.py:170-180 | Whatever was retrieved, an answer is worth at most as many top hits as there are distinct expected values, or as the cutoff. |
| `Ndcg.GainBoundIsReached` | backend/benchmarks/memory_eval_metrics.py:46-180 | Some observation is worth exactly that. |
| `Ndcg.ScoreIsNormalizedExactlyWhen` | backend/benchmarks/memory_eval_metrics.py:155-180 | Scores of a case never exceed 1 exactly when the cutoff is at most the longer list's length or both lists together have at most that many distinct values. |

## Left out

- Cancellation during the round trip of an advisory try-lock, and loss of the PostgreSQL connection inside a body.
- The size of the connection pool: a task always gets some connection.
- The operation name in a conflict message when no exclusive owner is set: it is the first in dictionary order.
- `process_lock=None`: the results about one lane apply, those about many processes do not.
- `LeasePrograms.WaitTurnsEnds`: an execution names the waiter a cancelled wait notifies; the order in which asyncio keeps its waiters is not part of this model, and executions in which that waiter is not there are covered too.
- `IndexProcesses.NoDeadlock`: speaks of every reachable world; that a scheduler runs the task that can move is not part of this model.
- `LaneOvertaking.SerializedWritesOvertake`: how likely an overtaking is, given asyncio's order of wake-ups, is not part of this model.
- Trimming of streams (`MAXLEN ~`) and purging dead letters: an untrimmed source entry is assumed for replay.
- `QueueStatus.RetryingIsUnfinished`: is about one worker loop, as the results of `QueueSettlement` are.
- `QueueSettlement.AcknowledgedIsSettled`: is about one worker loop; with more loops a long job can be claimed twice, and no exclusive execution is claimed.
- `QueueDelivery.PendingJobEnds`: one worker works and time passes; what other workers and submitters do between its commands is covered by `QueueRuns.NoEntryIsLost` only.
- `QueueProgress.AdmittedJobEnds`: the same; that an entry is read before its status expires, and that stale entries leave room for reading, is a condition on the rounds.
- `JobCodec.NormalizeFields`: replies are text, byte text, hashes and lists; booleans accepted as integers by Python are not modelled.
- `Decimal.IntTextRoundTrip`: digits and whitespace are ASCII; other Unicode digits and Python's limit on digits are left out.
- ISO timestamps are opaque nonempty text; result payloads of jobs are opaque and their own encoders left out.
- Parsing of batch operations and the batch write itself: a write completes or raises; what a raising write has already changed is not modelled.
- Queue status, listing of dead letters, pending and consumer counts: reads without effect.
- `OAuthStore.RowsHaveRegisteredClients`: a foreign-key or primary-key violation is a transaction that is rolled back and changes nothing.
- Rotation, extension and revocation of tokens, and listing of client connections.
- `OAuthObjects.ApprovalIsExact`: nobody creates a second request under the same random id, and the new code's hash is unused.
- `OAuthStore.CodeIsExchangedOnce`: an authorization code is a random value that is never issued again.
- `OAuthObjects.NormalizeForgetsCaseAndSeparators`: letters, digits and upper case are those of ASCII; comparison in constant time is plain equality.
- The redirect URI's query is not built: an answer names its base, code and state.
- `CheckpointRuns.ObsidianReportBundleRunStore.Save`: at most one of its calls raises.
- `CheckpointRuns.TypedRoundTrip`: JSON text is taken to decode to what was encoded, and an adapter to validate what it dumped.
- Two processes saving the same key at the same time.
- `Ndcg.NdcgAt`: reals instead of floating point, and any positive, strictly decreasing discount in place of 1 / log2(rank + 1); the cutoff 5 is a parameter.
- The other metrics of the benchmark suite, the lifecycle state machine, routers, tool registration, configuration and the Rust compute adapters: they would add only case analysis.
