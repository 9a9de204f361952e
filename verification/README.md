# TranscoderD: a verified model

TranscoderD is a server that hands out video transcoding jobs and workers that run them. This
project models the parts of it that must stay right under concurrency, failure and crashes,
and proves what they promise. `dafny verify dfyconfig.toml` checks all of it.

| file | models |
|---|---|
| `EncoderPool.dfy` | the CPU and GPU slots of a worker under limits that change at run time |
| `EncoderQueue.dfy` | the queue that starts encodes, its one-token wakeup channel, and every interleaving of it with other goroutines |
| `PauseControl.dfy` | suspending a set of processes as one transaction with rollback |
| `Executor.dfy` | admission: holds, drains, limits, RAM pause and reservations over pool and controller |
| `Pipeline.dfy` | accepted jobs moving through the phases of the worker, and the drain theorem |
| `QueuedPipeline.dfy` | pipeline and encoder queue as one system, and the drain theorem through the queue |
| `EventLog.dfy` | the event log of a job as a fencing token for stale workers |
| `WorkerSettings.dfy` | saved limits in the SQL row and in memory, and the limits that a resume restores |
| `RemoteControl.dfy` | the one-command slot, its lossy request and acknowledgement protocol, and convergence of a worker to saved limits |
| `OutputNaming.dfy` | final output names and the search for a free one |
| `OutputPublication.dfy` | committing an upload and completing a job over hard links |
| `OutputRecovery.dfy` | the same completion cut anywhere by a stop, with repeated uploads and foreign files: when the next one still finds the upload |
| `OutputKept.dfy` | what completion keeps in every run, whatever happens |
| `Completion.dfy` | completing a job and storing its completion event, in the order of the server |
| `ManagedUpdate.dfy` | the journalled replacement of an installation directory |
| `UpdateManager.dfy` | the update manager, its durable barrier, and its interleavings with the helper |
| `WindowStatistic.dfy` | the sliding order statistic of the film report |
| `AdmissionSchedule.dfy` | weekly admission windows |

## How it is built

Each object that the program updates in place is a class whose methods follow the source
branch by branch. A method is specified by a function or relation on the abstract state, and
the promises of the program are lemmas about that specification, over every run of a state
machine whose steps are the critical sections or the single writes to disk and database.
The answers of the operating system, the database and the network are parameters or
nondeterministic choices, so every failure pattern is covered. Crashes in the update helper
are the outcome `Stopped` of any call: the invariant is a postcondition of every method on
every exit, and `faults` is an arbitrary number.

## What turned out to be false, and exactly when

- The next completion of a job can miss the upload, although its bytes always stay reachable
  (`OutputKept.UploadIsNeverLost`), in exactly two ways (`OutputRecovery.StepKeepsInv`,
  `OutputRecovery.RunIsSafe`). First, the database applies the record update but reports a
  failure, nothing is staged any more, and the new name differs from the old output: the new
  name is removed although the record has it. Second, a completion ends with the staged file
  removed and a different file left under the legacy staging name: the next one takes that.
- A completion that the event log rejects has been published all the same. With the cleanups
  working it changes nothing exactly when nothing was staged and the record already has the
  name that a search from it settles on (`Completion.RuntimeScheduler.ProcessCompletion`).
- The update barrier can drop for a release that is still pending
  (`UpdateManager.BarrierNeverDropsEarly`): exactly when the helper, between writing
  "completed" and clearing the barrier, is overtaken by the restarted manager that finishes the
  commit itself and chooses a newer release.
- An active transaction can even run without the barrier
  (`UpdateManager.ActiveTransactionIsBehindTheBarrier`): exactly when that late clear comes
  after the manager has placed the newer transaction, or when the manager places it while the
  barrier of the file is down, because the late clear came after its last save.
- A started installation can be given up half done: exactly when the manager writes over its
  journal entry (`UpdateManager.StartedInstallationIsFinished`). The manager does that only
  after a scheduled recovery that is still armed has started a helper between the "prepared" and
  the "retrying" of an attempt that fails. The late write keeps what the
  journal promises of the installed files if and only if no helper has started to install
  (`ManagedUpdate.Disk.Withdraw`); else a helper that stops in the installer leaves a half new
  tree which no later one looks at (`ManagedUpdate.Disk.WithdrawnInstallation`), and a helper
  that goes on may install a release that is no longer the chosen one.
- The chosen release can be forgotten or lowered while the barrier is up
  (`UpdateManager.ChosenVersionOnlyIncreases`): exactly when an unreadable state file is
  replaced from a memory that has no release or an older one, or when the stored release no
  longer verifies and an older one is found.
- A resume restores the last positive limits of the time it was issued. Positive limits that
  are saved before it is applied are overwritten
  (`RemoteControl.ResumeRestoresLimitsOfIssue`).
- A comment in `worker/worker/remoteControl.go` says that a lost acknowledgement never replays a
  command. That holds within one worker process; after a restart the command can be executed
  again exactly as long as the server shows it as pending
  (`RemoteControl.RestartRepeatsExactly`).
- The RAM pause shown to operators is wrong exactly while accepted work finishes in RAM mode
  (`Executor.ReportedRamPauseIsReal`).
- Cancelling a job never reports success, also when it cancelled it (`EventLog.Repository.CancelJob`).

## Model

| member | source | states |
|---|---|---|
| `Pipeline.DrainTerminates` | worker/worker/executor.go:435-590 | the drain theorem: from a successful hold or drain (or a finish until it is reopened) in every run nothing is suspended, no job is added, the steps of work are bounded, and when none is possible no job is left |
| `QueuedPipeline.DrainEndsThroughTheQueue` | worker/worker/executor.go:435-590 | the drain theorem with the queue in place: in every joint run of a closed worker the steps of work, scans, wakeups and notifications together are bounded, each operation adds a bounded number, and when none is possible no job is left |
| `Executor.OperationKeepsConsistent` | worker/worker/executor.go:362-569 | after every admission operation, succeeded or failed: processes are paused iff (RAM pause, or limit zero in RAM mode) and neither held nor finishing; the pool is paused iff (limit zero, RAM pause or settings pending) and neither held nor finishing |
| `EncoderQueue.NoLostWakeup` | worker/worker/encodeConcurrency.go:256-261 | whenever the queue sleeps, either a wakeup is on its way or none of its jobs can start; an unpaused pool with pending jobs and nothing running never sleeps for good |
| `EncoderQueue.IdleScanStartsSomething` | worker/worker/encodeConcurrency.go:193-205 | progress: with nothing running and no pause, a scan of a non-empty queue starts a job |
| `EncoderQueue.SlotsMatchRunningEncodes` | worker/worker/encodeConcurrency.go:128-184 | in every reachable state the counters equal the running encodes, by class and in total |
| `EncoderQueue.ActivityWithinSomeTargetSoFar` | worker/worker/encodeConcurrency.go:33-88 | over every run the activity of a class never exceeds the largest target it ever had |
| `Pipeline.AdmissionStaysBounded` | worker/worker/executor.go:581-601 | over every run, active plus reserved never exceeds the larger of the restored jobs and one more than the largest target in force |
| `PauseControl.HistoryIsFaithfulAndSettled` | helper/command/pause.go:74-138 | over every history of operations, starts, exits, orders and failures: what is recorded of a process is real, its suspend count is 0 or 1, and while no failed rollback is left unrepaired every process is paused exactly when it should be |
| `EventLog.LogIsAFencingToken` | server/repository/repository.go:656-677 | in every run the log is numbered without gaps, has at most one writer, and each assignment directly follows a queued event |
| `EventLog.StaleContextNeverAppends` | server/scheduler/scheduler.go:803-851 | a context older than a server append never appends in the rest of the run |
| `EventLog.NoDoubleAssignment` | server/scheduler/scheduler.go:73-103 | two assignments always have a queued event between them |
| `OutputKept.UploadIsNeverLost` | server/scheduler/scheduler.go:252-358 | after the first commit, in every run whatever happens: some name resolves to the uploaded content, and the source is deleted only after the event is stored |
| `OutputKept.NothingIsOverwritten` | server/scheduler/outputNaming.go:162-189 | in every run the server rebinds no name and removes only names that it made, a staged upload of an older server, or the source after the event is stored |
| `OutputRecovery.RunIsSafe` | server/scheduler/scheduler.go:252-358 | over every run with stops, repeats, repeated uploads and foreign files: each completion starts from the upload if and only if no missing step is taken |
| `OutputRecovery.CompletionSucceeds` | server/scheduler/scheduler.go:252-342 | from every state of such a run, whatever phase a completion is in, one whose calls work ends with the saved target on the upload |
| `OutputNaming.FileSystem.LinkOutputWithoutOverwrite` | server/scheduler/outputNaming.go:162-189 | ends for every file system with the first candidate that is free or already this file, never the source, and rebinds nothing |
| `Completion.RuntimeScheduler.ProcessCompletion` | server/scheduler/scheduler.go:194-220 | the job is completed before the event log is asked; a rejected completion changes nothing if and only if nothing was staged and the record already has the name that a search from it settles on |
| `ManagedUpdate.Disk.Supervise` | update/managed/native_windows.go:438-659 | re-running the helper, however it fails and wherever it stops, ends only with the verified new tree or the verified old tree, its service answering, or with a journal that a late withdrawal covered; that last case needs a manager that still had to withdraw |
| `UpdateManager.StartedInstallationIsFinished` | update/managed/native_windows.go:438-590 | over every run: a started installation is given up only by the helper, which completes it or rolls it back, if and only if the manager never writes over it; unless a late withdrawal overlaps with a helper it never does, and what is installed is the chosen release |
| `UpdateManager.ActiveTransactionIsBehindTheBarrier` | update/managed/manager.go:94-106 | over every run: an active transaction has the barrier up in every state if and only if no exposing step is taken; then it is up in memory too, also while a helper works on a withdrawn transaction |
| `UpdateManager.BarrierNeverDropsEarly` | update/managed/manager.go:109-127 | over every run: all drops are justified if and only if no clear comes too late, and then no active transaction is ever exposed |
| `UpdateManager.ChosenVersionOnlyIncreases` | update/managed/manager.go:137-162 | over every run: while the barrier is up the chosen version only increases if and only if no forgetting step is taken |
| `RemoteControl.AtMostOnceInOrder` | worker/worker/remoteControl.go:14-41 | in every interleaving each worker process executes every command at most once, in issue order, and applied means executed without error |
| `RemoteControl.RestartRepeatsExactly` | worker/worker/remoteControl.go:14-25 | after a restart a command can be executed, again if it was before, if and only if the server still shows it as pending |
| `RemoteControl.ResumeRestoresLimitsOfIssue` | worker/worker/remoteControl.go:57-75 | over every interleaving of saved limits, commands, polls, lost answers and restarts: an executed resume saves the last positive limits of the time it was issued; they are the last of all if and only if none, or the same ones, were saved since |
| `WorkerSettings.RepositoriesAgree` | server/repository/encoderSettings.go:12-93 | after any sequence of writes both repositories answer every read alike |
| `WindowStatistic.WorstWindowP5` | scripts/av1_full_film_report.py:13-25 | for every sequence and window the result is the minimum over all windows of the element of that rank, at the earliest such window; empty input or window is an error |
| `AdmissionSchedule.AdmissionAllowedAt` | worker/config/schedule.go:34-62 | admission equals membership in the union of the weekly intervals; one bad entry, an unknown zone or a daily period beside windows closes it |
| `EncoderPool.UnassignedStartsWhereThereIsRoom` | worker/worker/encodeConcurrency.go:128-169 | for every valid unpaused pool, in terms of limits and counters alone: unassigned work starts if and only if some class that it may use has a free slot (independent limits), or the total and the primary class both have one (shared limit); the primary class is taken whenever it can be |
| `EncoderPool.BoundStartsInItsClass` | worker/worker/encodeConcurrency.go:128-153 | accepted or restored work starts in its class if and only if that one has a free slot, one at a time when it never had a limit |
| `EncoderPool.LimitsKeepLastTargets` | worker/worker/encodeConcurrency.go:70-88 | a positive limit becomes the target of its class, a zero one keeps the last target; stopping both and setting the same limits again leads back |
| `EncoderPool.OpKeepsValid` | worker/worker/encodeConcurrency.go:33-88 | every accepted limit, target or pause change keeps the pool invariant (active is the sum of the classes, the primary target stays positive, a class without a target has nothing running) and moves no running job |
| `EncoderPool.StartKeepsValid` | worker/worker/encodeConcurrency.go:128-169 | handing out a slot keeps the invariant, also for a pinned job that opens a class without a target |
| `EncoderPool.FinishKeepsValid` | worker/worker/encodeConcurrency.go:171-184 | releasing a held slot keeps the invariant |
| `EncoderPool.StartStaysWithinTargets` | worker/worker/encodeConcurrency.go:128-169 | a start adds one to exactly one class, leaves that class within its target and a shared pool within its total, respects the pin, and gives unpinned work no class whose limit is zero |
| `EncoderPool.RefusedStaysRefused` | worker/worker/encodeConcurrency.go:128-169 | a job that could not start still cannot after any other job has started |
| `EncoderPool.IdlePoolStartsAnyJob` | worker/worker/encodeConcurrency.go:128-169 | an unpaused pool with nothing running refuses no job, pinned or not, after every history of limits |
| `EncoderPool.AboveTargetNeverGrows` | worker/worker/encodeConcurrency.go:142-168 | a class at or above a lowered target is given nothing by any start |
| `EncoderPool.AdmissionFollowsLastPositiveLimits` | worker/worker/encodeConcurrency.go:90-104 | new work is bound to a class exactly when the other one has no limit, and a stop to zero keeps the binding of the last positive limits |
| `EncoderPool.EncodeConcurrency.constructor` | worker/worker/encodeConcurrency.go:26-31 | the initial pool is valid and has the configured target, at least one |
| `EncoderPool.EncodeConcurrency.SetTarget` | worker/worker/encodeConcurrency.go:33-49 | the new state is the specified one, a target below one changes nothing and does not wake the queue |
| `EncoderPool.EncodeConcurrency.SetPrimary` | worker/worker/encodeConcurrency.go:51-60 | the primary class gets the whole target and the token is untouched |
| `EncoderPool.EncodeConcurrency.Pause` | worker/worker/encodeConcurrency.go:62-68 | both limits drop to zero, targets stay, the queue is woken |
| `EncoderPool.EncodeConcurrency.SetLimits` | worker/worker/encodeConcurrency.go:70-88 | independent limits; zero keeps the last positive target of a class |
| `EncoderPool.EncodeConcurrency.SetPaused` | worker/worker/encodeConcurrency.go:224-229 | only the pause flag changes, and the queue is woken |
| `EncoderPool.EncodeConcurrency.TryClass` | worker/worker/encodeConcurrency.go:142-168 | takes a slot of one class exactly when that class has room |
| `EncoderPool.EncodeConcurrency.TryStartEncoder` | worker/worker/encodeConcurrency.go:128-169 | starts exactly when the job may start, in the chosen class: with independent limits unassigned work is refused only when no class that it may use has a free slot, bound work only when its class has none; a refusal changes nothing |
| `EncoderPool.EncodeConcurrency.FinishEncoder` | worker/worker/encodeConcurrency.go:171-184 | releases one slot of the class and wakes the queue; counters never go negative |
| `EncoderPool.EncodeConcurrency.AdmissionKind` | worker/worker/encodeConcurrency.go:90-104 | the class that the last positive limits bind new work to |
| `EncoderQueue.Scan` | worker/worker/encodeConcurrency.go:186-216 | the loop that edits the pending jobs in place does exactly what one left-to-right scan does |
| `EncoderQueue.ScanLeavesNoStartableJob` | worker/worker/encodeConcurrency.go:193-205 | work conserving: no job that a scan leaves behind could start on the pool it leaves, and no job is lost |
| `EncoderQueue.StepKeepsInv` | worker/worker/encodeConcurrency.go:186-216 | each step of queue, running encodes and limit changes keeps: everything already looked at cannot start, or a wakeup is on its way |
| `EncoderQueue.RunKeepsInv` | worker/worker/encodeConcurrency.go:186-216 | the same over every interleaving |
| `EncoderQueue.GrowthStaysWithinTarget` | worker/worker/encodeConcurrency.go:128-169 | only a start makes a class grow, and it ends within its target |
| `EncoderQueue.ClassAboveTargetOnlyShrinks` | worker/worker/encodeConcurrency.go:33-88 | no step makes a class grow that is at or above its target |
| `PauseControl.StepKeepsFaithful` | helper/command/pause.go:38-65 | the recorded pause of a process is the real one and its nested suspend count is 0 or 1, after every operation and failure pattern |
| `PauseControl.StepSettles` | helper/command/pause.go:74-138 | a successful general pause or resume brings every process to its goal from any state, also after a failed rollback; every other operation keeps that unless its rollback failed |
| `PauseControl.TaintedExactly` | helper/command/pause.go:44-65 | the exception in that: an incomplete rollback that no successful general pause, resume or release has followed |
| `PauseControl.ReleasedStaysReleased` | helper/command/pause.go:126-138 | once nothing is suspended, only a pause request can suspend again, and a resume cannot fail |
| `PauseControl.MovedIsFailed` | helper/command/pause.go:47-65 | whatever was undone, each process ends as it was or at the goal, and some live process had to change |
| `PauseControl.UndoOne` | helper/command/pause.go:47-60 | undoing the last recorded change restores exactly that process |
| `PauseControl.PauseController.SetPaused` | helper/command/pause.go:74-85 | the general pause changes only with full success; the waiting starts are then woken |
| `PauseControl.PauseController.SetJobPaused` | helper/command/pause.go:87-124 | every process of the job is inspected before any is touched; only one of them that cannot be inspected ends the call that way; with all calls working the hold is recorded if and only if all processes of the job run |
| `PauseControl.PauseController.ResumeAll` | helper/command/pause.go:126-138 | success releases every process and every hold; if the system calls work it succeeds |
| `PauseControl.PauseController.Start` | helper/command/pause.go:168-210 | a process starts exactly when no general pause holds, and then runs unpaused |
| `PauseControl.PauseController.Switch` | helper/command/pause_linux.go:12-38 | one system call flips the process or leaves it alone; an exited process reports success |
| `PauseControl.PauseController.Transition` | helper/command/pause.go:38-65 | all processes reach the goal, or the changed ones are rolled back in reverse order; any iteration order, any failures |
| `PauseControl.PauseController.RollBack` | helper/command/pause.go:47-60 | undoes what it can, continues past failures, and says whether all was undone |
| `Executor.PoolAfterIsValid` | worker/worker/executor.go:362-409 | each operation leaves a valid pool and moves no running encode |
| `Executor.DrainingIsForGood` | worker/worker/executor.go:546-560 | after a hold or drain no operation suspends an encode, pauses the pool or lets a reservation through |
| `Executor.SuccessfulHoldDrains` | worker/worker/executor.go:455-472 | a successful hold or drain closes admission with nothing suspended |
| `Executor.LimitChangeIsExact` | worker/worker/executor.go:353-409 | an accepted limit change puts exactly its limit in force and ends a finish; one that only concerns admission suspends and resumes nothing: a pause that came from the mode becomes an explicit one |
| `Executor.FinishLeavesNoPause` | worker/worker/executor.go:435-453 | after the operator lets accepted work finish, no pause, no RAM mode and no limit is left |
| `Executor.FinishingLastsUntilLimitChange` | worker/worker/executor.go:435-453 | finishing lasts until an accepted limit change; a failed one disturbs it only when an encode it suspended could not be resumed |
| `Executor.ReportedRamPauseIsReal` | worker/worker/executor.go:334 | the reported RAM pause is the real one if and only if it is not an unheld finish in RAM mode |
| `Executor.ReportedRamPauseCanBeWrong` | worker/worker/executor.go:334 | that exception is reachable from any unheld idle worker |
| `Executor.JobExecutor.constructor` | worker/worker/executor.go:65-104 | a configured worker starts consistent, with nothing accepted, its parallel encodes all in the configured class, and no limit in force when it is to take no jobs |
| `Executor.JobExecutor.AdoptLimit` | worker/worker/executor.go:362-382 | the fields and pool after a limit change |
| `Executor.JobExecutor.AdoptPair` | worker/worker/executor.go:384-409 | the fields and pool after a change of the class limits |
| `Executor.JobExecutor.ApplyLimit` | worker/worker/executor.go:362-382 | the controller moves first; when it fails nothing else changes |
| `Executor.JobExecutor.ApplyPair` | worker/worker/executor.go:384-409 | the same for class limits |
| `Executor.JobExecutor.SetMaxActiveJobs` | worker/worker/executor.go:353-360 | refuses a negative limit, else applies it |
| `Executor.JobExecutor.ApplyPersistedLimit` | worker/worker/executor.go:506-533 | an admission-only limit turns a RAM pause that came from the mode into an explicit one |
| `Executor.JobExecutor.SetEncoderLimits` | worker/worker/executor.go:384-409 | refuses negative or overflowing pairs, else applies them |
| `Executor.JobExecutor.SetRAMPaused` | worker/worker/executor.go:411-433 | refused while held or finishing; else the RAM pause replaces the mode |
| `Executor.JobExecutor.SetPauseMode` | worker/worker/executor.go:858-872 | the mode changes only if the processes could follow |
| `Executor.JobExecutor.SetJobPaused` | worker/worker/executor.go:875-898 | refused while held or finishing; nothing but that job changes |
| `Executor.JobExecutor.FinishAcceptedJobs` | worker/worker/executor.go:435-453 | releases everything, closes admission until the next limit change |
| `Executor.JobExecutor.DrainAcceptedJobs` | worker/worker/executor.go:455-472 | releases everything, closes admission for good, limit zero |
| `Executor.JobExecutor.HoldAdmission` | worker/worker/executor.go:546-560 | releases everything, closes admission for good, limit kept |
| `Executor.JobExecutor.MarkWorkerSettingsResolved` | worker/worker/executor.go:562-569 | the startup hold ends; the other holds stay |
| `Executor.JobExecutor.RequireWorkerSettings` | worker/worker/executor.go:535-544 | admission waits for the saved settings |
| `Executor.JobExecutor.AdmissionStatus` | worker/worker/executor.go:291-351 | accepting means that a reservation succeeds whenever there is capacity |
| `Executor.JobExecutor.ReserveJobSlot` | worker/worker/executor.go:571-590 | reserves exactly when open and below the accepted maximum |
| `Executor.ReservesOneAhead` | worker/worker/executor.go:571-601 | a worker that accepts jobs takes one more than it can encode at a time |
| `Executor.JobExecutor.ReleaseJobSlot` | worker/worker/executor.go:607-612 | a full worker that accepts jobs can reserve again after one release; never below zero |
| `Executor.JobExecutor.AcceptReserved` | worker/worker/executor.go:624-647 | a reservation becomes a job; the counter is 32 bits wide |
| `Executor.JobExecutor.CleanJob` | worker/worker/executor.go:824-835 | the unsigned decrement subtracts one as long as a job is counted, and wraps at zero |
| `Pipeline.StepKeepsInv` | worker/worker/executor.go:106-181 | the job counter is the number of jobs in the pipeline, slots match encodes, each accepted job is cleaned exactly once, and the decrement never wraps |
| `Pipeline.BeginKeepsInv` | worker/worker/executor.go:687-701 | a job that begins keeps the accounting |
| `Pipeline.ReturnKeepsInv` | worker/worker/executor.go:752-822 | a step that returns moves its job on or out and keeps the accounting |
| `Pipeline.WorkDecreasesMeasure` | worker/worker/executor.go:106-181 | every step of accepted work leaves strictly less to do; closed admission adds none |
| `Pipeline.ClosedStep` | worker/worker/executor.go:546-590 | a closed worker stays closed, admits no reservation, and active plus reserved never grows; a finish is reopened only by a limit change that succeeds, or fails after suspending an encode it could not resume |
| `Pipeline.ReleaseUndoesReserve` | worker/worker/coordinator.go:107-118 | giving back a reservation leaves the worker as it was before it; kept, it becomes exactly one job that waits for its download |
| `Pipeline.JobPassesEveryPhase` | worker/worker/executor.go:106-181 | a job that leaves without a failure has been downloaded, encoded, verified and uploaded in this order, its subtitles extracted if there are any and read if some are images |
| `Pipeline.OneJobPerPhase` | worker/worker/executor.go:202-209 | over every run each phase but the encodes works on one job at a time |
| `Pipeline.DrainNeverStuck` | worker/worker/executor.go:687-760 | a closed worker with work left always has a step of that work that can happen |
| `Pipeline.RunKeepsInv` | worker/worker/executor.go:752-835 | the accounting over every run |
| `Pipeline.AdmissionStep` | worker/worker/executor.go:571-647 | active plus reserved grows only by a reservation, which stays within the accepted maximum |
| `QueuedPipeline.AdjustmentsAreTheOperation` | worker/worker/executor.go:435-590 | what an operation does to the pool, change by change, adds up to what it promises of the pool |
| `QueuedPipeline.StepKeepsServed` | worker/worker/executor.go:687-701 | every step of pipeline, queue and operations keeps the two together: one pool, and each waiting encode in the list or the channel of the queue as often as it waits |
| `QueuedPipeline.QueueServesThePipeline` | worker/worker/executor.go:106-181 | the same over every joint run from startup |
| `QueuedPipeline.QueueNeverHoldsTheDrain` | worker/worker/encodeConcurrency.go:186-216 | over every joint run from startup: while the queue sleeps with nothing on its way to it no waiting encode may begin, and a closed worker whose only work is waiting encodes never has a sleeping queue |
| `QueuedPipeline.NeverStuck` | worker/worker/encodeConcurrency.go:186-216 | a closed worker with work left always has a step of that work or of its queue that can happen |
| `QueuedPipeline.StepIsUsed` | worker/worker/encodeConcurrency.go:186-216 | each step of work or queue uses up some of a bounded potential, and nothing but the notifications of an operation adds to it |
| `EventLog.Repository.AddNewTaskEvent` | server/repository/repository.go:656-677 | appends exactly the event that carries the next number |
| `EventLog.Repository.GetLatestPerNotificationType` | model/model.go:165-173 | the loop over the events finds the latest one of the topic |
| `EventLog.Repository.RequestJob` | server/scheduler/scheduler.go:73-103 | assigns a queued job under the next number if and only if nothing was appended since the lookup |
| `EventLog.Repository.CancelJob` | server/scheduler/scheduler.go:114-136 | stores the cancellation of an assigned or started job unless something was appended meanwhile, and answers with an error in every case |
| `EventLog.Repository.ProcessEvent` | server/scheduler/scheduler.go:204-221 | a completion that is already stored under its number is accepted again without being stored twice, the next number is accepted and stored, all else is refused and changes nothing |
| `EventLog.WorkerContext.UpdateEvent` | worker/job/job.go:62-76 | numbers follow each other, starting after the assignment |
| `EventLog.StepKeepsInv` | server/scheduler/scheduler.go:803-851 | every step of server, workers, lost answers, restarts and stale snapshots keeps the log numbered and each context behind it |
| `EventLog.AnswerIsForOwnEvent` | server/scheduler/scheduler.go:204-220 | a positive answer means the context holds the next number or stored this completion itself |
| `EventLog.OwnEventIsAnswered` | server/scheduler/scheduler.go:204-221 | a context that holds the next number always stores its event, and it or a repeated completion always gets the answer |
| `EventLog.RepeatedCompletionIsAnswered` | server/scheduler/scheduler.go:204-221 | over every run: a worker whose completion was stored but whose answer was lost is answered whenever it repeats it, whatever was appended since, and nothing is stored twice |
| `EventLog.HolderIsUnique` | server/repository/repository.go:656-677 | at most one context holds the next number |
| `EventLog.FencedForever` | server/repository/repository.go:656-677 | a context that the server appended past never changes the log again |
| `EventLog.ServerAppendFencesEverybody` | server/scheduler/scheduler.go:829-851 | every requeue, cancel or assignment fences all contexts that exist |
| `EventLog.StreamingNeedsCurrentAssignment` | server/scheduler/scheduler.go:605-618 | only the worker of the latest job event may stream, and the server has appended nothing since |
| `EventLog.RunKeepsInv` | server/scheduler/scheduler.go:740-851 | the invariant over every interleaving |
| `EventLog.ServerFollowsTheLifeOfTheJob` | server/scheduler/scheduler.go:750-851 | over every run: the server assigns and fails only queued jobs, queues only ended ones, and cancels only assigned, started or failed ones |
| `EventLog.JobCanBeQueuedAgain` | server/scheduler/scheduler.go:829-851 | a job is never stuck: one decision of the server makes any job that is not queued ready to be assigned |
| `EventLog.JobCanBeEnded` | server/scheduler/scheduler.go:114-136 | an assigned or started job can be cancelled, a queued one without its source fails |
| `EventLog.LatestIsLast` | model/model.go:159-173 | the latest event of a topic is in the log and none of that topic follows it |
| `WorkerSettings.ValidWrites` | model/workerSettings.go:17-43 | a valid write is exactly one maximum or one pair within the integer range |
| `WorkerSettings.SqlRepository.SetWorkerMaxActiveJobs` | server/repository/repository.go:306-324 | the insert and its conflict clause: the row afterwards, resume columns only from a positive limit |
| `WorkerSettings.SqlRepository.SetWorkerSettings` | server/repository/encoderSettings.go:29-54 | the same for pairs; invalid writes change nothing |
| `WorkerSettings.InMemoryRepository.SetWorkerMaxActiveJobs` | server/repository/repository_mock.go:310-326 | the maps after the write |
| `WorkerSettings.InMemoryRepository.SetWorkerSettings` | server/repository/encoderSettings.go:69-93 | the maps after the write; invalid writes change nothing |
| `WorkerSettings.WritesAgree` | server/repository/encoderSettings.go:29-93 | one write keeps them alike |
| `WorkerSettings.SnapshotTakesTheFirst` | server/scheduler/workerControls.go:64-94 | a command carries the saved limits as they were written, without them those of the previous command, without both what the worker reports, and without any nothing that could be written back |
| `WorkerSettings.LastWriteIsRead` | server/repository/encoderSettings.go:29-93 | what was written last is what is read, zero limits included, and other workers are left alone |
| `WorkerSettings.ResumeIsLastPositive` | server/repository/encoderSettings.go:29-54 | what a resume restores is exactly the last positive write of that worker |
| `WorkerSettings.LastPositiveOf` | server/repository/encoderSettings.go:29-54 | only later positive limits of the same worker replace earlier ones |
| `WorkerSettings.StopResumeRoundTrip` | server/scheduler/workerControls.go:64-94 | a resume that was issued after some writes and is applied after more puts back the last positive limits of the time of issue and keeps them for the next resume; they are the last of all if and only if none, or the same ones, were saved in between |
| `RemoteControl.CommandSlot.AckWorkerControl` | server/repository/workerControls.go:87-101 | an acknowledgement reaches only the command it names |
| `RemoteControl.CommandSlot.ControlWorker` | server/scheduler/workerControls.go:64-94 | the snapshot comes from the saved limits, else the previous command, else the report; a resume needs one that can be written back |
| `RemoteControl.ServerCoordinator.ExecuteRemoteControl` | worker/worker/remoteControl.go:42-78 | a held worker refuses everything; pauses and job holds are exactly the worker operation they name, a stop or resume is exactly the mode change and the limit change it names, after the limits are saved; when the calls it needs work, a command fails if and only if it is refused |
| `RemoteControl.PromisedLimits` | worker/worker/remoteControl.go:55-77 | a successful stop leaves no limit in force and no RAM mode, a successful resume the limits of the command |
| `RemoteControl.PromisedPauses` | worker/worker/remoteControl.go:50-54 | a successful pause suspends every encode and those that start later, a resume lifts that again; a job is held or released with all its processes |
| `RemoteControl.ServerCoordinator.ApplyRemoteControl` | worker/worker/remoteControl.go:14-41 | a command that was just executed is not executed again; any other one is, and it is answered as applied only if all that it promises was done, as failed only if it was refused or a call it needs did not work; the answer repeats the remembered outcome |
| `RemoteControl.ServerCoordinator.ApplyLimits` | worker/worker/remoteControl.go:63-77 | success means that the limits of the command are in force |
| `RemoteControl.ServerCoordinator.Converge` | worker/worker/coordinator.go:163-181 | limits already in force are left alone; a failure changes neither fields nor pool |
| `RemoteControl.ServerCoordinator.SyncWorkerSettings` | worker/worker/coordinator.go:145-184 | convergence undoes no hold and no finish, and else ends with the saved limits in force |
| `RemoteControl.StepKeepsInv` | server/repository/workerControls.go:79-101 | each step keeps what the server shows equal to what happened |
| `RemoteControl.RunKeepsInv` | server/repository/workerControls.go:79-101 | the same over every run |
| `RemoteControl.HappenedStays` | worker/worker/remoteControl.go:14-41 | what a process executed stays on record across restarts |
| `RemoteControl.StaleAckChangesNothing` | server/repository/workerControls.go:87-101 | an acknowledgement of a superseded command never changes the newer one |
| `RemoteControl.ResumeCanOverwriteLaterLimits` | server/scheduler/workerControls.go:64-94 | from any state with an idle worker, limits saved between issue and delivery are overwritten |
| `RemoteControl.StopIsSaved` | worker/worker/remoteControl.go:55-67 | an executed stop saves zero limits and leaves what a later resume restores alone |
| `RemoteControl.RetiredForever` | worker/worker/remoteControl.go:14-25 | a command that is answered or superseded before it is polled is executed by no process, over any number of restarts |
| `RemoteControl.RestartMayRepeat` | worker/worker/remoteControl.go:14-24 | from any state with an idle worker a command can be executed by two processes in turn |
| `WindowStatistic.RankIsUnique` | scripts/av1_full_film_report.py:13-25 | a window has one element of a given rank |
| `WindowStatistic.SortedHasRank` | scripts/av1_full_film_report.py:13-25 | the sorted list of a window has its ranked element at that index |
| `WindowStatistic.CountsOfPermutation` | scripts/av1_full_film_report.py:13-25 | rank depends only on the multiset of values |
| `WindowStatistic.BisectLeft` | scripts/av1_full_film_report.py:21 | the leftmost position of a value |
| `WindowStatistic.Insort` | scripts/av1_full_film_report.py:22 | inserts and stays sorted |
| `WindowStatistic.Slide` | scripts/av1_full_film_report.py:21-22 | one removal and one insertion turn the sorted list of a window into that of the next |
| `WindowStatistic.NextIsEarliest` | scripts/av1_full_film_report.py:23-24 | the running minimum over one more window |
| `AdmissionSchedule.IncludesIsCovers` | worker/config/schedule.go:45-66 | looking at today and yesterday decides membership in the cyclic week exactly |
| `AdmissionSchedule.ParseSchedule` | worker/config/schedule.go:68-86 | all entries as windows, or nothing if one cannot be read |
| `AdmissionSchedule.InSomeWindow` | worker/config/schedule.go:44-54 | membership in the union of the windows |
| `AdmissionSchedule.ParseWindow` | worker/config/schedule.go:88-113 | the window that an entry stands for, or none |
| `AdmissionSchedule.ParsedWindowsAreWellFormed` | worker/config/schedule.go:88-113 | parsed windows are never empty and lie in the day |
| `AdmissionSchedule.WindowRoundTrip` | worker/config/schedule.go:88-157 | every window that is written down parses to itself |
| `AdmissionSchedule.ParseDays` | worker/config/schedule.go:115-142 | the days of a name, a range around the week, or all |
| `AdmissionSchedule.WeekdayIsRead` | worker/config/schedule.go:119-131 | every spelling of a weekday, in either case, stands for that day |
| `AdmissionSchedule.WeekdayRangeIsRead` | worker/config/schedule.go:119-142 | a range stands for the days from the first to the last around the end of the week |
| `AdmissionSchedule.WalkDays` | worker/config/schedule.go:134-141 | the wrapping loop ends and collects exactly the days from first to last |
| `AdmissionSchedule.ParseMinuteInvertsFormat` | worker/config/schedule.go:144-157 | parsing accepts exactly the canonical clock times and inverts their formatting |
| `OutputNaming.CandidatesDiffer` | server/scheduler/outputNaming.go:167-174 | different numbers give different names |
| `OutputNaming.SearchIsBounded` | server/scheduler/outputNaming.go:162-189 | the search ends no later than one name past the existing ones |
| `OutputNaming.SomeCandidateFits` | server/scheduler/outputNaming.go:162-189 | some candidate always fits |
| `OutputNaming.SearchIsStable` | server/scheduler/outputNaming.go:162-189 | a second search on the result finds the same name |
| `OutputNaming.FileSystem.Link` | server/scheduler/outputNaming.go:178-187 | a hard link never replaces a name |
| `OutputPublication.UploadJobStream.Commit` | server/scheduler/streams.go:89-106 | a staged file is never replaced; a repeated commit succeeds exactly with the same content |
| `OutputPublication.UploadJobStream.Clean` | server/scheduler/streams.go:135-146 | cleaning one attempt leaves what another one staged |
| `OutputPublication.Publisher.CopyUploadToDestinationFilesystem` | server/scheduler/outputNaming.go:89-127 | a legacy upload reaches the staging name whole or not at all |
| `OutputPublication.Publisher.Stage` | server/scheduler/scheduler.go:273-290 | the probed file is the upload |
| `OutputPublication.Publisher.PublishAndSave` | server/scheduler/scheduler.go:308-342 | the names and the record after a save that is applied, refused, or applied and reported as failed |
| `OutputPublication.Publisher.CompleteJob` | server/scheduler/scheduler.go:252-358 | a completion whose calls work saves a target that is the upload; a failed one can be repeated |
| `OutputPublication.Publisher.FinishJob` | server/scheduler/scheduler.go:291-358 | publication, save and cleanup of a probed upload |
| `OutputPublication.SaveSurvives` | server/scheduler/scheduler.go:333-342 | the upload survives the save if and only if it is not an applied update reported as failed, with nothing staged and a new final name |
| `OutputPublication.CleanSurvives` | server/scheduler/scheduler.go:343-355 | the upload survives the cleanup if and only if the staged file does not go while a different legacy file stays |
| `OutputPublication.CompletionChangesNothing` | server/scheduler/scheduler.go:308-355 | a completion that works and cleans up changes nothing if and only if nothing was staged and the record has the name already |
| `Completion.FencedCompletionIsNotStored` | server/repository/repository.go:656-677 | the completion of a worker that the server has fenced off is never stored |
| `OutputRecovery.StepKeepsInv` | server/scheduler/scheduler.go:252-358 | a step makes the next completion miss the upload if and only if it is one of the missing steps; every other step keeps the invariant |
| `OutputRecovery.StagingGoesOnlyWhenSaved` | server/scheduler/scheduler.go:343-355 | in such a run nothing is staged any more only if the saved target is the upload |
| `OutputRecovery.LegacyUploadCanWin` | server/scheduler/scheduler.go:343-355 | from every start with a different legacy upload: a stop between the two cleanups, and the next completion takes that one |
| `OutputRecovery.ReportedFailureCanMiss` | server/scheduler/scheduler.go:335-342 | from every start with a foreign file under the first final name: the first completion is saved and cleaned up, the foreign file goes, and the repeated completion is applied and reported as failed; the record then points nowhere |
| `OutputKept.StepIsKept` | server/scheduler/scheduler.go:252-358 | every step of every run keeps the content reachable, with the server owning the names it will remove |
| `OutputKept.FilesKeepTheirContent` | server/scheduler/outputNaming.go:86-127 | in every run only an unfinished temporary copy changes content |
| `OutputKept.FoundNameIsOurs` | server/scheduler/outputNaming.go:178-187 | an existing name that publication settles on is the server's own or the probed file |
| `OutputKept.UploadAgainRepairs` | server/scheduler/streams.go:89-106 | after a miss, uploading again makes the next completion safe if and only if no older upload has been staged since |
| `OutputKept.SafeStatesAreRecovered` | server/scheduler/scheduler.go:252-358 | from such a state on, all that holds of runs without a miss holds again |
| `ManagedUpdate.Disk.constructor` | update/managed/transaction.go:49-83 | before any update nothing is pending |
| `ManagedUpdate.Disk.SaveTransaction` | update/managed/state.go:59-89 | the journal is replaced whole or not at all |
| `ManagedUpdate.Disk.SavePending` | update/managed/state.go:57 | the barrier is replaced whole or not at all |
| `ManagedUpdate.Disk.CopyTree` | update/managed/transaction.go:84-108 | the loop copies every file, or a failure is reported |
| `ManagedUpdate.Disk.RestoreTree` | update/managed/transaction.go:151-165 | nothing is removed unless the backup verifies; success means the backup and the listed files exactly |
| `ManagedUpdate.Disk.Rollback` | update/managed/native_windows.go:661-695 | success means the old tree with its service answering; with a verified backup only a fault prevents it |
| `ManagedUpdate.Disk.AttemptRecovery` | update/managed/native_windows.go:621-654 | one attempt ends with the old tree and the journal saying so, or leaves the transaction to be recovered, also when the manager has withdrawn it; with a damaged backup and no fault the journal says recovering |
| `ManagedUpdate.Disk.RecoverInstallation` | update/managed/native_windows.go:616-659 | retries until the old tree is back; the journal says retrying only then |
| `ManagedUpdate.Disk.RecoverAfterError` | update/managed/native_windows.go:607-614 | an error during installation leads to recovery, never to a half new tree that counts as done |
| `ManagedUpdate.Disk.CompleteInstallation` | update/managed/native_windows.go:593-605 | completed is written only over a verified new tree whose service answered, and only then is the barrier cleared |
| `ManagedUpdate.Disk.VerifyAndComplete` | update/managed/native_windows.go:503-512 | the new tree is verified and completed, or the old one is restored |
| `ManagedUpdate.Disk.BackUp` | update/managed/native_windows.go:519-548 | the backup equals the installation, which is not touched |
| `ManagedUpdate.Disk.BackUpOrReport` | update/managed/native_windows.go:462-473 | a prepared transaction that cannot go on has changed nothing, and is reported as retrying behind the barrier |
| `ManagedUpdate.Disk.FollowExit` | update/managed/native_windows.go:567-590 | without a fault the exit and the tree of the installer alone decide: kept if it succeeded and verifies, left for the restart it asks for, rolled back otherwise |
| `ManagedUpdate.Disk.Install` | update/managed/native_windows.go:549-590 | from the journal saying installing on: every exit keeps the invariant, and without a fault a verified success ends completed with the barrier down, a wanted restart ends waiting for it, and anything else ends with the old tree |
| `ManagedUpdate.Disk.InstallPrepared` | update/managed/native_windows.go:519-549 | the same from a prepared transaction, whose backup is the tree it found; the journal is covered afterwards only if the manager was about to withdraw the transaction |
| `ManagedUpdate.Disk.RunHelper` | update/managed/native_windows.go:438-590 | a crash or failure at any call leaves a state from which the next run recovers; without a fault a run ends in the one way that phase, installer and restart decide; an interrupted installation is never completed; no active transaction means nothing is done |
| `ManagedUpdate.Disk.PlaceTransaction` | update/managed/native_windows.go:252-285 | a new transaction starts with the installation untouched; if the helper cannot be started the manager still has to withdraw it |
| `ManagedUpdate.Disk.Withdraw` | update/managed/native_windows.go:273-283 | the late write of retrying: what the journal promises of the tree is kept if and only if no helper has started to install |
| `ManagedUpdate.Disk.PrepareInstall` | update/managed/native_windows.go:252-285 | without a helper in between, a failed preparation leaves the installation untouched and nothing active |
| `ManagedUpdate.Disk.WithdrawnInstallation` | update/managed/native_windows.go:234-283 | a withdrawn installation can be left half done, for every tree, with no other fault: the journal is inactive, the record of the backup is gone and the helper does nothing |
| `ManagedUpdate.Disk.DamageBackup` | update/managed/transaction.go:151-154 | the invariant survives damage to the backup at any time |
| `UpdateManager.StepKeepsInv` | update/managed/manager.go:73-239 | a step leaves an active transaction without its barrier if and only if it is an exposing step; every other step of manager and helper, each single write of them, each crash and each failed write keeps the invariant |
| `UpdateManager.RunKeepsInv` | update/managed/manager.go:73-239 | the same over every run |
| `UpdateManager.ActiveTransactionCanLoseTheBarrier` | update/managed/native_windows.go:269-283 | both exposing steps can happen, for any two newer releases, also when the installation then fails |
| `UpdateManager.StepKeepsStarted` | update/managed/native_windows.go:273-283 | a started installation goes on, is completed or is rolled back in a step if and only if the step is not a manager writing over it |
| `UpdateManager.StartedInstallationCanBeLost` | update/managed/native_windows.go:234-283 | such an overlap can happen, for any newer release, and then no helper looks at the installation again |
| `UpdateManager.BarrierDropsOnlyWhenCompleted` | update/managed/manager.go:109-127 | a drop of the barrier follows a completed transaction of the pending target if and only if it is not a clear by the helper after another release was chosen |
| `UpdateManager.LateClearCanDropANewerBarrier` | update/managed/native_windows.go:593-605 | a late clear can happen, for any two newer releases |
| `UpdateManager.StepKeepsChoice` | update/managed/manager.go:137-162 | a step forgets or lowers the chosen release if and only if it is a forgetting step |
| `UpdateManager.ChosenOnce` | update/managed/manager.go:135-164 | a release is chosen exactly when it is newer or nothing that verifies is stored; one that is chosen already keeps its counted failures |
| `UpdateManager.UnreadableStateForgets` | update/managed/manager.go:85-88 | the chosen release can be forgotten: an unreadable state file is replaced after a restart |
| `UpdateManager.UnverifiedReleaseIsLowered` | update/managed/manager.go:139-147 | the chosen release can be replaced by an older one once it no longer verifies |
| `UpdateManager.RestartKeepsTheBarrier` | update/managed/manager.go:30-41 | a restarted manager has the barrier up in memory whenever the file or an active transaction asks for it, or the file cannot be read |
| `UpdateManager.InterruptedCommitIsFinished` | update/managed/manager.go:107-127 | a crash between journal and barrier is repaired by the next step |
| `UpdateManager.Manager.ReadFiles` | update/managed/manager.go:73-129 | reading both files is a run of the state machine; it goes on if and only if both can be read and no transaction is active or half committed, a half committed one is finished, and a file that cannot be read raises the barrier |
| `UpdateManager.Manager.CheckRelease` | update/managed/manager.go:129-170 | the release check is one step of the state machine; it goes on with the checked state, saved, exactly when the check and its save work |
| `UpdateManager.Manager.Act` | update/managed/manager.go:171-216 | draining, downloading and the saves of its progress are a run of the state machine; a release that is not pending or not due changes nothing, one that is not ready is put off, and a ready one proceeds |
| `UpdateManager.Manager.Download` | update/managed/manager.go:194-216 | the installer is here afterwards if and only if it was already, or the download could be reported and worked |
| `UpdateManager.Manager.SaveProgress` | update/managed/manager.go:201-211 | saves of the download progress, failed ones ignored, are steps of the state machine that change nothing but the file |
| `UpdateManager.Manager.StartHelper` | update/managed/manager.go:217-239 | while work is left the file says draining and the journal is untouched; with none left exactly the chosen release is placed, after the barrier is saved |
| `UpdateManager.Manager.Begin` | update/managed/manager.go:226-239 | the transaction is placed only after the barrier is saved |
| `UpdateManager.Manager.PrepareInstall` | update/managed/native_windows.go:252-285 | placing the transaction, withdrawing it after a failure and saving that failure are separate steps of the state machine, with exactly this effect on journal and file |
| `UpdateManager.Manager.Step` | update/managed/manager.go:73-239 | one whole step is a run of the state machine; the journal changes only for a release that is ready while no work is left, and then names exactly that release |
## Left out

- Pipeline.DrainTerminates: takes for granted that a running step returns; it proves that the steps of accepted work are bounded and that one of them is always possible.
- Pipeline.StepKeepsInv: channels between the phases are unbounded; their capacity of 20 and closing on stop are not modelled.
- EventLog.StaleContextNeverAppends: says nothing about the liveness of a worker whose publication is rejected for ever; it only never appends.
- EventLog.LogIsAFencingToken: covers the SQL repository; the append of the in-memory repository has no compare-and-set.
- EventLog.StepKeepsInv: the number of a worker never advances past an event that was rejected; this rests on the HTTP client, which repeats a request for ever.
- RemoteControl.ServerCoordinator.ExecuteRemoteControl: the validation of the action name and the text of errors are not modelled.
- WindowStatistic.WorstWindowP5: the rank is any valid index into a window; the rounding of five per cent of the window is floating point.
- AdmissionSchedule.AdmissionAllowedAt: weekday, minute and the existence of the time zone are inputs; time zones and daylight saving are not modelled, and entries come without surrounding blanks.
- OutputNaming.FileSystem.LinkOutputWithoutOverwrite: runs against an unchanging set of names; in the state machine of completion a link takes any fitting candidate, so that names may come and go during the search.
- OutputKept.UploadIsNeverLost: covers one assignment of a job; a requeue that changes the planned target is not part of the runs.
- OutputKept.NothingIsOverwritten: other programs make new files and remove only names that the server did not make; hard links of theirs to existing files are not made during a run.
- OutputPublication.UploadJobStream.Commit: equal checksums stand for equal contents.
- ManagedUpdate.Disk.SaveTransaction: a reported failure leaves the old file in place, and a stop leaves the old or the new one.
- ManagedUpdate.Disk.Supervise: the backup is changed by nobody else; with a damaged one the invariant still holds (`DamageBackup`) but recovery repeats for ever.
- ManagedUpdate.Disk.Meanwhile: the manager's late write comes between two steps of the helper, but not between the calls of one rollback, one backup or one verification; these do not touch the journal.
- ManagedUpdate.Disk.StopService: a stop that succeeds ends the manager; the state machine of the manager lets it go on all the same.
- ManagedUpdate.Disk.RunInstaller: writes to the installation directory only while the helper waits for it.
- AdmissionSchedule.ParseDays: of the letters outside ASCII only the two with a lower case inside it are lowered; no other one can appear in a day name.
- UpdateManager.StepKeepsInv: the installed version changes only while a helper works on a transaction that has started; a version that is changed by other means is not part of the runs.
- UpdateManager.StepKeepsChoice: the helper reads and rewrites the state file in one step; a save of the manager in between, possible only after a late withdrawal, would be lost.
- UpdateManager.StartedInstallationIsFinished: that the chosen release is the one installed is promised only without such an overlap.
- UpdateManager.Manager.Step: retry times and the check interval are inputs; the retry delays of 15 minutes, one hour and six hours are not modelled.
- PauseStates, SuspendedJobs and Suspended of the pause controller: read-only summaries of the process table.
- The legacy `tryStart`, `finish` and `runDynamicStepQueue` of the pool: not on the live path.
- Windows supervisor, service, pipe, ACL and mutex calls; the mutex appears only as "one helper at a time".
- Signatures, semantic versions and JSON decoding: a candidate verifies or not, versions are integers, a file can be read or not.
- HTTP handlers, authentication, dashboards, the tray and the browser code.
- SQL text and drivers apart from the compare-and-set append and the CASE updates of worker settings.
- FFmpeg, ffprobe, OCR and their argument building; the codec label in output names is part of the name stem.
- Library scan, batch registry, progress tracking, resource sampling and logging.
- First-in first-out order of the encoder queue: a slot released during a scan can let a later job start first.
