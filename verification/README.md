# A verified model of the root backup service

The repository drives BorgBackup from a root service that a desktop program controls over a socket. This project
models the parts of the service that decide something, in Dafny, and proves what those decisions guarantee.

* **Daemon** (`DaemonState`, `Daemon`, `DaemonRuns`, `DaemonInvariant`, `DaemonSteps`, `DaemonTheorems`, `DaemonMeaning`,
  `DaemonReach`, `DaemonCrash`, `DaemonWitness`).
  The scheduler thread, the worker thread and the socket handlers share `cfg`, `status`, `queue`, `current` and
  `next_runs` under one lock. Class `Daemon.Daemon` performs each lock region in place and is proved against a function
  on values; `DaemonRuns` interleaves these functions, together with the clock reads made outside the lock, into runs.
  The theorems are about every run: how often a schedule may start a job, that no schedule is lost, that work items are
  conserved and start in order, and when the client sees a success. `DaemonMeaning` says what each region does to records,
  queue and planned runs in terms of fields and clock times alone. `DaemonReach` puts single runs together, for
  `DaemonCrash` and `DaemonWitness` to show where these theorems end.
* **Schedule**, **Overlaps**. `compute_next_run` with its loop, clock texts, slot-days, and the early exit of the
  overlap search.
* **Planner**, **Plans**, **PlanContents**, **PlanOfAccepted**, **Backup**, **BackupTheorems**. Building the task list of one backup and
  executing it, for any result of the runner and any moment at which the stop event becomes set; the canary and the
  status record are carried through.
* **SysConfig**, **ConfigLaws**, **Validation**, **ConfigFields**, **ConfigStore**. Normalising, masking, restoring,
  validating and saving the configuration; `ConfigFields` spells out the defaults, limits and rules of every field.
* **Canary**, **LineReader**, **Ipc**, **Requests**. The canary file, the stderr line splitter, newline framing on the
  control socket, and the request loop with its granted actions.
* **Versions**, **Updates**. The version comparison and the cached update check.
* **Legacy**. Migrating flat include and exclude lists to per-source lists.
* **Text**, **Wrappers**. The string operations that the others need.

Times are whole microseconds on a naive local clock; the stamps in the status record are whole seconds, so comparing
their ISO texts is comparing numbers. A work item's random id is modelled as a fresh number.

## What turned out not to hold as such

* If a backup leaves the worker through its catch-all exit, the spacing of scheduled starts can break: exactly for the
  jobs that have a schedule there is a run with two starts at the same instant, the later one scheduled
  (`DaemonCrash.SpacingBreaksExactly`). Its job is forgotten, exactly if no next run was planned meanwhile, until the
  configuration is saved or the job is queued by hand (`DaemonTheorems.UnrecordedEndForgetsJob`,
  `DaemonTheorems.ForgottenStaysForgotten`); every job with a schedule has such a run (`DaemonWitness.FailureForgetsJob`).
  The theorems on runs therefore speak of jobs whose backups all ended through `_finish_backup`.
* Shutting down drops queued backups, and a job whose scheduled backup is dropped is left without a next run
  (`DaemonWitness.ShutdownForgetsJob`). No other schedule is lost, also while the daemon shuts down
  (`DaemonTheorems.NoScheduleIsLost`); the step that empties the queue leaves a job forgotten exactly if no run is planned
  for it and it is not running (`DaemonTheorems.ClearQueueForgetsJob`).
* The reference time of a job is cut to the second, so two scheduled interval starts are more than the interval minus
  one second apart, but a full interval for certain exactly if the earlier one was at a whole second
  (`DaemonWitness.FullIntervalExactly`).
* The client's success test is wrong exactly when a failed run started in the second in which the previous success was
  stamped (`DaemonTheorems.SuccessIsSeen`), which can happen to every job (`DaemonWitness.FailureSeenAsSuccess`).
* Saving the configuration that was read back is a no-op exactly when no job has a blank schedule time; a blank one
  becomes 03:15 (`ConfigStore.SavingReadBack`). Normalisation leaves such a time blank, and validation accepts it
  (`ConfigStore.ReadBackChanges`).
* The validator looks at `storage` before `local_path`, the planner of local, usb, smb and nfs backups the other way
  round. Once `storage` is set, `local_path` is not checked (`PlanOfAccepted.LocalPathIsNotChecked`); the plan keeps what
  was checked (an absolute path, no "..", no control characters) exactly unless both are set and `local_path` would not
  have passed (`PlanOfAccepted.CheckedRepositoryIsPlanned`, `PlanOfAccepted.PlannedIsPrintable`).
* Reading a stream of lines is independent of chunking exactly if every line, without its line feed, leaves room in
  MAX_MESSAGE_BYTES for the line feed and the bytes behind it, of which at most 65536 in all arrive with one chunk
  (`Ipc.ReadingIgnoresChunking`, and `Ipc.FirstLineReadExactly` for one line). Lines of up to MAX_MESSAGE_BYTES - 65536
  bytes always fit (`Ipc.ShortLinesFit`).
* After a downgrade of the program, the cached update check can offer an update without its package
  (`Updates.DowngradeLosesThePackage`, with the calls that lead there in `Updates.DowngradeHappens`); the cached answer is
  the fresh one exactly unless that happened (`Updates.CachedAnswerIsFresh`).
* The canary checker accepts what was written exactly when no further line of the job name starts with `SHA256:`
  (`Canary.WrittenIsAccepted`; `Canary.MarkedNameIsRefused` has an example); names that pass validation have one line only.

## Model

| member | source | states |
|---|---|---|
| `DaemonTheorems.DailyStartsInLaterSlotDays` | borg_daemon.py:273-301 | in every run a scheduled daily start lies in a strictly later slot-day than every earlier start of that job, manual or scheduled, whatever its outcome and even across configuration changes |
| `DaemonTheorems.IntervalStartsAreSpaced` | borg_daemon.py:246-301 | in every run a scheduled interval start comes at least the interval after the stamp of every earlier start of that job |
| `DaemonTheorems.TickRespectsReference` | borg_daemon.py:246-259 | whatever the tick queues, the later of last start and last success is at least the interval, or a whole slot-day, old |
| `DaemonTheorems.TickQueuesExactlyTheDue` | borg_daemon.py:280-292 | a tick queues a job that is not busy exactly when it is due and not missed by more than the grace time without catch-up |
| `DaemonMeaning.TickPlans` | borg_daemon.py:280-290 | after a tick a job that was not due, or busy, keeps its planned run; a queued one has none; one missed by more than 600 s without catch-up gets the first HH:MM after now + 1 s, or the first reference + k * interval after that, or now + 6 s without a reference |
| `DaemonMeaning.TickAppends` | borg_daemon.py:290-292 | the tick appends fresh scheduled backups in the order of the configuration and changes nothing that was queued or accepted |
| `DaemonMeaning.RecomputePlans` | borg_daemon.py:261-271 | every selected job gets the next run from its reference, the others keep theirs, and a name that is not configured has none |
| `DaemonMeaning.ReferenceIsTheLater` | borg_daemon.py:246-249 | the reference time is the later of the two stamps, or the one there is |
| `DaemonMeaning.EnqueueAppends` | borg_daemon.py:303-324 | a submitted item is refused exactly if it is a backup of a job with a queued or running backup, and else becomes the last of the queue, with nothing else changed |
| `DaemonMeaning.CancelTakesTheFirst` | borg_daemon.py:326-343 | unless the running item is meant, the first queued match goes, the rest stays in order, and if it was a backup its job and no other is planned anew |
| `DaemonMeaning.BeginRunRecords` | borg_daemon.py:404-411 | the start writes the second it happened in and clears the error of this job, and nothing else |
| `DaemonMeaning.FinishRecords` | borg_daemon.py:528-545 | the end writes exit code and error, the second it happened in only on success, and plans this job from its new reference, and no other |
| `DaemonMeaning.SavePlansAll` | borg_daemon.py:783-785 | after saving every configured job is planned anew, no other name has a plan, and queue and records stay |
| `DaemonMeaning.WorkerMovesItems` | borg_daemon.py:345-368 | the head of the queue becomes the current item, and letting go leaves queue, plans and records alone |
| `DaemonMeaning.ShutdownStops` | borg_daemon.py:940-947 | after the flag nothing is taken, every queued item is dropped, and only the running item meant is stopped |
| `DaemonTheorems.NoScheduleIsLost` | borg_daemon.py:261-301 | in every state of every run, shutting down or not, a configured job with a schedule has a next run or a backup queued or running, unless shutting down has dropped a queued backup of this job |
| `DaemonTheorems.ClearQueueForgetsJob` | borg_daemon.py:942-945 | emptying the queue leaves a job forgotten exactly if no run is planned for it and it is not running |
| `DaemonTheorems.AcceptedRule` | borg_sysconfig.py:339-342 | a schedule that passes validation is without next run only if it is manual |
| `DaemonTheorems.UnrecordedEndForgetsJob` | borg_daemon.py:357-368 | a backup that leaves through the catch-all exit leaves its job without next run and without queued backup, exactly if no run was planned meanwhile |
| `DaemonTheorems.ForgottenStaysForgotten` | borg_daemon.py:326-368 | and no later action except saving the configuration or queueing the job brings it back |
| `DaemonTheorems.OneBackupPerJob` | borg_daemon.py:303-306 | at most one backup of a job is queued or running, over every interleaving |
| `DaemonTheorems.ItemsAreConserved` | borg_daemon.py:317-368 | every accepted item is in exactly one of queued, running, finished, cancelled while queued, dropped by shutdown |
| `DaemonTheorems.StartsInSubmissionOrder` | borg_daemon.py:345-356 | items start in the order of submission, with cancelled and dropped ones left out |
| `DaemonTheorems.CancelTouchesOneItem` | borg_daemon.py:326-343 | cancelling the running item leaves the queue as it is; otherwise exactly one matching item goes, or not_found is reported |
| `DaemonTheorems.SuccessIsSeen` | borg_backup_gui.py:1041-1043 | the client's test equals the daemon's success flag, exactly except when a failed run started in the second of the previous success |
| `DaemonTheorems.SuccessStampsTheEnd` | borg_daemon.py:528-541 | in every step the success stamp of a job changes on a recorded success only, to the end of that backup |
| `DaemonTheorems.LastSuccessNeverDecreases` | borg_daemon.py:528-545 | over every run the success stamp of a job never goes back |
| `DaemonCrash.UnrecordedEndBreaksSpacing` | borg_daemon.py:357-361 | for every accepted job with a schedule there is a run with two starts at the same instant, the later one scheduled |
| `DaemonCrash.ManualIsNeverScheduled` | borg_daemon.py:273-301 | in no run is anything queued by schedule for a job without one |
| `DaemonCrash.SpacingBreaksExactly` | borg_daemon.py:357-361 | so the jobs whose spacing can break are exactly those with a schedule |
| `DaemonWitness.IntervalStartsCanBeCloser` | borg_daemon.py:246-249 | for every interval job and first start there is a run without failures whose scheduled second start comes too early by the fraction of a second of the first one |
| `DaemonWitness.FullIntervalExactly` | borg_daemon.py:246-249 | every later scheduled start is a full interval after a given start, in every recorded run, exactly if that start was at a whole second |
| `DaemonWitness.FailureForgetsJob` | borg_daemon.py:357-368 | every job with a schedule is forgotten in some run, without a shutdown, after the catch-all exit |
| `DaemonWitness.ShutdownForgetsJob` | borg_daemon.py:940-947 | and in some run without a failure, after a shutdown dropped its scheduled backup |
| `DaemonWitness.FailureSeenAsSuccess` | borg_backup_gui.py:1041-1043 | every job has a run at whose end the client takes a failed backup for a success |
| `DaemonSteps.ActionKeepsInv` | borg_daemon.py:246-368 | every lock region, and every clock read outside the lock, keeps the invariant behind these theorems |
| `DaemonSteps.InitInv` | borg_daemon.py:128-157 | a daemon that has just loaded its files satisfies it |
| `Daemon.Daemon.constructor` | borg_daemon.py:128-157 | a fresh daemon has an empty queue and the recomputed schedule |
| `Daemon.Daemon.RecomputeSchedule` | borg_daemon.py:261-271 | next runs of the selected jobs are computed anew, those of unknown names dropped |
| `Daemon.Daemon.SchedulerTick` | borg_daemon.py:273-301 | the tick in place equals the tick on values, only appends to the queue, returns the names of what it appended, and for every job the planned run afterwards is the old one, none, or the first slot or step after the next second, as `TickPlans` says |
| `Daemon.Daemon.Enqueue` | borg_daemon.py:317-324 | refuses a second backup of a job, otherwise appends the item |
| `Daemon.Daemon.Cancel` | borg_daemon.py:326-343 | stops the running item or removes the first matching queued one and plans its job again |
| `Daemon.Daemon.Pop` | borg_daemon.py:345-356 | takes the head of the queue |
| `Daemon.Daemon.BeginRun` | borg_daemon.py:404-411 | records the start of a run |
| `Daemon.Daemon.FinishBackup` | borg_daemon.py:528-545 | records the outcome and plans the job again |
| `Daemon.Daemon.Leave` | borg_daemon.py:357-368 | the worker lets go of its item, recorded or not |
| `Daemon.Daemon.SaveConfig` | borg_daemon.py:783-785 | replaces the jobs and plans all of them |
| `Daemon.Daemon.RaiseFlag` | borg_daemon.py:940-941 | the flag is raised before the lock is taken |
| `Daemon.Daemon.ClearQueue` | borg_daemon.py:942-945 | empties the queue, keeps everything else, and returns the running item |
| `Daemon.Daemon.StopItem` | borg_daemon.py:946-947 | stops that item if it is still running |
| `Schedule.ComputeNextRun` | borg_model.py:228-269 | the source's function with its loop: none for a manual job, five seconds from now exactly when a missed run is caught up on or an interval job never ran, and else the first HH:MM, or the first reference + k * interval (k at least 1), after now |
| `Schedule.NextRunBounds` | borg_model.py:228-269 | a next run is strictly later than now, daily at most 24 hours ahead, interval at most the interval ahead |
| `Schedule.DailyIsFirstSlot` | borg_model.py:245-255 | without catch-up a daily run is at the first slot after now, for any offset; which offset HH:MM means is `DailyRule` |
| `Schedule.NextRunIs` | borg_model.py:245-267 | the calculated next run meets a description that names no calculation: least time after now with the time of day, or on the grid of steps, or five seconds from now exactly when catching up |
| `Schedule.NextRunIsUnique` | borg_model.py:228-269 | only one answer meets that description |
| `Schedule.DailyRule` | borg_model.py:245-250 | HH:MM means that many hours of 3 600 and minutes of 60 seconds after midnight |
| `Schedule.DailyRunsAtClockTime` | borg_model.py:245-255 | for every accepted HH:MM, a daily job that is not caught up on runs at the first HH:MM after now |
| `Schedule.IntervalRule` | borg_model.py:257-258 | the interval counts hours; 0 stands for 3 and a negative one for 1 |
| `Schedule.QuarterPastThree` | borg_daemon.py:255-255 | the default 03:15 is 11 700 seconds after midnight |
| `Schedule.StampIsWholeSecond` | borg_daemon.py:404-411 | a stamp is the whole second that contains the time |
| `Schedule.DigitsParse` | borg_model.py:214-225 | digits around a colon are read as hour and minute exactly if they are below 24 and 60 |
| `Schedule.IntervalIsLeastStep` | borg_model.py:257-267 | without catch-up an interval run is the least reference + k * interval, k at least 1, after now |
| `Schedule.NextRunIsClear` | borg_model.py:245-267 | a next run is a whole slot-day or interval away from the reference time |
| `Schedule.AcceptedTimeParses` | borg_model.py:214-225 | every time that `_TIME_RE` accepts parses to an hour and minute in range |
| `Overlaps.FindScheduleOverlaps` | borg_model.py:272-287 | the loop with its early exit returns the same list as comparing all pairs |
| `Overlaps.OverlapsExactly` | borg_model.py:272-287 | an overlap is reported exactly for two planned runs whose rounded distance is within the window |
| `Overlaps.RoundsToNearest` | borg_model.py:283-283 | the distance is rounded to the nearest minute, halves to the even one |
| `Overlaps.NamedAre` | borg_model.py:279-279 | only entries with a name and a next run take part |
| `Overlaps.NothingAfterTheWindow` | borg_model.py:281-285 | after the first pair outside the window, no later one is inside |
| `Overlaps.SortIsStable` | borg_model.py:276-279 | sorting orders by time, keeps all entries, and keeps the order of equal ones |
| `Planner.ResolveTargets` | borg_engine.py:194-219 | one target per destination id, in order, or the first failure; no destination at all is an error |
| `Planner.SplitSources` | borg_engine.py:308-318 | succeeds exactly when all sources are absolute, and splits the stripped, duplicate-free sources by existence, in order |
| `Planner.SourcesArePartitioned` | borg_engine.py:308-318 | available and missing sources are free of duplicates, disjoint, and together the configured set |
| `Plans.PlanBackup` | borg_engine.py:289-386 | succeeds exactly on the stated inputs and names the reason otherwise; the tasks are laid out as `MaintenanceFollowsInOrder` says, and check and compact run exactly if enabled and without a stamp or more than the interval of weeks after it |
| `Plans.BuildTasks` | borg_engine.py:337-375 | one create per target, then one group per maintained target: at n + t * size stand its prune, check and compact task, in this order, each exactly if wanted, and nothing else |
| `Plans.UpkeepAt` | borg_engine.py:362-375 | maintenance task k of target t stands at its place, with the due kinds as the only ones |
| `Plans.PlannedIsWellShaped` | borg_engine.py:337-375 | every plan has one create per target first, in target order, and only maintenance of its targets after them |
| `Plans.MaintenanceFollowsInOrder` | borg_engine.py:362-375 | the tasks of a plan: a create per target, then for all targets, or only the first one unless all are maintained, prune before check before compact, each exactly if enabled or due, and no other task |
| `Plans.EveryTaskHasItsPlace` | borg_engine.py:362-375 | each task after the creates is the one wanted prune, check or compact of one maintained target, at the position that its kind determines |
| `Plans.DueAfterWeeks` | borg_engine.py:246-252 | a maintenance is due without a stamp, and else exactly when more than its weeks, at least one, have passed |
| `PlanContents.TargetIs` | borg_engine.py:194-219 | a target is made of the first destination with its id and the first account behind it; its repository is not empty and no option |
| `PlanContents.FirstDestinationIsFound` | borg_engine.py:194-203 | lookups by id or name take the first match |
| `PlanContents.RepositoryIs` | borg_model.py:347-363 | the repository of each account type: storage, local path first, bucket marked s3: once, or a directory below the mount point |
| `PlanContents.ArchiveHolds` | borg_engine.py:308-361 | what is archived: exactly the configured sources that exist and the canary file; excluded are exactly the non-blank stripped exclusions and the two own directories |
| `PlanContents.CanaryIsPlanned` | borg_engine.py:328-356 | with the canary on, its path, pattern and hash; with it off, none |
| `PlanContents.MissingAreReported` | borg_engine.py:308-318 | missing are exactly the configured sources that do not exist |
| `PlanContents.BadNames` | borg_engine.py:233-236 | which archive names are refused |
| `PlanOfAccepted.PlanOfAcceptedJob` | borg_engine.py:194-219 | with an accepted configuration planning fails only for want of a destination, a repository, an available source, or a usable archive name |
| `PlanOfAccepted.TargetResolves` | borg_mounts.py:29-35 | per destination type, which accepted destinations have a usable repository |
| `PlanOfAccepted.LocalPathIsNotChecked` | borg_sysconfig.py:308-316 | once `storage` is set, any `local_path` is accepted, and for local, usb, smb and nfs accounts it decides the target of the plan; for ssh and s3 it does not matter |
| `PlanOfAccepted.CheckedRepositoryIsPlanned` | borg_model.py:347-363 | when the planned repository keeps what was validated: a local one is absolute, a mounted one free of "..", exactly unless both fields are set and `local_path` would not have passed |
| `PlanOfAccepted.PlannedIsPrintable` | borg_sysconfig.py:309-311 | the same for control characters: ssh and s3 repositories never have any, local and mounted ones exactly if both fields are set and `local_path` has some |
| `Backup.BackupRun.RunTasks` | borg_daemon.py:432-471 | exactly the tasks before the first stop or stopped maintenance are run; results are aligned with a prefix of the targets; the canary is checked once, after the last create |
| `Backup.BackupRun.VerifyCanary` | borg_daemon.py:491-515 | the record gets the verdict over exactly the targets whose create succeeded, or stays as it is if there is none |
| `Backup.BackupRun.RunBackup` | borg_daemon.py:404-489 | for every course of events and every answer of the planner: exit code, success flag and error; in the record the start, outcome and success stamps, the check and compact stamps exactly if such a task of the primary destination was reached and went well, and the canary exactly if it was due; a refused plan changes neither maintenance stamps nor canary |
| `Backup.RecordMoves` | borg_daemon.py:461-471 | the check stamp moves, to the end of the tasks, exactly if some check task with the id of the primary destination was reached and its result was good, and the compact stamp likewise |
| `Backup.LastStoredIs` | borg_daemon.py:499-515 | the verified hash is the one stored in the last text that could be extracted |
| `Backup.BackupRun.FinishBackup` | borg_daemon.py:528-541 | the outcome is recorded, the success stamp only on success |
| `Backup.SumUp` | borg_daemon.py:473-488 | the exit code from the results: -2 stopped, -1 none, 2 some failed, 1 or 0 all good |
| `Backup.SummaryIsOutcome` | borg_daemon.py:473-489 | 0 or 1 exactly if no stop and all targets good, 2 exactly if some failed without a stop, success exactly if some is good without a stop, and "Kein Ziel" is unreachable |
| `Backup.UnstoppedRunsAll` | borg_daemon.py:435-471 | without a stop every create is run, and with an honest runner every task |
| `Backup.SomeTargetIsGood` | borg_daemon.py:494-496 | there is nothing to verify exactly when no create succeeded |
| `BackupTheorems.PlanAndRun` | borg_daemon.py:404-489 | mounting, planning and running composed: exit code -1 exactly when an account is not mounted or planning fails, and otherwise the outcome above for the plan that was made; the record moves as in `RunBackup` |
| `BackupTheorems.GoodTargetsExactly` | borg_daemon.py:494-494 | the targets verified are exactly those whose create succeeded |
| `BackupTheorems.GoodMeans` | borg_engine.py:96-98 | a result is good exactly with exit code 0 or 1, not stopped, and started without an error |
| `BackupTheorems.CanaryRecords` | borg_daemon.py:491-515 | what a verification records: ok exactly if every extraction ended with 0 and its text vouches for itself and for this run, and the hash of the last text that could be extracted |
| `BackupTheorems.OneExtractionEach` | borg_daemon.py:494-503 | there are as many extractions as good creates |
| `BackupTheorems.StopEndsTheLoop` | borg_daemon.py:435-464 | no task starts after the stop event is set, and only that or a stopped maintenance task ends the loop early |
| `BackupTheorems.CanaryVouches` | borg_daemon.py:499-515 | a canary result "ok" means that every good target gave back exactly the content written for this run |
| `BackupTheorems.CanaryOfAcceptedJob` | borg_engine.py:255-286 | and for an accepted configuration it is "ok" whenever the good targets give back the written file |
| `BackupTheorems.StampMovesExactly` | borg_daemon.py:461-471 | however far a backup came, a stamp moves exactly when that maintenance was due and its task, at its place in the group of the primary target or of a maintained one with the same id, was reached and went well |
| `BackupTheorems.RecordRefinesEntry` | borg_daemon.py:407-411 | running a backup changes the record as the daemon's start and finish steps say |
| `Validation.Validate` | borg_sysconfig.py:262-343 | the errors are exactly the broken rules, and there are none exactly for accepted configurations |
| `ConfigFields.AcceptedIsValid` | borg_sysconfig.py:262-343 | an accepted configuration is exactly one whose accounts, destinations and jobs each have what is spelt out: own ids, known types, what the type needs, allowed repositories, absolute sources, a readable schedule |
| `ConfigFields.CompressionIs` | borg_sysconfig.py:57-59 | the accepted compressions: none, or an algorithm with a level of limited digits, perhaps after auto, |
| `ConfigStore.AcceptedIdsAreUnique` | borg_sysconfig.py:266-325 | accepted configurations have unique account ids, destination ids and job names |
| `ConfigStore.AcceptedSchedules` | borg_sysconfig.py:317-342 | they meet what the theorems about runs ask of a configuration |
| `ConfigStore.ScheduledAsConfigured` | borg_daemon.py:251-259 | the interval of hours, or HH:MM, of a configured job is the rule it is scheduled by |
| `ConfigStore.MaskSecrets` | borg_sysconfig.py:346-352 | the masking loops change exactly the non-empty secrets |
| `ConfigStore.RestoreMaskedSecrets` | borg_sysconfig.py:355-364 | the restoring loops replace exactly the masked secrets, from the last stored account with the id |
| `ConfigFields.RestoringReplacesMasks` | borg_sysconfig.py:355-364 | a masked secret gets the stored one, and no other field changes |
| `ConfigFields.MaskIsBullets` | borg_sysconfig.py:346-352 | a secret that is set is shown as eight bullets, everything else as it is |
| `ConfigFields.StoredSecretIs` | borg_sysconfig.py:358-363 | which is that of the last stored account with the id, or empty |
| `ConfigStore.Store.GetConfig` | borg_daemon.py:763-766 | shows the masked configuration |
| `ConfigStore.Store.SaveConfig` | borg_daemon.py:768-788 | restores, normalises, validates and imports; replaces the configuration or leaves it and reports exactly the broken rules |
| `ConfigStore.SavedIsAccepted` | borg_daemon.py:773-784 | whatever is saved, the stored configuration is normal and accepted |
| `ConfigStore.SavingReadBack` | borg_daemon.py:763-788 | saving what was read back is accepted, and a no-op exactly when no schedule time is blank |
| `ConfigStore.ReadBackChanges` | borg_sysconfig.py:214-240 | for every valid job name, a configuration that normalisation produces, validation accepts, and saving as read changes |
| `ConfigLaws.NormalizedIsNormal` | borg_sysconfig.py:182-255 | what normalisation guarantees of every field, for any input |
| `ConfigFields.BareJob` | borg_sysconfig.py:214-240 | a job of which nothing is given: lz4, manual, 03:15, three for each number, catching up and checking on, pruning and compacting off |
| `ConfigFields.JobFlags` | borg_sysconfig.py:233-238 | each flag of a job: its default when missing (catching up and checking true, pruning and compacting false), and else the truth of the value |
| `ConfigFields.ConfigParts` | borg_sysconfig.py:243-255 | the canary switch is on when missing, the other two are off; items that are not objects are left out |
| `ConfigFields.JobNumbers` | borg_sysconfig.py:174-179 | numbers and texts that int reads are moved into 1..168 or 1..52, anything else gives 3 |
| `ConfigFields.JobTexts` | borg_sysconfig.py:214-231 | the texts of a job are stripped, the schedule type in lower case, with the literal defaults for missing and empty ones |
| `ConfigFields.SourcesAre` | borg_sysconfig.py:193-211 | the sources are the items with a path, in order, and only without any the flat lists or the root |
| `ConfigFields.FlatListsAre` | borg_sysconfig.py:214-227 | the flat lists and the destination ids of a job |
| `ConfigFields.StripAllJoins` | borg_sysconfig.py:203-207 | lists are stripped item by item, in order |
| `ConfigFields.DestinationTexts` | borg_sysconfig.py:247-251 | all fields of a destination are stripped, missing ones empty |
| `ConfigFields.AccountTexts` | borg_sysconfig.py:182-190 | secrets are kept as given, other fields are stripped, a blank type is ssh |
| `ConfigFields.AccountPort` | borg_sysconfig.py:189-189 | the port is in 1..65535, and 23 if it cannot be read |
| `ConfigFields.DecimalReads` | borg_sysconfig.py:174-179 | a number shown as text is read back as itself |
| `ConfigLaws.NormalizeAgain` | borg_sysconfig.py:182-255 | normalising a normal form only fills in blank compression, schedule type and schedule time |
| `ConfigLaws.NormalizeIsIdempotent` | borg_sysconfig.py:243-255 | idempotent exactly without blank fields, stable after two passes |
| `ConfigLaws.BlankMeansWhiteSpace` | borg_sysconfig.py:214-240 | a field is blank exactly when it was given as white space only |
| `ConfigLaws.RestoreUndoesMask` | borg_sysconfig.py:346-364 | restoring undoes masking exactly when each account's id leads to its own secrets |
| `ConfigLaws.UniqueIdsFindTheirSecrets` | borg_sysconfig.py:355-364 | which unique ids guarantee |
| `ConfigLaws.SavingUnmodified` | borg_daemon.py:763-773 | restoring and normalising what was shown gives the stored configuration with its blanks filled |
| `SysConfig.NormalizeJobSources` | borg_sysconfig.py:193-211 | the loop over the sources with its fallback to the flat lists |
| `SysConfig.FlattenSources` | borg_sysconfig.py:214-227 | the include and exclude lists are the duplicate-free paths and rules of the sources |
| `Canary.CheckCanaryContent` | borg_engine.py:268-286 | the checker's loop equals its specification |
| `Canary.FileReads` | borg_engine.py:255-265 | the canary file, character by character: header, profile, timestamp and the hash of these three lines |
| `Canary.StoredIs` | borg_engine.py:272-276 | the stored hash is the stripped rest of the last line that starts with SHA256: |
| `Canary.DataSkipsMarks` | borg_engine.py:272-278 | and the data are all other lines, in order |
| `Canary.VerdictIs` | borg_engine.py:268-286 | which of the five verdicts a text gets, as conditions on its stored hash and its data |
| `Canary.AcceptedIsWritten` | borg_engine.py:268-286 | with an injective hash, acceptance means exactly that the lines without hash are the written content |
| `Canary.WrittenIsAccepted` | borg_engine.py:255-286 | the checker accepts what the writer wrote, with its hash, exactly when the job name has no further line that looks like a hash line |
| `Canary.ValidNameIsAccepted` | borg_sysconfig.py:325-326 | which holds for every validated name |
| `Canary.MarkedNameIsRefused` | borg_engine.py:255-286 | a name of two lines, the second a bare hash mark, for which the checker refuses what was written |
| `LineReader.Sink.ReadStream` | borg_engine.py:522-537 | for every chunking the emitted lines are the non-blank pieces of the whole text |
| `LineReader.Sink.Emit` | borg_engine.py:515-520 | the tail stays the end of the emitted lines, of the stated length |
| `LineReader.TailLength` | borg_engine.py:515-518 | all of the first 101 lines, then at least 101 and at most 200 |
| `LineReader.PiecesGoOn` | borg_engine.py:479-481 | splitting can be resumed from the last piece |
| `LineReader.PiecesAre` | borg_engine.py:479-481 | the text is its pieces with one CR or LF between each two, and no piece holds either |
| `Ipc.LineSocket.ReadMessage` | borg_ipc.py:133-145 | one read, and the bound on the buffer |
| `Ipc.ReadingIgnoresChunking` | borg_ipc.py:133-145 | for every chunking reading returns exactly the lines of the stream in order, if and only if all lines fit |
| `Ipc.FirstLineReadExactly` | borg_ipc.py:133-145 | one line is read under every chunking exactly if it fits, given the number of bytes behind it |
| `Ipc.NoFeedNoMessage` | borg_ipc.py:133-145 | bytes without a line feed give the end of the stream, or are refused exactly above 8 388 608 of them |
| `Ipc.ShortLinesFit` | borg_ipc.py:25-25 | lines of up to MAX_MESSAGE_BYTES - 65536 bytes fit whatever follows |
| `Ipc.MessagesArriveInOrder` | borg_ipc.py:124-145 | encoded messages that fit arrive as they were sent, under every chunking |
| `Ipc.LongerLineCanFail` | borg_ipc.py:139-140 | for every line that does not fit, given what follows, a chunking under which it is refused |
| `Requests.Serve` | borg_ipc.py:174-207 | the request loop answers in order and asks for an action only if it was not granted before |
| `Requests.RepliesAre` | borg_ipc.py:183-207 | which reply a request gets, with its own id: unknown, unauthorized exactly if its permission was never allowed up to then, subscribed, or handled |
| `Requests.PermissionsAre` | borg_ipc.py:35-53 | which methods need which action |
| `Requests.HandledExactlyWhenGranted` | borg_ipc.py:190-197 | a known request is let through exactly when its action was granted for it or an earlier one |
| `Requests.NotAskedTwice` | borg_ipc.py:190-195 | a granted action is never asked for again |
| `Versions.NewerIsAsymmetric` | borg_updates.py:96-109 | the comparison is irreflexive and asymmetric |
| `Versions.NewerIsTransitive` | borg_updates.py:96-109 | and transitive across different numbers of components |
| `Versions.NotNewerIsTransitive` | borg_updates.py:96-109 | not newer is a total preorder |
| `Versions.TrailingZeroIsIgnored` | borg_updates.py:96-109 | a trailing ".0" never changes the answer |
| `Versions.NewerByNumbers` | borg_updates.py:96-109 | newer means that at the first position where the decimal values of the leading digits differ, missing ones counting 0, the first version has the larger one; one leading v and outer white space do not matter |
| `Versions.EveryTextSpells` | borg_updates.py:96-109 | and this describes every text |
| `Versions.TenIsNewerThanNine` | borg_updates.py:96-109 | 1.10 is newer than 1.9 |
| `Updates.Updater.CheckForUpdate` | borg_updates.py:264-368 | one check, cached or fetched, equals its specification on state, cache and sent requests; what the answers are is said by the lemmas below |
| `Updates.ReleaseIsOffered` | borg_updates.py:296-333 | a release is offered with its package exactly when it is newer, after leading v and V are dropped, than what is installed |
| `Updates.LimitLastsUntilReset` | borg_updates.py:164-177 | a rate limit lasts exactly until the reset time that the server names, or one hour if that is not in the future |
| `Updates.FailureIsTold` | borg_updates.py:299-370 | any other answer is a failure with its reason, the time of the check, and no limit |
| `Updates.WhenARequestIsSent` | borg_updates.py:264-294 | a request is sent exactly when no limit lasts and it is forced or no usable answer is less than six hours old |
| `Updates.FailureIsRepeated` | borg_updates.py:224-261 | a cached failure is told again unchanged |
| `Updates.RequestsKeepTheirDistance` | borg_updates.py:264-310 | over any calls and restarts, whatever version is installed, no request comes before a stored rate limit has passed, and no unforced one within six hours |
| `Updates.CachedAnswerIsFresh` | borg_updates.py:224-261 | when a cached success is the answer a fetch of the same release would give |
| `Updates.OrderlyAnswersAreFresh` | borg_updates.py:224-368 | which is always so, over calls and restarts, while the installed version does not decrease; an offer then has its package |
| `Updates.DowngradeLosesThePackage` | borg_updates.py:224-261 | and after a downgrade it can fail |
| `Updates.DowngradeHappens` | borg_updates.py:224-368 | for every release between two installed versions: the calls after which an offer has no package |
| `Updates.DowngradeFromTwoToOne` | borg_updates.py:96-109 | with version 2 released and installed, and then version 1, for example |
| `Updates.Updater.Restart` | borg_updates.py:146-153 | a new process starts with fresh state and the cache file of the last one |
| `Legacy.SyncSourcesToFlat` | borg_model.py:612-630 | the flat lists are the stripped paths, or the root, and the stripped excludes of all sources, each once and in order |
| `Legacy.SourcesFromLegacy` | borg_model.py:553-581 | one source per include, with the excludes assigned to it |
| `Legacy.OwnerIsLongestMatch` | borg_model.py:563-578 | an exclude goes to a matching include that no longer match beats, otherwise to root or the first include |
| `Legacy.AssignedExactly` | borg_model.py:563-578 | each include gets exactly the excludes it owns |
| `Legacy.AssignedInTwoParts` | borg_model.py:563-578 | first those that lie in it, then, for the root or else the first include, those that lie in none |
| `Legacy.CoversMeans` | borg_model.py:567-569 | what lies in a drive: itself, and paths and patterns below it, whatever slashes it ends with |
| `Legacy.MigrationConservesRules` | borg_model.py:553-630 | migrating and flattening back keeps the duplicate-free includes in order and the exact set of excludes |

## Left out

- The desktop program apart from its success test: widgets, tray icon, reports and dialogs.
- Processes, signals, sockets, polkit, HTTP and package installation: only their results appear, as parameters.
- Mounting, unmounting, restoring, deleting and initialising repositories; of a mount only the resulting path is used.
- Command lines and environments of Borg: a task carries what its command is built from, not the text of the command.
- Log ring, log files, status events and the text of messages; errors are named by their cause.
- `import_legacy` and the merging of an old status file.
- DaemonSteps.InitInv: asks for an accepted configuration and for stamps that are whole seconds and not in the future, because the source loads both files without checking them; what it saves itself is accepted (`ConfigStore.SavedIsAccepted`).
- Concurrent calls of `save_config`: one save is one step, although the file is written outside the lock.
- Daylight saving time, dates outside the range of `datetime`, and rounding of floating-point seconds in the overlap search.
- Unicode white space, digits and case folding: the text operations know the ASCII characters only.
- JSON itself: an encoded message is any byte string without a line feed, a received value one of the cases of `SysConfig.Value`.
- SHA-256: a parameter, assumed injective or free of line feeds only where a lemma says so.
- A configuration whose lists or accounts have the wrong JSON type, for which the source raises an exception.
- Validation of configurations that have not been normalised; the service validates normalised ones only.
- Decoding UTF-8 chunk by chunk: the line reader is stated on decoded text.
- Update checks whose cache file cannot be written, and cache files that the program has not written itself.
- Keys of account records that the source drops on normalisation are kept apart as one case, `SysConfig.Key.Unknown`.
- `Backup.BackupRun` carries the parts of the status record that one backup changes; duration, statistics and last item are not among them.
- DaemonTheorems.IntervalStartsAreSpaced: counts from the stamp of the earlier start, which is cut to the second, because the source does.
- DaemonTheorems.NoScheduleIsLost: leaves out jobs whose last backup left through the worker's catch-all exit, because there the property fails (`DaemonWitness.FailureForgetsJob`).
