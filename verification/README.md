# SmoothNAS `tierd`: protocols over persisted state

`tierd` is the control daemon of the SmoothNAS appliance. It moves live iSCSI LUNs between
storage tiers, schedules and runs backups, exports directories, destroys tier pools and moves
its own container storage. All of that is done in small persisted steps that a crash can
interrupt anywhere. This project models those procedures in Dafny and proves what the daemon
relies on, over every run.

How to read it:

- A protocol is a state type, an `Action` type with one constructor per effect, a total `Apply`
  (or `Step`) in which a refused action changes nothing, and `Run` over a list of actions.
  Whatever the daemon does not control (shell commands, the kernel, the clock, SQLite, other
  operators) is an action or a parameter of one. A crash is an action, so it can fall between
  any two effects.
- A theorem is a statement about `Run(s, acts)` for all `acts`, proved by an invariant kept by
  every action. Premises on the environment are predicates on the state and the action, checked
  along the run. `LunLimits` decides, for every choice of the premises on a LUN move, which results
  hold, with a breaking run for each choice that is too weak. Elsewhere an if-and-only-if or a
  breaking run stands beside the theorem whose premise the code does not ensure; what is simply
  taken for granted is under "Left out".
- Procedures that change things step by step are also written out as classes with methods and
  loops. Their ghost fields record the actions performed, or their `ensures` equate the new state
  with `Apply` or with `Run` over a list of actions, so the theorems hold of them. Their failures
  are nondeterministic; a parameter `works` rules them out, and what the procedure then achieves is
  stated too.

| file | subject |
|---|---|
| `ActiveLun`, `LunLimits`, `LunExecutor`, `LunSweep` | moving an active LUN: protocol, what its results rest on, executor, start-up recovery |
| `BackupPlane`, `BackupRuns`, `BackupVerdicts`, `BackupDrain`, `BackupIdentity`, `BackupSafety`, `BackupHandler` | backup jobs, runs and their verdicts, restarts, drain, encrypted jobs |
| `ScheduleSlots` | daily slots and their claims |
| `WorkUnits`, `WorkerQueue`, `CopyPool` | splitting a tree, draining the queue, verified copy |
| `TierDestruction`, `TierConsumers` | destroying a pool, what uses it |
| `NfsExports` | export rows and the exports file |
| `RuntimeMigration` | moving the container runtime's files |
| `TierMasks`, `ConfigKeys`, `PoolLookup`, `Paths` | tier bit masks, LIKE escaping, path lookups |

What the proofs show about the code as it is:

- A journal read that fails once makes the LUN executor forget which file it is moving, and a
  sweep that cannot read an intent leaves its file unpinned. The sweep is also run by a pool
  teardown while the daemon serves, and then it can call a live move failed, or write an intent
  back over a newer one. An operator's abort or resume is not held back by a running move either.
  Exactly which of these must be ruled out for the pin window to hold is `LunLimits.WindowIff`, for
  the journal's automaton `LunLimits.AutomatonIff`, and for `completed` to mean that the file is on
  its destination tier `LunLimits.MovedIff`.
- A pin probe that fails counts as "not on smoothfs", so a resume of an unpinned LUN goes through
  (`LunLimits.QuiescedIff`, `LunLimits.LiveIff`).
- The recorded quiesced flag can be stale: a resume whose flag write fails leaves a live target
  that the next move unpins. When one move is safe is `LunLimits.MoveSafeIff`.
- The executor does not compare the destination with the tier the file is on, and its copy opens the
  destination truncating it. Unless the kernel refuses such a plan, a move to the same tier loses the
  file; and what an initiator of a live target writes between copy and cutover is lost. Nothing else
  can lose bytes (`LunLimits.WholeIff`).
- A restart that cannot list the running backup rows leaves them running until the next restart
  (`BackupRuns.AttendedIffSweepLists`).
- Both parallel rsync runners return a nil error when they are cancelled before doing anything
  (`WorkerQueue.NilIsTrustworthyIffUncancelled`). `cpWithHash` does not.
- An entry of the old runtime directory, file or directory, that has the marker's own name can make
  an unfinished copy look finished (`RuntimeMigration.CrashSafeIffMarkerSound`).
- SQLite's LIKE folds ASCII case, so the documented verbatim prefix match is exact just for
  prefixes without letters (`ConfigKeys.VerbatimIffNoLetters`).
- The teardown guard reads an unimported ZFS dataset as missing; if the pool is imported between
  the guard and the removal, its data goes (`TierDestruction.BootSafeIffStill`).
- The boot sweep is described as a retry, but a teardown interrupted after it destroyed and cleared
  a slot is never finished at boot (`TierDestruction.ClearedSlotBlocksBoots`). Which pools an
  automatic teardown does get through is `TierDestruction.BootPassesIff`.

## Model

| member | source | states |
|---|---|---|
| ActiveLun.UnpinnedOnlyInWindow | tierd/internal/api/iscsi_active_lun_executor.go:270-339 | with an operator who waits, pins and sweep reads that succeed, no reconcile during a move and no move under a pending one: in every reachable state, over steps, error exits, crashes and restarts, an unpinned file means the journal says executing, unpinned, moving or cutover |
| LunLimits.WindowIff | tierd/internal/api/iscsi_active_lun_executor.go:408-431 | for every choice of rules: all runs from rest keep the window if and only if the operator waits, pin calls answer, neither the executor's nor the sweep's journal reads can fail, no reconcile begins during a move, and either no move is let in under a pending reconcile or journal writes cannot fail either |
| LunLimits.LosesFile | tierd/internal/api/iscsi_active_lun_executor.go:408-420 | a failed journal read makes the executor forget the file, and the error exit ends with it unpinned |
| LunLimits.Fails | tierd/internal/api/iscsi_active_lun_executor.go:288-294 | a re-pin that does not answer ends a refused move with the file unpinned |
| LunLimits.Unswept | tierd/internal/api/iscsi_active_lun_executor.go:495-502 | a crash and a sweep that cannot read the intent leave the LUN as it was, its intent in flight and nobody working on it |
| LunLimits.MoveStrands | tierd/internal/api/iscsi_active_lun_executor.go:270-339 | one move leaves its file unpinned behind in some run whenever, with an operator who waits, any of: pin calls, executor reads, sweep reads, freedom from reconciles is not granted |
| LunLimits.LeavesPending | tierd/internal/api/sharing.go:155-167 | without one of: working reads, working writes, freedom from reconciles, a reconcile's verdict can be left pending over the next recorded move |
| LunLimits.CalledFailed | tierd/internal/api/sharing.go:155-167 | a reconcile's pending verdict calls the move failed before it unpins; after a crash the sweep passes it over and the file stays unpinned |
| LunLimits.StaleVerdictStrands | tierd/internal/api/sharing.go:155-167 | the same from an earlier move's reconcile, when moves are let in under it and a journal write can fail |
| LunLimits.LeavesWindow | tierd/internal/api/sharing.go:1400-1530 | a run out of the window for every choice of rules too weak for it, by an abort during the move or a clear after it |
| ActiveLun.UnpinnedStaysQuiesced | tierd/internal/api/sharing.go:1306-1344 | even when re-pins fail, with an operator who waits and pin probes that answer: an unpinned LUN is recorded as quiesced and a resume is refused |
| LunLimits.QuiescedIff | tierd/internal/api/sharing.go:1306-1344 | for every choice of rules: unpinned implies quiesced in every run from rest if and only if the operator waits and either pin probes cannot fail or no file can be left unpinned |
| LunLimits.ResumesBlind | tierd/internal/iscsi/fileio.go:126-160 | on a failed probe a resume of an unpinned file goes through and clears the flag |
| LunLimits.ResumesUnpinning | tierd/internal/api/sharing.go:1306-1344 | a resume during a move, of a file still pinned, is followed by the unpin |
| LunLimits.ExposesUnflagged | tierd/internal/api/sharing.go:1306-1344 | for every choice of rules too weak, a run from rest to a live target on an unpinned file with the flag cleared |
| ActiveLun.StoppedMovesStaySafe | tierd/internal/api/iscsi_active_lun_executor.go:277-337 | with an operator who waits and probes that answer, in every run whose moves start from a stopped target a live target is on a pinned file at every step, crash, sweep and reconcile |
| LunLimits.LiveIff | tierd/internal/api/sharing.go:1306-1344 | for every choice of rules: live implies pinned in every run from rest if and only if the rules for quiesced hold and moves are let in only on targets that are really stopped |
| LunLimits.MoveSafeIff | tierd/internal/api/sharing.go:1537-1574 | a move that passes the preflight keeps live targets off unpinned files, over failures, crashes, sweeps and later requests, if and only if the target is stopped at that moment, the operator waits, and either later pin probes cannot fail or pin calls, both journal reads and freedom from reconciles are granted |
| LunLimits.MoveExposes | tierd/internal/api/sharing.go:1537-1574 | otherwise a run of that one move to a live target on an unpinned file |
| LunLimits.StaleFlagUnpinsLiveTarget | tierd/internal/api/sharing.go:1306-1344 | with everything else in order, a resume whose flag write fails lets the next move unpin a live target |
| ActiveLun.JournalFollowsAutomaton | tierd/internal/api/sharing.go:47-93 | with an operator who waits, a store that works and no reconcile during a move: every pair of successive journal states is an edge of the documented automaton, and while the daemon serves an intent is in flight exactly while its executor runs |
| LunLimits.AutomatonIff | tierd/internal/api/sharing.go:47-93 | for every choice of rules: every action of every run from rest follows the automaton if and only if the operator waits, the store's reads and writes work and no reconcile begins during a move |
| LunLimits.LeavesAutomaton | tierd/internal/api/sharing.go:47-93 | otherwise a run and an allowed action that leave it |
| ActiveLun.CompletedMeansMoved | tierd/internal/api/iscsi_active_lun_executor.go:309-337 | with an operator who waits and no move let in under a reconcile's pending verdict: a journal that says completed, by the executor, recovery or a reconcile, has the file on the destination tier, whatever fails |
| LunLimits.MovedIff | tierd/internal/api/iscsi_active_lun_executor.go:309-337 | for every choice of rules: completed means moved, in every run from a rest that says so truly, if and only if the operator waits and either no move is let in under a pending reconcile or none can be pending |
| LunLimits.CompletesElsewhere | tierd/internal/api/sharing.go:155-167 | otherwise a run that ends completed with the file not on the recorded destination: a record during the move, or a reconcile that writes back the intent it read |
| ActiveLun.StepsAreEarned | tierd/internal/api/iscsi_active_lun_executor.go:287-337 | in every run, whatever fails and whoever interferes: the file changes tier only after its bytes were copied for a plan the kernel took; the executor re-pins it, makes the target live and journals completed only after the kernel reported that move settled |
| ActiveLun.NoWriteIsLost | tierd/internal/api/iscsi_active_lun_executor.go:308-316 | where the kernel serves the file from is all that initiators wrote, at every step, failure, crash, sweep and reconcile, if moves start from stopped targets, the operator waits and the kernel refuses a move to the same tier |
| LunLimits.WholeIff | tierd/internal/api/iscsi_active_lun_executor.go:287-316 | for every choice of rules: no byte is lost in any run from rest if and only if those three hold |
| LunLimits.LosesBytes | tierd/internal/api/iscsi_active_lun_executor.go:366-405 | otherwise a run that loses bytes: a copy onto its own source, or a write after the copy of a live target |
| LunLimits.MoveCompletes | tierd/internal/api/sharing.go:1306-1480 | from any rest, under every rule: quiesce, record and execute can bring the file to any other tier, whole, and the target back to life |
| LunExecutor.TrailIsRun | tierd/internal/api/iscsi_active_lun_executor.go:270-339 | every point of a recorded execution is the state of a prefix run of the protocol |
| LunExecutor.EveryPointSafe | tierd/internal/api/iscsi_active_lun_executor.go:270-339 | from a stopped target, every point at which the daemon could die is safe |
| LunExecutor.LunHost.constructor | tierd/internal/api/iscsi_active_lun_executor.go:187-197 | a move starts from the state it finds, with nothing done |
| LunExecutor.LunHost.RunMove | tierd/internal/api/iscsi_active_lun_executor.go:204-216 | success is claimed only for a pinned, live, unquiesced LUN whose bytes were copied, switched to the destination tier and reported settled; a move to another tier loses no byte whatever fails; every intermediate state is a protocol state and safe; where everything works, a move that was let in succeeds and is journaled completed |
| LunExecutor.LunHost.Transition | tierd/internal/api/iscsi_active_lun_executor.go:408-420 | a journal entry advances the executor whether or not it was written, and keeps the file only if it was read back |
| LunExecutor.LunHost.Finish | tierd/internal/api/iscsi_active_lun_executor.go:422-436 | the last entry writes completed or failed, or leaves the journal, and ends the executor |
| LunExecutor.LunHost.UndoAndFail | tierd/internal/api/iscsi_active_lun_executor.go:288-294 | an error exit re-pins if it still holds the file and the call works, leaves failed or the old entry, and ends |
| LunExecutor.LunHost.PinFile | tierd/internal/api/iscsi_active_lun_executor.go:323-326 | pinning works only with a file in hand; a failed re-pin leads to the failed entry |
| LunExecutor.LunHost.OpenWindow | tierd/internal/api/iscsi_active_lun_executor.go:271-280 | either the pin is off and the plan is next, or the move ended |
| LunExecutor.LunHost.MoveFile | tierd/internal/api/iscsi_active_lun_executor.go:287-316 | either the bytes were copied, the kernel switched the file to the destination tier and cleanup is awaited, or the move ended; the bytes are kept if the destination is another tier |
| LunExecutor.LunHost.CopyFile | tierd/internal/api/iscsi_active_lun_executor.go:366-405 | success means an up-to-date copy for the accepted plan; only a copy onto its own source harms the file |
| LunExecutor.LunHost.WaitForCleanup | tierd/internal/api/iscsi_active_lun_executor.go:341-364 | the poll loop ends; success means the kernel's state is settled |
| LunExecutor.LunHost.Close | tierd/internal/api/iscsi_active_lun_executor.go:318-338 | success means settled, pinned, live and unquiesced |
| LunSweep.LunStore.Recover | tierd/internal/api/iscsi_active_lun_executor.go:486-523 | exactly the stuck, readable intents of file-backed targets are decided and re-pinned; nothing else changes, quiesced flags included |
| LunSweep.LunStore.RecoverOne | tierd/internal/api/iscsi_active_lun_executor.go:495-520 | one target's turn, with each failure of read, pin and write |
| LunSweep.LeftInFlight | tierd/internal/api/iscsi_active_lun_executor.go:490-521 | an intent is in flight after the sweep exactly when it was before and the store failed on it or no file-backed target carries it |
| LunSweep.CompletedIffFinished | tierd/internal/api/iscsi_active_lun_executor.go:536-609 | the sweep writes completed exactly when the kernel reports placed or cleanup-complete on the destination tier |
| LunSweep.SweepResumes | tierd/internal/api/iscsi_active_lun_executor.go:452-523 | after a sweep cut short and a later full one, under different failures and kernel answers, an intent has the first sweep's verdict if that was written and otherwise what the second alone would give |
| LunSweep.SweepRepeats | tierd/internal/api/iscsi_active_lun_executor.go:452-523 | if nothing changed in between, the two leave what one full sweep leaves; a second sweep changes nothing |
| LunSweep.SweepIsRecovery | tierd/internal/api/iscsi_active_lun_executor.go:508-517 | on each target the sweep performs the protocol's two recovery actions |
| LunSweep.SweepIsReconcile | tierd/internal/api/sharing.go:155-167 | run while the daemon serves, the sweep on a target is the protocol's reconcile |
| BackupRuns.RowsFinishOnce | tierd/internal/db/backup_runs.go:26-87 | over every run with crashes: at most one running row per job; a row that stopped running keeps its status, a deleted one stays deleted |
| BackupRuns.ResumedRunsKeepSettings | tierd/internal/api/backup.go:72-89 | all starts of one run row see identical settings, across any number of restarts |
| BackupRuns.AttendedIffSweepLists | tierd/internal/api/backup.go:72-77 | every running row has a goroutine, a handler or the restart sweep to finish it, in every run, if and only if the sweep can always list the running rows |
| BackupRuns.GivingUpOrphans | tierd/internal/api/backup.go:72-77 | a restart whose list fails leaves every running row with nobody to finish it |
| BackupRuns.InvRun | tierd/internal/api/backup.go:575-694 | the joint invariant of tables, ownership map, goroutines, handler and restart sweep holds in every reachable state |
| BackupVerdicts.RowsTellTheTruth | tierd/internal/api/backup.go:575-694 | over every run with restarts and resumed backups: while a row exists it says completed exactly if its goroutine came to a good end, and failed exactly if it came to a bad one or was turned away by the delete guard or a shutdown before it could start |
| BackupVerdicts.JobsAreAsAsked | tierd/internal/api/backup.go:355-573 | over every run from an empty table: every job is, field by field, what some request for it asked, and has keys exactly if it is encrypted |
| BackupDrain.CountersAgree | tierd/internal/api/backup.go:618-694 | live progress only for owned runs, and the wait counter never above the number owned |
| BackupDrain.DrainIsSound | tierd/cmd/tierd/main.go:308-327 | draining with the restart sweep over, an empty ownership map or a zero wait counter means no goroutine owes a terminal write and none starts for the rest of the process |
| BackupDrain.SweepStartsWhileDraining | tierd/internal/api/backup.go:618-634 | the premise on the sweep is needed: from boot on any tables with a running row, a shutdown before the row is resumed finds nothing owned, and then the sweep starts it; what rules this out is the order in `main.go`, which finishes the sweep (line 223) before it can receive the stop signal |
| BackupIdentity.JobFixed | tierd/internal/api/backup_google.go:277-309 | no action changes the encrypt flag of a job that has run, nor, if encrypted, its account, folder and keys |
| BackupIdentity.KeysAreEarned | tierd/internal/api/backup_google.go:277-309 | whatever is asked: a job that has run keeps its flag, an encrypted one its account, folder and keys; new keys come only from a confirmed session offered for that account and folder |
| BackupIdentity.FieldsGrantedIff | tierd/internal/api/backup_google.go:277-315 | a request is granted if and only if it meets the rules on account, encryption and recovery session |
| BackupIdentity.EncryptedJobsKeepIdentity | tierd/internal/api/backup.go:466-573 | over every run, all starts of a job agree on the flag, and if encrypted on account, folder, password and salt |
| BackupIdentity.KitsReachOneJob | tierd/internal/api/backup_google.go:302-315 | the keys of one recovery session reach at most one job ever; no two jobs share keys |
| BackupIdentity.NamesStayUnique | tierd/internal/db/backups.go:55-90 | no two jobs ever have the same name |
| BackupSafety.EveryReachableState | tierd/internal/api/backup.go:22-130 | all of the above together, for every state reachable from an empty database |
| BackupHandler.Handler.constructor | tierd/internal/api/backup.go:59-66 | a started daemon holds the tables left behind and an empty memory |
| BackupHandler.Handler.CreateConfig | tierd/internal/api/backup.go:355-436 | keeps the joint invariant and performs the protocol's create; succeeds if and only if the fields are valid and granted and the name is free, and then the job is stored as asked and no other changes |
| BackupHandler.Handler.UpdateConfig | tierd/internal/api/backup.go:466-573 | the same for an existing job with no active run |
| BackupHandler.Handler.DeleteConfig | tierd/internal/api/backup.go:438-459 | keeps the joint invariant and performs the protocol's delete: an active job is refused, an idle one goes with all its rows, every other job and row stays |
| BackupHandler.Handler.PrepareKit | tierd/internal/api/backup_google.go:118-160 | offers a kit under a session id never used before, unless 64 are open |
| BackupHandler.Handler.InsertRun | tierd/internal/db/backup_runs.go:26-43 | a running row is inserted if and only if the job has none |
| BackupHandler.Handler.StartRun | tierd/internal/api/backup.go:618-634 | starts, owns and counts exactly when not draining (or resuming) and not already owned |
| BackupHandler.Handler.RunBackup | tierd/internal/api/backup.go:575-616 | keeps the joint invariant; starts a run if and only if the job exists and is idle, the delete guard agrees and no shutdown begins before or during the request; a row inserted and not started is failed |
| BackupHandler.Handler.RunScheduled | tierd/internal/api/backup_schedule.go:56-81 | keeps the joint invariant; inserts first, and fails the row when the guard refuses or a shutdown has begun |
| BackupHandler.Handler.Conclude | tierd/internal/api/backup.go:676-690 | keeps the joint invariant; the row, if it is still there, says completed after a good run and failed after any other, and no other row changes |
| BackupHandler.Handler.Leave | tierd/internal/api/backup.go:636-643 | keeps the joint invariant; the wait counter drops before the maps are released |
| BackupHandler.Handler.ListActive | tierd/internal/db/backup_runs.go:143-166 | lists every running row exactly once and nothing else |
| BackupHandler.Handler.ResumeActiveRuns | tierd/internal/api/backup.go:72-89 | keeps the joint invariant; the loop over the listed rows is a run of the protocol's sweep, or the sweep is given up |
| BackupHandler.VisitIsTwoActions | tierd/internal/api/backup.go:78-88 | each visit is the protocol's read and start |
| BackupHandler.SweepIsRun | tierd/internal/api/backup.go:72-89 | visiting a whole list is the protocol's list, read and start actions |
| BackupHandler.SweepStartsEach | tierd/internal/api/backup.go:72-89 | every listed row gets one goroutine with its job's settings, nothing else does, and the tables are unchanged |
| BackupHandler.Handler.Purge | tierd/internal/api/backup.go:791-822 | keeps the joint invariant; drops in order the listed jobs at or below the mountpoint, as a run of the protocol, up to the first delete that fails |
| BackupHandler.PurgeTakesExactly | tierd/internal/api/backup.go:791-822 | a complete purge takes the jobs at or below the mountpoint with all their rows and leaves every other job and row |
| ScheduleSlots.Due | tierd/internal/backup/schedule/schedule.go:36-52 | the most recent qualifying day of the last three, strictly after the previous slot and at most a day old; none exactly when none qualifies |
| ScheduleSlots.Slot | tierd/internal/backup/schedule/schedule.go:22-34 | the minute loop finds that first minute |
| ScheduleSlots.FirstAtIsFirst | tierd/internal/backup/schedule/schedule.go:22-34 | no earlier whole minute of the day has reached the wall-clock time, so a skipped time moves to the first minute after the gap and a repeated one is its first occurrence |
| ScheduleSlots.SlotsStrictlyIncrease | tierd/internal/db/backup_google.go:60-67 | whatever stale values ticks act on, per job one claim at most succeeds per previous value and claimed slots strictly increase |
| ScheduleSlots.ClaimsAreFair | tierd/internal/db/backup_google.go:60-67 | a claim is won exactly by a try made while the job was there, enabled and at the last slot the try had read |
| ScheduleSlots.BegunSlotsIncrease | tierd/internal/api/backup_schedule.go:30-83 | slots for which runs begin strictly increase per job |
| ScheduleSlots.Scheduler.TryClaim | tierd/internal/db/backup_google.go:60-67 | the compare-and-set wins exactly when the job is enabled and its last slot is the one read |
| ScheduleSlots.Scheduler.Tick | tierd/internal/api/backup_schedule.go:30-83 | a tick on any stale list only performs claims that `Due` allows and begins at most one run per claim it won; where everything works, each job on and due whose last slot is unchanged gets its slot, and its run unless one is active; no other job's slot moves; during a shutdown nothing does |
| WorkUnits.Walk | tierd/internal/backup/backup.go:1022-1089 | the recursive walk appends exactly the units of the subtree, or reports the read error |
| WorkUnits.WalkCovers | tierd/internal/backup/backup.go:1014-1089 | for every tree and every depth limit of at least one: units never nest, every file is in exactly one, every directory is inside or above one, none is too deep or outside the tree |
| WorkUnits.EnumerateWorkUnits | tierd/internal/backup/backup.go:1014-1020 | the emitted list is a disjoint cover of depth two |
| WorkUnits.JoinName | tierd/internal/backup/backup.go:1076-1079 | joining a relative path and an entry name is component append |
| WorkerQueue.SendsNeverBlock | tierd/internal/backup/backup.go:499-511 | under every interleaving no unit is handed out or reported twice and a worker about to report finds room in the channel |
| WorkerQueue.ResultsAreTrue | tierd/internal/backup/backup.go:897-993 | over every run: a unit has a result of some outcome exactly when, in the hands of the worker that held it, it went so |
| WorkerQueue.NilMeansAllDone | tierd/internal/backup/backup.go:897-993 | without cancellation a nil error means every unit went well in the hands of its worker |
| WorkerQueue.NilMeansFullCount | tierd/internal/backup/backup.go:575-594 | and the completed count is the number of units |
| WorkerQueue.NilThoughNothingDone | tierd/internal/backup/backup.go:517-520 | for every number of units and workers, cancelling first gives a nil error with nothing done |
| WorkerQueue.NilIsTrustworthyIffUncancelled | tierd/internal/backup/backup.go:477-594 | a nil error stands for success if and only if there are no units or the context cannot be cancelled |
| WorkerQueue.MountTriesEveryUnit | tierd/internal/backup/backup.go:897-993 | on a mount a unit's error keeps no other from being tried: without cancellation and set-up failures every unit comes to its end |
| WorkerQueue.SshErrorStopsTheRest | tierd/internal/backup/backup.go:556-566 | over SSH a unit's error ends its worker and the context of all others for good |
| WorkerQueue.Collect | tierd/internal/backup/backup.go:971-988 | completed is the number of good results; no failure exactly when every result is good, or on a mount cancelled |
| CopyPool.RecordsAreTrue | tierd/internal/backup/backup.go:1337-1463 | a directory or file is recorded as done exactly when its task ran to a good end, as broken exactly when to a bad one |
| CopyPool.NilMeansEveryFileCopied | tierd/internal/backup/backup.go:1337-1463 | under every interleaving and cancellation: no file before every directory was made, the count is the number copied, and a nil error means every file's task came to a good end |
| TierDestruction.TierBackingHoldsData | tierd/internal/api/tiers.go:1550-1580 | data is reported unless every slot is proved empty or within 128 MiB |
| TierDestruction.ReadingIsDataIff | tierd/internal/api/tiers.go:1122-1166 | a mounted backing's reading is the user's data if and only if the baseline in force is the empty file system's use, or there is no data and it covers that use; it never hides more than a twentieth of the capacity |
| TierDestruction.BootRemovesOnlyMeasured | tierd/internal/api/tiers.go:1815-1847 | over every run of deletes, crashes and boots, what an automatic teardown destroys was measured by its own guard within the slack or absent, so more is lost only where that reading had gone stale; anything else went by a confirmed DELETE |
| TierDestruction.ConfirmedMeansDeleted | tierd/internal/api/tiers.go:1308-1395 | a teardown is explicit exactly after a DELETE with the full name and, where something uses the pool, the second confirmation; from then on until it is gone every boot takes it up again |
| TierDestruction.GoneMeansCleared | tierd/internal/api/tiers.go:1689-1810 | the pool's record goes only after each of its slots was cleared, by whichever teardowns |
| TierDestruction.DataLostOnlyByConfirmedDelete | tierd/internal/api/tiers.go:1588-1602 | on true readings, if no slot is disturbed between reading and removal, every backing, unmounted volumes included, destroyed with more than the slack was destroyed by a confirmed DELETE |
| TierDestruction.BootSafeIffStill | tierd/internal/api/tiers.go:1550-1602 | with true readings, no run destroys more than the slack unconfirmed if and only if slots are left still between reading and removal |
| TierDestruction.LateImportIsDestroyed | tierd/internal/api/tiers.go:1531-1537 | a run with true readings in which a late import makes an automatic teardown destroy data |
| TierDestruction.ClearedSlotBlocksBoots | tierd/internal/api/tiers.go:1815-1847 | once a slot is destroyed and cleared, on true readings no automatic teardown ever gets past it, and everything removed later goes by a confirmed DELETE |
| TierDestruction.BootPassesIff | tierd/internal/api/tiers.go:1550-1602 | an automatic teardown can get past its guard on true readings if and only if every slot is there and within the slack, or is a ZFS dataset out of reach |
| TierDestruction.TierStorage.Teardown | tierd/internal/api/tiers.go:1584-1810 | the procedure is a run of the protocol; refused: untouched; automatic on true readings: nothing above the slack is destroyed; success: every slot cleared as its backend answered; it succeeds where the guard passes and the unmount and every clear work |
| TierDestruction.TierStorage.RemoveSlots | tierd/internal/api/tiers.go:1689-1779 | the slot loop is a run of the protocol's destroy and clear steps; each slot keeps its backing or loses one that is reachable or is a volume, mounted or not, and on success all are cleared as the backends answered |
| TierConsumers.OnePoolPerRow | tierd/internal/api/tiers.go:1395-1428 | a share or target belongs to at most one pool, even when pool names are prefixes of each other |
| TierConsumers.LinesReport | tierd/internal/api/tiers.go:1399-1428 | a table's lines are the labels of exactly the rows that use the pool, in order and one each |
| TierConsumers.SharingStore.ReportsNothingIffFree | tierd/internal/api/tiers.go:1395-1428 | nothing is reported if and only if no share or export lies at or below the mountpoint and no target serves the volume |
| TierConsumers.SharingStore.Consumers | tierd/internal/api/tiers.go:1395-1443 | an error exactly if a table or the plugin host cannot be asked; otherwise the lines of exactly the using rows, table by table in order, then the plugins; empty exactly if nothing uses the pool |
| TierConsumers.SharingStore.Release | tierd/internal/api/tiers.go:1454-1526 | with all tables read and all deletes successful nothing uses the pool any more; every other pool's report is unchanged whatever fails |
| TierConsumers.ReleaseTable | tierd/internal/api/tiers.go:1461-1477 | the same for one table, sparing every row that does not use the pool |
| TierConsumers.OthersKept | tierd/internal/api/tiers.go:1454-1526 | deleting only rows of one pool leaves other pools' lines as they were |
| NfsExports.ClientsRoundTrip | tierd/internal/api/sharing.go:711-735 | storing a client list and splitting it again loses nothing |
| NfsExports.BuildExports | tierd/internal/api/sharing.go:878-914 | entry by entry: the row's resolved path, clients, sync and read-only flags, root squash only off a smoothfs pool, and the file system id of the nearest pool or none; it fails exactly if some path cannot be resolved |
| NfsExports.TakenBy | tierd/internal/api/sharing.go:711-724 | finds an existing row that gives one of the clients the same cleaned path, if and only if there is one |
| NfsExports.ExportService.Create | tierd/internal/api/sharing.go:639-751 | no two rows share path and client; a failed request leaves the rows; a successful one appends a row with every field as asked, root squash off on a pool; the file follows the last good write; where everything works, exactly the admissible requests go through |
| NfsExports.ExportService.Update | tierd/internal/api/sharing.go:796-840 | the same, changing the flag of the one row or nothing; where everything works it is refused exactly if there is no such row |
| NfsExports.ExportService.Delete | tierd/internal/api/sharing.go:762-794 | the same, removing that row alone or nothing |
| NfsExports.ExportService.Handle | tierd/internal/api/sharing.go:639-914 | one request, whatever came before: if its database calls and last write succeed the file agrees with the table; if nothing was tried and the database answered, neither moved |
| NfsExports.ExportService.Serve | tierd/internal/api/sharing.go:639-914 | over every sequence of requests, failures and changes of the system: no clash, and the file is the table's as of the last request that went through, unless a later one failed half-way |
| RuntimeMigration.CrashSafeIffMarkerSound | tierd/cmd/tierd/runtime_storage.go:137-169 | for any trees, boots, failures and crashes every file and directory is still in the old directory or in the new one under the marker, if and only if the marker is sound at the start |
| RuntimeMigration.RemovalNeedsCompleteCopy | tierd/cmd/tierd/runtime_storage.go:143-169 | entries leave the old directory only while a complete copy lies under the marker |
| RuntimeMigration.LosingRun | tierd/cmd/tierd/runtime_storage.go:143-150 | for every unsound start a run that loses an entry |
| RuntimeMigration.ClosedRun | tierd/cmd/tierd/runtime_storage.go:143-169 | both trees stay closed under parent directories, so an entry below the marker's name is never there without it |
| RuntimeMigration.RuntimeDirs.Rsync | tierd/cmd/tierd/runtime_storage.go:159-164 | a parent-first copy in any such order, cut short anywhere, is actions of the protocol; it reports success only as the protocol does |
| RuntimeMigration.RuntimeDirs.Migrate | tierd/cmd/tierd/runtime_storage.go:137-169 | every effect of the procedure is an action of the protocol; it succeeds exactly if the old directory is gone, and then a copy into an empty target is complete under the marker; where nothing fails it goes through exactly on a marked target, or an empty one unless a directory of the marker's name is in the way |
| RuntimeMigration.RuntimeDirs.NothingLost | tierd/cmd/tierd/runtime_storage.go:137-180 | wherever the procedure stands, nothing is lost |
| TierMasks.MetadataMaskIsAllTiers | tierd/internal/api/smoothfs_spindown.go:19-36 | for 1 to 64 tiers the mask has exactly the bits of the tiers |
| TierMasks.SlotExternallyActive | tierd/internal/api/smoothfs_spindown.go:118-151 | active exactly when there are devices and each is of known type and, if it spins, up |
| TierMasks.RecommendDrain | tierd/internal/api/smoothfs_spindown.go:38-116 | accepted exactly when decidable; then bit 0 and exactly the bits of tiers confirmed active |
| TierMasks.WriteMasks | tierd/internal/api/smoothfs.go:174-214 | written exactly for 1 to 64 tiers, the drain mask only where the kernel has it; it contains bit 0 and lies within the metadata mask, and for a decidable pool that is no cache it marks exactly the tiers confirmed active; both read back as written |
| TierMasks.MaskRoundTrip | tierd/internal/api/smoothfs.go:339-372 | parsing the printed hexadecimal gives back every 64-bit mask |
| ConfigKeys.EscapedLikeIsPrefix | tierd/internal/db/config.go:73-94 | matching the escaped prefix is being a prefix, up to ASCII case, for every prefix and key |
| ConfigKeys.VerbatimIffNoLetters | tierd/internal/db/config.go:70-94 | the match is exact if and only if the prefix has no ASCII letter |
| ConfigKeys.ListConfigByPrefix | tierd/internal/db/config.go:73-89 | returns exactly the rows with the prefix, up to ASCII case |
| PoolLookup.LookupsAgree | tierd/internal/api/backup.go:907-923 | both lookups give the same pool, it has the longest covering mountpoint, and list order does not matter |
| PoolLookup.PathPickIsLongest | tierd/internal/api/backup.go:907-923 | the backup lookup returns the longest covering mountpoint, or none when none covers |
| PoolLookup.PathPickIsNearest | tierd/internal/api/backup.go:907-923 | on mountpoints of any spelling the backup lookup finds a covering pool with the longest cleaned mountpoint, and none only if none covers |
| PoolLookup.BackingPickIsLongest | tierd/internal/api/iscsi_active_lun_executor.go:111-132 | so does the executor's |
| PoolLookup.BackingPickIsInnermostIff | tierd/internal/api/iscsi_active_lun_executor.go:111-132 | on mountpoints of any spelling, the executor's lookup finds the innermost covering pool for every path and every order of the list if and only if every inner mountpoint, trimmed, is longer than each mountpoint around it as stored |
| PoolLookup.CleanNestingShows | tierd/internal/api/iscsi_active_lun_executor.go:111-132 | clean mountpoints meet that condition |
| PoolLookup.PathPickCleans | tierd/internal/api/backup.go:907-923 | any spelling of a path is looked up as its clean form |
| PoolLookup.FindPoolForBackingFile | tierd/internal/api/iscsi_active_lun_executor.go:111-132 | the loop computes the executor's pick |
| PoolLookup.PoolForPath | tierd/internal/api/backup.go:907-923 | the loop computes the backup pick |

## Left out

- The operator's LUN endpoints are single actions of `ActiveLun`; creating and deleting targets, two targets on one file and a reboot that restarts LIO are not modelled.
- Of reconciles one at a time is under way. The copy is one action: an initiator's write during it counts as one before or after it.
- LunExecutor.LunHost.RunMove: the kernel is a small automaton (plan, switch, settle), and resolving the destination name to a tier index is part of the prepare step that may fail.
- Database writes of the backup handler succeed or the process dies, because the code ignores their errors, and its reads succeed except the restart sweep's list; HTTP requests and ticks insert runs only after the restart sweep, which is the order in `main.go`.
- BackupHandler.Handler.RunBackup: the delete-mode guard is a parameter.
- Google sign-in, account rows and the random keys themselves; a kit's password and salt are named by their session.
- ScheduleSlots.Due: the time zone's wall clock, the days' bounds and the selected weekdays are the parameter `Calendar`; parsing the configured time is not modelled.
- WorkerQueue.SendsNeverBlock: rsync, list files and directory creation are outcomes of a unit; the number of workers is positive, as the callers clamp it.
- CopyPool.NilMeansEveryFileCopied: the semaphore that bounds running goroutines is not modelled, so more interleavings are covered; hashing is part of a file's outcome.
- TierDestruction.BootRemovesOnlyMeasured: covers slot backings only; the legacy pool volume and the sweep of orphaned physical volumes at the end of a teardown have no guard in the code.
- TierDestruction.DataLostOnlyByConfirmedDelete: "true readings" takes a mounted backing's reading for its data, which `TierDestruction.ReadingIsDataIff` shows to depend on the stored baseline.
- TierDestruction.TierStorage.RemoveSlots: a dataset left mounted by an earlier failed destroy may go in a later teardown of the model; the code, which has cleared the slot to mdadm, finds no volume there and leaves it.
- TierDestruction.TierStorage.Teardown: releasing consumers, unmounting and the legacy volume are one step that may fail.
- TierConsumers.SharingStore.Release: force-detaching plugin volumes and reloading the sharing services are not modelled.
- NfsExports.ExportService.Serve: a pool teardown deletes export rows and rewrites the file without the mutex that serialises these requests, which is not an action of the sequence; rows that do not clash may still resolve to one path in the file.
- RuntimeMigration.RuntimeDirs.Migrate: entries are directories and files with content, not ownership, modes, links or extended attributes; the two paths are different and non-empty; rewriting LXC configuration after the move is not modelled; no other process writes the directories.
- TierMasks.WriteMasks: the other write-staging attributes, an operator-supplied mask (accepted only if it is the recommended one) and failing sysfs writes are not modelled.
- TierMasks.MaskRoundTrip: underscores in base-prefixed numbers are not modelled; nothing written contains them.
- ConfigKeys.ListConfigByPrefix: SQLite's limit on pattern length is not modelled.
- HTTP routing, JSON, the user interface, shell commands, LVM, mdadm, ZFS, rclone, metrics and logging are environment or omitted.
