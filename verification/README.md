# The Zeno agent's probe pipeline, verified

This project models the part of the agent that must not lose or invent data:
the pipeline that takes a probe configuration from the Controller, schedules
and budgets probing runs, stores their results in a crash-safe spool and
uploads them, with the workers that share it. Beside it stand four smaller
pieces of the repository that each carry one real law: network speeds, the
argument quoting of the two installers, and the version order of the release
gate. `dafny verify dfyconfig.toml` checks everything.

The pieces, from the bottom up:

* `Text`, `Sums` - numerals, string order, sums over maps.
* `GreedyBudget`, `ProbeBudget`, `Starvation` - what one run may probe, and whom
  it never reaches.
* `ProbeScheduler`, `TargetManager`, `Workers` - when a target is due, the
  versioned configuration, and every interleaving of the workers around it.
* `Envelopes`, `SpoolModel`, `SpoolRuns`, `ByteLimit` - spool files, the changes
  a file system makes to the two directories, and what every run of such
  changes keeps.
* `DurableWrite` - the system calls below one such change, on a disk that keeps
  only what was synced.
* `CrashRestart`, `RestartBounds` - disk and changes running together, what a
  crash of the machine leaves of them, with which books the spool can be opened on
  it again, and what its bounds are worth then.
* `ProbeRounds`, `ProbeSpool`, `ProbeRun` - the spool's methods and a probing
  run, as classes and methods over that.
* `RetryDelay`, `ProbeUpload`, `Wakeup`, `PresenceReconnect` - uploading,
  retrying, sleeping and reconnecting.
* `NetworkRate`, `WindowsQuoting`, `SystemdQuoting`, `SemVer`.

## How the spool is modelled

The two directories are maps from names to entries. `ProbeSpool` is a class
whose methods follow the source call by call; every file-system call may fail
(`Call`, by an arbitrary function of the call's number and kind), and a process
that dies is one whose later calls all fail. The
class is tied to a machine of atomic changes (`SpoolModel.Event`): `Valid()`
says that the directories are what a legal run of changes made of the ones the
spool was opened on. A ghost ledger and ghost birth records say what was stored
under each id and what has become of it. Theorems about runs (`SpoolRuns`)
therefore hold after any sequence of calls and failures. `faults` and `io` record
the calls, so that contracts can say exactly what happens when nothing fails and
what still holds when something does.

A machine that loses power may also undo changes its directories were not synced
for. `DurableWrite` has the disk that does this for the pending directory. In
`CrashRestart` that disk and a run of changes take their steps together
(`JointRun`), in any order the calls can come in and with any of them given up:
`PowerFailure` says what may be left, `RestartAfterPowerFailure` which books
remember all of it, and when there are such books at all.

## What is assumed

* An id the spool draws was never used before and no file bears its name; the
  code does not check this (`FreshId`).
* Clocks are positive and leave room for five minutes below the largest int64.
* One `char` is one byte of a file.
* `Faithful` collects all that is assumed of JSON and SHA-256: decoding undoes
  encoding for envelopes the spool writes, decoded numbers are of their types, a
  marshalled batch is already compact and keeps its rounds. The checksum need
  only be a function. `FaithfulCodecExists` shows that this can be met.
* http.ParseTime, the jitter hooks, the names of temporary files, free disk
  space, network replies, clocks and platform counters are parameters or
  arbitrary choices.
* A file that cannot be read counts as invalid and is quarantined, as in the
  source.
* In the interleaving models what happens under one mutex is one step. A POST is
  not under the spool's mutex: `UploadOne` lets any calls of Enqueue come in while
  it lasts.
* `Drain` is the loop of one uploader at one clock reading, with nobody else at
  the spool; `DueTargetIsProbed`, `TheRestStarves` and `FiveTargets` are about
  runs whose batch is stored. A run that fails to store marks nothing and the next
  one probes the same front: `FailedRunsDoNothing`, `DueTargetIsStored`.

## What turned out false

* The byte limit of the pending directory is not kept: a retry checks the item
  limit only, and its numbers can grow. `ByteLimitCanBeExceeded` gives the run,
  at any time of day, `RetryKeepsByteLimitIff` the exact condition,
  `PendingBound` the bound that is kept.
* An error from `Enqueue` does not mean that nothing was stored. By its contract
  the item is there exactly if its file was renamed, and the caller is told so
  exactly if the directory sync after the rename worked; `ErrorYetStored` is a
  call in which only that sync fails. Such an item can lie unnoticed until the
  next poll: `WakeupCanBeLost`; `SyncDecides` shows that the sync alone decides
  it.
* An item moved to the quarantine is not always in one of the two directories
  after a power failure: `CrashDuringMove`. The pending directory is synced first,
  so until the quarantine is synced too the item can be lost, whatever the spool
  goes on to do; nothing repeats that sync if it failed. Until the first sync the
  item can also be left twice. `LoseIff` and `DoubleIff` are the exact conditions;
  `RestartSoundIff` says that books for what is left exist exactly if no item is
  left twice.
* After a power failure the pending directory need not be within its limits:
  removals come back that made room for later items. `RestartBound` is the bound
  that is left.
* A retried item can be due at once: `RetryAfterZeroStaysDue`. Exactly when, by
  the text of the header: `RetryAfterByText`, `DelayRange`, `UploadShrinksDueIff`.
* The comment on LimitProbeTargetsForRun (internal/agent/probe.go:79-82) says
  that a large configuration is spread across intervals. That holds while the
  loop comes back often: `DueTargetIsProbed`. It fails while runs are slow:
  `FiveTargets` is a configuration whose fifth target is never probed while four
  hosts do not answer. Whom a single run reaches is `ReachedIff`.
* The Windows command line round-trips for every argument list, but as a whole
  only if the program's path holds no quote and does not end in a backslash:
  `CommandLineRoundTripIff`.
* The speeds of one counter add up to its difference only if it never fell:
  `SpeedsAddUpIff`.

## Model

| member | source | states |
|---|---|---|
| ProbeBudget.SanitizeProbeTargets | internal/agent/probe.go:59-77 | the loop yields the sanitized first 32 targets, in order |
| ProbeBudget.SanitizeFixesExactlyBounded | internal/agent/probe.go:68-75 | a sanitized target is within all limits, and exactly the targets within all limits are left alone |
| ProbeBudget.SanitizedNumbers | internal/agent/probe.go:68-75 | in plain numbers: time-out and interval the nearest within 100 to 5000 ms and 5 to 3600 s, 1000 ms and 60 s where none is given, and the largest count within 1 to 32 and what was asked that costs at most 60 s, with 250 ms more a sample for ping |
| ProbeBudget.PingByText | internal/agent/probe.go:359-366 | which kinds run the ping utility, by their letters |
| ProbeBudget.SanitizeIdempotent | internal/agent/probe.go:59-77 | the client and the manager may both sanitize: twice is once |
| GreedyBudget.QuotientIsLargestFit | internal/agent/probe.go:99-101 | the minimum with the rounded-down quotient is the largest count whose cost fits |
| GreedyBudget.GreedyFillUnique | internal/agent/probe.go:83-110 | there is only one greedy allocation of a budget |
| ProbeBudget.LimitIsTheRunShare | internal/agent/probe.go:83-110 | the limited list is the one count-reduced prefix that spends the node budget greedily |
| ProbeBudget.LimitBudgets | internal/agent/probe.go:83-110 | for every input: a count-reduced prefix, counts at least one, per-target, sample and node budgets kept, empty only for an empty input |
| ProbeBudget.LimitSpendsInOrder | internal/agent/probe.go:83-110 | in plain numbers: 120 s are spent in order on the first 32 targets, and whoever is given less than wanted, or nothing, would have exceeded them with one sample more |
| ProbeBudget.LimitIdempotent | internal/agent/probe.go:83-110 | limiting a limited list changes nothing, so the three places that limit one batch agree |
| ProbeBudget.LimitProbeTargetsForRun | internal/agent/probe.go:83-110 | the loop computes that list; its sample cap and its skip of a zero count never act |
| ProbeBudget.ProbeRunTimeout | internal/agent/probe.go:112-125 | one second on top of counts times milliseconds, at most 121 s and below the 125 s of the loop |
| Starvation.ReachedIff | internal/agent/probe.go:83-110 | a run reaches a due target exactly if those before it leave its sample's cost |
| Starvation.DueTargetIsProbed | internal/agent/probe.go:79-110 | from any state on, a due target is probed within as many runs as there are targets, if these start before the first one's end plus the least interval, and are stored |
| Starvation.FailedRunsDoNothing | cmd/zeno-agent/main.go:578-588 | runs that fail to store change nothing about who is due when |
| Starvation.DueTargetIsStored | cmd/zeno-agent/main.go:578-588 | whatever fails in between, a batch with a due target is stored within as many stored runs as there are targets, if these start early enough |
| Starvation.TheRestStarves | internal/agent/probe.go:83-110 | while runs outlast the intervals, two groups that each fill a run alternate for ever and nobody behind them is probed |
| Starvation.FiveTargets | internal/agent/probe.go:79-110 | a configuration and a schedule in which a fifth target is never probed |
| ProbeScheduling.LastDue | internal/agent/probe_scheduler.go:15-27 | one more target comes last, exactly if it was never completed or completed at least one interval ago |
| ProbeScheduling.DueByNumbers | internal/agent/probe_scheduler.go:15-27 | in plain numbers: never completed, or as many seconds ago as the interval says, within 5 and 3600, 60 where it says nothing |
| ProbeScheduling.DueOfSum | internal/agent/probe_scheduler.go:15-27 | order and repetitions are kept: the due targets of two lists in a row are those of the one, then those of the other |
| ProbeScheduling.Marked | internal/agent/probe_scheduler.go:29-39 | exactly the named targets of a batch get the new completion time |
| ProbeScheduling.ProbeScheduler.Due | internal/agent/probe_scheduler.go:15-27 | the loop yields the due targets in order |
| ProbeScheduling.ProbeScheduler.MarkCompleted | internal/agent/probe_scheduler.go:29-39 | the map is updated for the batch and nothing else |
| ProbeScheduling.DueAfterMark | internal/agent/probe_scheduler.go:41-44 | a completed target is due again exactly one interval later, the others are as due as before |
| TargetManager.ProbeTargetManager.constructor | cmd/zeno-agent/main.go:402-411 | a new manager holds nothing |
| TargetManager.ProbeTargetManager.SameAsHeld | cmd/zeno-agent/main.go:594-614 | true exactly for the list that is held |
| TargetManager.ProbeTargetManager.Overwrite | cmd/zeno-agent/main.go:492 | the list is replaced in place where it fits, in fresh memory where not |
| TargetManager.ProbeTargetManager.Apply | cmd/zeno-agent/main.go:473-500 | accepts exactly versions that are higher, or equal with the same list, or zero before any other; then holds exactly the sanitized list and the version; a rejected one changes nothing; a change starts a new scheduler and generation |
| TargetManager.ConfigHistory | cmd/zeno-agent/main.go:473-500 | over any updates the version never falls, zero never follows a positive version, a positive version keeps one list, the generation counts the changes |
| TargetManager.HeldIsLastAccepted | cmd/zeno-agent/main.go:473-500 | after any updates what is held is the sanitized list of the last accepted one, under its version |
| TargetManager.LastAcceptedUnique | cmd/zeno-agent/main.go:473-500 | there is only one last accepted update |
| TargetManager.SameGenerationSameConfig | cmd/zeno-agent/main.go:494-498 | equal generations mean an equal configuration, short of 2^64 updates |
| TargetManager.CurrentIffUnchanged | cmd/zeno-agent/main.go:512-516 | a batch counts as current exactly if no update changed anything since it was cut, short of 2^64 updates |
| TargetManager.HistoryParts | cmd/zeno-agent/main.go:473-500 | any part of a history is a history and changes add up |
| TargetManager.ProbeTargetManager.Due | cmd/zeno-agent/main.go:502-510 | the limited due targets, with version and generation, in memory of their own |
| TargetManager.ProbeTargetManager.MarkCompleted | cmd/zeno-agent/main.go:518-526 | marks exactly if the configuration still holds |
| TargetManager.BatchOutlivesUpdates | cmd/zeno-agent/main.go:492-509 | no later updates, although they overwrite memory in place, alter an outstanding batch |
| Workers.AckSound | internal/agent/presence.go:167-199 | in every interleaving an acknowledged version is at least the requested one, and from then on the manager is initialized and holds at least that version |
| Workers.AckedList | internal/agent/presence.go:167-199 | and the lists are right: the acknowledged version came with an update whose sanitized list was held, and what is held now is the list of the last accepted update |
| Workers.RefreshGoesThrough | cmd/zeno-agent/main.go:528-552 | at any moment with the gate free, a refresh nobody disturbs applies an acceptable version, holds its list and acknowledges it |
| Workers.OneRun | cmd/zeno-agent/main.go:448-471 | at most one probing run is under way |
| Workers.OneFetch | cmd/zeno-agent/main.go:419-445 | at most one refresh is inside the gate |
| Workers.AppliedStays | cmd/zeno-agent/main.go:473-500 | what is held once is held, or a later version, for ever |
| Workers.RefreshInv | cmd/zeno-agent/main.go:528-552 | every result about to be returned is at least what was asked for and is held; the gate admits one |
| Workers.StoredBeforeCompleted | cmd/zeno-agent/main.go:554-588 | in every interleaving the targets marked completed are, in order, those of a batch handed to the spool before, under the version of an accepted configuration that still held |
| Workers.StoredWasCurrent | cmd/zeno-agent/main.go:554-588 | what is handed to the spool are the due limited targets of an accepted configuration under its version, and it still held when that was last checked |
| Workers.DoneUnderPresentConfig | cmd/zeno-agent/main.go:473-500 | in every interleaving a target that counts as completed was completed by a run that was marked under the present list and version |
| Workers.RunGoesThrough | cmd/zeno-agent/main.go:554-588 | at any moment with the gate free and something due, a run nobody disturbs stores the due limited targets and then marks them |
| ProbeRounds.CommonProbeConfigVersion | internal/agent/client.go:161-178 | a version exactly if all rounds carry the same one and it is not negative |
| ProbeRounds.MarshalProbeResults | internal/agent/probe_spool.go:198-213 | a body exactly for a non-empty batch of one version that is not negative: a payload with that version and with every round's id, target, kind and samples in order, its time in whole seconds |
| ProbeRounds.UnpackGivesBack | internal/agent/probe_spool.go:198-213 | a payload that reports rounds speaks of exactly these, up to the fraction of a second |
| ProbeRounds.PayloadRoundTrip | internal/agent/probe_spool.go:198-213 | every accepted batch comes out of its payload again |
| ProbeRun.FailedSamples | internal/agent/probe.go:829-836 | as many samples as asked for, numbered from one, all failed with the given label |
| ProbeRun.RunProbe | internal/agent/probe.go:131-175 | a full round of numbered samples, each successful exactly if set-up worked, the run was not cancelled by then and the attempt worked, and otherwise failed with the label of what went wrong first |
| ProbeRun.ProbeOne | internal/agent/probe.go:890-900 | seven kinds are probed, a target of any other kind gets failed samples that say so |
| ProbeRun.ProbeTargets | internal/agent/probe.go:871-907 | in whatever order the slots are filled, the i-th round is the i-th limited target's, with its samples as things went |
| ProbeRun.StampVersion | cmd/zeno-agent/main.go:570-572 | every round gets the version of the batch and is otherwise left alone |
| ProbeRun.StoreAndMark | cmd/zeno-agent/main.go:574-588 | nothing is marked unless it was stored, nothing stored unless the batch was current before the write; only a failing call or a full spool keeps it from being stored, only a change from being marked |
| ProbeRun.RunDueProbes | cmd/zeno-agent/main.go:554-588 | with updates at every gap and three clock readings, of the run, of the spool and of the mark: the stored payload has one round of each due limited target in order, with its count of numbered samples as things went, under their version; it is dropped exactly if an update changed something while it was probed; what is marked is that and nothing else; and it is stored and marked if nothing changes or fails and there is room |
| ProbeRun.UnchangedRun | cmd/zeno-agent/main.go:512-526 | a run that begins and ends in one generation saw no change |
| Envelopes.CanonicalRoundTrip | internal/agent/probe_spool.go:377-400 | a decoder of exactly the layout the spool writes gives back every envelope it writes |
| Envelopes.RenderLength | internal/agent/probe_spool.go:285-296 | other retry data changes a file's length by the difference in digits |
| Envelopes.RetryDigits | internal/agent/probe_spool.go:287-288 | attempt and time take between 2 and 29 digits |
| SpoolModel.WrittenReadsBack | internal/agent/probe_spool.go:377-420 | what the spool writes passes every check of reading and reads back equal |
| SpoolModel.ReadIffIntact | internal/agent/probe_spool.go:377-420 | a file is read exactly if it is regular, within the limit, one envelope of version 1 with positive times, and its batch has rounds and this checksum, in any case of letters |
| SpoolModel.DamageIsNoticed | internal/agent/probe_spool.go:410-412 | a batch changed under its old checksum is not read unless the checksums agree |
| SpoolModel.TempIsNoItem | internal/agent/probe_spool.go:456-463 | a temporary file's name is never an item's |
| SpoolModel.QuarantineNameInjective | internal/agent/probe_spool.go:518-525 | whatever the reasons, different items never share a quarantine file |
| SpoolModel.StepSound | internal/agent/probe_spool.go:146-375 | no single change breaks the books: each stored item is in exactly one place and holds what was stored |
| SpoolRuns.RunSound | internal/agent/probe_spool.go:146-375 | neither does any run of changes, wherever the process stops |
| SpoolRuns.LedgerExact | internal/agent/probe_spool.go:146-375 | in every state of every run each stored item is pending with its own body, or quarantined with its exact bytes, or gone for the recorded reason |
| CrashRestart.TracksChange | internal/agent/probe_spool.go:456-494 | a rename on the disk below is a storing or rewriting of the run, an unlink a removal or a move |
| CrashRestart.TracksStart | internal/agent/probe_spool.go:86-133 | a restarted disk tracks the run that begins there |
| CrashRestart.TracksSync | internal/agent/probe_spool.go:486-494 | a sync of the directory makes all changes so far durable |
| CrashRestart.DiskLeavesPending | internal/agent/probe_spool.go:456-494 | what a power failure leaves of a disk that tracks a run is, for each item, a state of the run since the last sync |
| CrashRestart.JointInStep | internal/agent/probe_spool.go:456-494 | in any run of system calls and changes together, complete or given up, the disk stays sane and tracks the changes since its last sync |
| CrashRestart.PowerFailure | internal/agent/probe_spool.go:456-494 | so after any of them a power failure leaves of every item its state at one moment since the last sync |
| CrashRestart.RestartAfterPowerFailure | internal/agent/probe_spool.go:86-133 | and the spool can be opened on that, with books that remember everything, exactly if no item is left in both directories |
| CrashRestart.LeftItemHolds | internal/agent/probe_spool.go:187-193 | a stored item that is left among the pending ones holds exactly what was stored |
| CrashRestart.RestartSoundIff | internal/agent/probe_spool.go:86-133 | after a power failure there are sound books that remember every item left and every fate exactly if no item is left in both directories |
| CrashRestart.SyncedFateKept | internal/agent/probe_spool.go:480-494 | these books give an item nothing has happened to since the syncs the fate it had |
| CrashRestart.LoseIff | internal/agent/probe_spool.go:526-536 | as long as a moved item stays in the quarantine, whatever else goes on: a crash can leave it nowhere exactly until the quarantine is synced after the move |
| CrashRestart.DoubleIff | internal/agent/probe_spool.go:526-536 | and in both directories exactly until the pending directory is |
| CrashRestart.CrashDuringMove | internal/agent/probe_spool.go:526-536 | before either sync it can be lost or left twice; after the first, and for good if the second one fails, lost but not left twice; after both neither |
| RestartBounds.RestartedOwned | internal/agent/probe_spool.go:86-133 | a spool opened after a power failure holds no items but its own, if the one before did |
| RestartBounds.RestartBound | internal/agent/probe_spool.go:165-178 | it is within its limits up to what was stored since the last sync, and 27 bytes an item |
| RestartBounds.RestartedTame | internal/agent/probe_spool.go:165-178 | and if nothing was, it meets again what the bound of every run starts from |
| SpoolRuns.RunLater | internal/agent/probe_spool.go:273-328 | creation time and body never change and a fate only advances |
| SpoolRuns.ResendIdentical | internal/agent/probe_spool.go:273-302 | every resend of an item is byte-identical |
| SpoolRuns.AckedByAck | internal/agent/probe_spool.go:304-315 | an item is acknowledged only by the removal of its own file for that reason |
| SpoolRuns.FateHasCause | internal/agent/probe_spool.go:304-375 | a pending item's fate changes with its own file only: acknowledged, expired after its time, dropped for its size or quarantined under its name, by what took the file |
| SpoolRuns.NameOrderIsAgeOrder | internal/agent/probe_spool.go:443-449 | the order of file names is that of creation, then of the random digits |
| SpoolModel.MakeIdPads | internal/agent/probe_spool.go:448 | an id starts with the shortest numeral of its time, padded with zeros to twenty characters |
| Text.FixedOrder | internal/agent/probe_spool.go:448 | on zero-padded numerals string order is numeric order |
| Text.TrimParts | internal/agent/probe_uploader.go:341 | trimming takes white space off both ends and nothing else |
| SpoolRuns.PendingBound | internal/agent/probe_spool.go:165-178 | in every state of every run: item limit kept, byte limit kept up to 27 bytes an item |
| SpoolRuns.EmptyTame | internal/agent/probe_spool.go:86-133 | an empty spool meets what that bound starts from |
| SpoolRuns.RetryKeepsByteLimitIff | internal/agent/probe_spool.go:285-299 | a retry keeps the byte limit exactly if the digits it gains are free |
| ByteLimit.ByteLimitCanBeExceeded | internal/agent/probe_spool.go:285-299 | at every time and for every batch: two items that fill the spool and ten retries of one are a legal run that exceeds the byte limit, by the second digit of the attempt counter |
| SpoolRuns.QuarantineBound | internal/agent/probe_spool.go:539-574 | from the first move on the quarantine is within its bounds for ever, whatever it held before |
| ProbeSpoolStore.SortNames | internal/agent/probe_spool.go:225 | the names in order, each once |
| ProbeSpoolStore.NoAckLedger | internal/agent/probe_spool.go:304-315 | nothing but Ack acknowledges |
| ProbeSpoolStore.ProbeSpool.constructor | internal/agent/probe_spool.go:86-133 | a spool may be opened on whatever a previous process left |
| ProbeSpoolStore.ProbeSpool.Enqueue | internal/agent/probe_spool.go:146-196 | the item is stored exactly if its file was renamed, and reported exactly if the directory was synced then; its body is a payload that reports the rounds; with no earlier failure exactly if all checks pass; the new directory |
| ProbeSpoolStore.AcceptsIff | internal/agent/probe_spool.go:146-185 | these checks in plain numbers, over what a cleanup leaves |
| ProbeSpoolStore.ErrorYetStored | internal/agent/probe_spool.go:187-193 | for every batch the checks accept: an error of Enqueue that stores it, when only the last sync fails |
| ProbeSpoolStore.ProbeSpool.PutItem | internal/agent/probe_spool.go:187-193 | the file of a new item is there exactly if the rename worked |
| ProbeSpoolStore.ProbeSpool.CheckRoom | internal/agent/probe_spool.go:171-185 | the item, count, byte and free-space checks, the last with its uint64 sum |
| ProbeSpoolStore.ProbeSpool.Next | internal/agent/probe_spool.go:215-252 | the due, unexpired, valid item of least name, or none exactly if there is none |
| ProbeSpoolStore.KeptAndDue | internal/agent/probe_spool.go:215-252 | what a cleanup keeps are the intact items within their time, what is due those whose gate has been passed |
| ProbeSpoolStore.ProbeSpool.NextEntry | internal/agent/probe_spool.go:226-250 | after a cleanup the second age check never fires, and only a failing read quarantines |
| ProbeSpoolStore.ProbeSpool.ScheduleRetry | internal/agent/probe_spool.go:273-302 | succeeds exactly under its checks, rewrites the retry data and nothing else |
| ProbeSpoolStore.ProbeSpool.Ack | internal/agent/probe_spool.go:306-315 | removes the item's file, as an acknowledgement, and nothing else |
| ProbeSpoolStore.ProbeSpool.Quarantine | internal/agent/probe_spool.go:319-328 | moves the exact bytes into the quarantine, which is then within its bounds |
| ProbeSpoolStore.ValidIdIff | internal/agent/probe_spool.go:330-337 | which ids are refused: those that name no plain file, or end in .json in any case |
| ProbeSpoolStore.ProbeSpool.CleanupPending | internal/agent/probe_spool.go:348-375 | leaves exactly the valid unexpired items; temporary files go |
| ProbeSpoolStore.ProbeSpool.PendingUsage | internal/agent/probe_spool.go:422-441 | the number and the bytes of the item files |
| ProbeSpoolStore.ProbeSpool.WriteTempFile | internal/agent/probe_spool.go:456-479 | whatever fails, at most a temporary file is left |
| ProbeSpoolStore.ProbeSpool.AtomicWrite | internal/agent/probe_spool.go:456-487 | the items are as before or as after; after exactly if the rename worked, with success exactly if the sync did too |
| ProbeSpoolStore.ProbeSpool.RemoveFileAndSync | internal/agent/probe_spool.go:489-494 | removes the file or nothing |
| ProbeSpoolStore.ProbeSpool.QuarantinePath | internal/agent/probe_spool.go:496-537 | moves, or removes what is too large or no regular file |
| ProbeSpoolStore.ProbeSpool.MoveToQuarantine | internal/agent/probe_spool.go:526-536 | the exact bytes end up in the quarantine, which is within its bounds |
| ProbeSpoolStore.ProbeSpool.PruneQuarantine | internal/agent/probe_spool.go:539-574 | evicts the shortest prefix in name order that makes room, and ends |
| ProbeSpoolStore.ListedTail | internal/agent/probe_spool.go:562-572 | dropping the first file keeps the list and its total right |
| DurableWrite.StepSane | internal/agent/probe_spool.go:456-487 | every system call keeps item names on fully written, synced files |
| DurableWrite.BootSane | internal/agent/probe_spool.go:86-133 | whatever a crash left is a good start for the next run |
| DurableWrite.NoTornItem | internal/agent/probe_spool.go:456-487 | after any run a crash leaves no item half written: each is as it stood since the last directory sync |
| DurableWrite.CrashAtomic | internal/agent/probe_spool.go:456-487 | a crash after any step of one write, on any sane disk, leaves what a crash could have left before, with or without the new item; once it returned without error exactly the new items; with only given-up writes since the last sync exactly the old or exactly the new ones |
| DurableWrite.CrashedStore | internal/agent/probe_spool.go:187-193 | so the queue is one a crash could have left before, or that with the new item |
| RetryDelay.ProbeUploadBackoff | internal/agent/probe_uploader.go:323-338 | the doubling loop is min(2^(max(n,1)-1), 300) s for every uint32 and never overflows |
| RetryDelay.BackoffLadder | internal/agent/probe_uploader.go:323-338 | 1, 2, 4, up to 256 and from then on 300 seconds |
| RetryDelay.DelaySecondsObeyed | internal/agent/probe_uploader.go:340-370 | delay-seconds (section 10.2.3 of RFC 9110) of any length are obeyed up to five minutes |
| RetryDelay.RetryAfterRange | internal/agent/probe_uploader.go:340-370 | every header asks for at most five minutes |
| RetryDelay.RetryAfterByText | internal/agent/probe_uploader.go:340-370 | by the header's text: which headers ask for no delay, and which ask for nothing |
| RetryDelay.DelayRange | internal/agent/probe_uploader.go:295-311 | every delay is within five minutes; zero exactly for a header that asks for that, or one that asks for nothing and a draw of nothing |
| RetryDelay.DelayIsWaited | internal/agent/probe_uploader.go:295-370 | the delay is exactly what the header's text says: digits of value N wait min(N, 300) s, a time in the future waits until then or 300 s, and where nothing is asked the draw is clamped to the attempt's limit |
| ProbeUpload.ProbeUploader.RetryDelayOf | internal/agent/probe_uploader.go:300-310 | exactly that delay, by the header's text and the draw |
| ProbeUpload.ProbeUploader.ScheduleRetry | internal/agent/probe_uploader.go:295-316 | one attempt more and a gate at now plus exactly what the header's text or the draw says, stored and announced; a local failure leaves the item alone |
| ProbeUpload.ProbeUploader.SendOldest | internal/agent/probe_uploader.go:144-164 | the least due item is sent with its stored body, or there is none |
| ProbeUpload.ProbeUploader.EnqueueMeanwhile | internal/agent/probe_spool.go:146-196 | any calls of Enqueue while a body is on its way keep the log right |
| ProbeUpload.BodyKept | internal/agent/probe_uploader.go:161-187 | whatever changes but acknowledgements come in, the body that was sent is still the stored one |
| ProbeUpload.ProbeUploader.SettleItem | internal/agent/probe_uploader.go:165-207 | wherever the item is by now, what the caller is told fits the reply by its numbers; an item that is gone stays gone, an acknowledged one is entered as such, a rejected one's exact bytes are quarantined under a name that says its status |
| ProbeUpload.ProbeUploader.UploadOne | internal/agent/probe_uploader.go:144-208 | with any calls of Enqueue during the POST the log stays right and the caller is told what fits the reply; without them the oldest due item is sent: after 408, 429, 500 to 599 or no answer it stays with its body and one attempt more, unless that would be too large, after 200 to 299 it is acknowledged, after any other status rejected, and the others stay |
| ProbeUpload.StepHandles | internal/agent/probe_uploader.go:144-208 | the step of the verdict is what the protocol asks for by its numbers |
| ProbeUpload.RejectedName | internal/agent/probe_uploader.go:192-195 | the quarantine name of a rejected item, by status and code |
| ProbeUpload.DirectoryStepIsUploadStep | internal/agent/probe_uploader.go:144-208 | changing the directory is that step of the abstract queue |
| ProbeUpload.LogStaysRight | internal/agent/probe_uploader.go:182-187 | over any run of other changes: every sent body was the stored one, and every acknowledged item was accepted with exactly its body |
| ProbeUpload.UploadShrinksDueIff | internal/agent/probe_uploader.go:144-208 | an upload takes exactly the sent item out of the due ones, unless cancelled or gated with no delay, by the header's text and the draw |
| ProbeUpload.RetryAfterZeroStaysDue | internal/agent/probe_uploader.go:340-356 | a `Retry-After: 0` leaves any item due |
| ProbeUpload.SettledShrinks | internal/agent/probe_uploader.go:212-238 | a settled upload shrinks the due items even when calls fail |
| ProbeUpload.ProbeUploader.Drain | internal/agent/probe_uploader.go:212-238 | if no due item's reply asks for no delay the loop ends after at most the initially due items, with none due, whatever the Controller answers to each upload |
| Wakeup.NoLostWakeup | internal/agent/probe_uploader.go:238-247 | in every interleaving a sleeping uploader has a token if an item was stored without error since its last look |
| Wakeup.OverlookedFailed | internal/agent/probe_spool.go:190-195 | only an item whose directory sync failed can be overlooked |
| Wakeup.SyncDecides | internal/agent/probe_spool.go:190-195 | whether the sync succeeds decides whether a sleeping uploader is woken |
| Wakeup.WakeupCanBeLost | internal/agent/probe_spool.go:190-195 | the interleaving in which it is not |
| PresenceReconnect.RunPresenceLoop | internal/agent/presence.go:55-107 | for all durations, set or usual: each wait follows from the streak of short connections: the initial one doubled up to the maximum, back to the initial one after a stable connection |
| PresenceReconnect.StreakSinceStable | internal/agent/presence.go:80-107 | only the short connections since the last stable one count |
| PresenceReconnect.UsualBackoff | internal/agent/presence.go:30-33 | with the usual durations 1, 2, 4, 8, 16 and then 30 seconds |
| NetworkRate.MetricsCollector.CollectState | internal/agent/metrics.go:94-121 | what is reported and the new baseline for successful and failed reads: a speed times the nanoseconds since the last reading is the bytes gained times 10^9, or zero if the counter fell or cannot be compared |
| NetworkRate.RateConservation | internal/agent/metrics.go:94-121 | for every trace the speeds, each times the nanoseconds since the last reading, stand for exactly what the counter rose between comparable readings |
| NetworkRate.FailedReadsMoveNothing | internal/agent/metrics.go:107-113 | without its failed reads a trace gives the same baseline and bytes |
| NetworkRate.SpeedsAddUpIff | internal/agent/metrics.go:94-106 | for one counter and increasing times the sum is last minus first exactly if the counter never fell |
| WindowsQuoting.JoinWindowsCommandLine | install.ps1:284-297 | the joined line, refused exactly if a part has a line break |
| WindowsQuoting.ArgumentsRoundTrip | install.ps1:284-297 | CommandLineToArgvW gives back every argument list |
| WindowsQuoting.CommandLineRoundTripIff | install.ps1:293-297 | the whole line round-trips exactly for a path without quote and without final backslash |
| SystemdQuoting.SystemdEscapeArg | install.sh:156-170 | the four passes, refused exactly for a line break |
| SystemdQuoting.SystemdJoinArgs | install.sh:172-182 | the joined line, refused exactly if an argument has a line break |
| SystemdQuoting.EscapedStep | install.sh:165-168 | the four passes together escape character by character |
| SystemdQuoting.SystemdRoundTrip | install.sh:156-182 | unquoting, then specifiers, then variables give back every argument list |
| SemVer.CompareIsPrecedence | scripts/check-release-policy.sh:49-64 | the comparison's sign is precedence by section 11 of SemVer 2.0.0, zero for equal versions only |
| SemVer.CompareIsPreorder | scripts/check-release-policy.sh:49-64 | reflexive, antisymmetric in sign, transitive |
| SemVer.CoreIsPrinted | scripts/check-release-policy.sh:33-47 | a parsed tag is its version printed, and build metadata |
| SemVer.ParseOfPrint | scripts/check-release-policy.sh:33-47 | every version is denoted by the tag it prints as |
| SemVer.ParseIff | scripts/check-release-policy.sh:25-47 | a text is read as a version exactly if it is a tag of it, with or without build metadata, by the characters allowed |
| SemVer.ZeroIffSameCore | scripts/check-release-policy.sh:33-64 | tags compare equal exactly if they agree apart from build metadata |
| SemVer.GateIff | scripts/check-release-policy.sh:66-77 | the gate passes exactly if every other version tag is below |
| SemVer.ReleasesIncrease | scripts/check-release-policy.sh:66-77 | releases gated one after the other strictly increase |

## Left out

- ProbeSpool.Load, directory creation, file modes and access lists, and the default limits.
- HTTP, WebSocket, TLS and DNS; network outcomes are replies, cancellations and errors.
- Torn files in the quarantine: files come there by rename, with their bytes synced before; only names can go back in a crash.
- When each method syncs the quarantine: `CrashRestart` takes its last sync as given; that of the pending directory is a step of the joint run.
- The probes themselves (TCP, ping, HTTP), their address-safety rules, and latencies: whether set-up and attempts work, and with which label they fail, are parameters.
- The concurrency of ProbeTargets beyond the order in which slots are filled, and the labels of timed-out runs.
- Who is told of a rejected upload: in `Workers` the refresh after a stale result is one more refresh without acknowledgement.
- The poll timer's length: in `Wakeup` it may ring at any time.
- Overflow of the byte totals in int64, which the limits keep far away.
- Changes to both directories by anyone but the spool while it runs, except what it finds when it is opened.
- CPU, memory, disk and identity collection, state sample identifiers, the install receipt, and the rest of the installers.
- The prefixes and the variable rules of the first word of a systemd command, numeric escapes, single specifiers and single variables: the reader of `SystemdQuoting` gives up on them, and the printer writes none.
- Rounding: speeds are reals where the program has float64.
- Lazily created gates of a zero-value manager, and gates on a nil manager.
- PresenceReconnect.RunPresenceLoop: says only how many waits there are if the maximum is above 2^62 ns (146 years), where a doubling may wrap.
- ProbeUpload.ProbeUploader.Drain: nobody else changes the spool meanwhile; items stored during a POST would be sent by the same loop.
- Starvation.DueTargetIsProbed: counts runs whose batch is stored; the others are DueTargetIsStored.
- Starvation.TheRestStarves: gives a schedule under which targets starve, not all such schedules; whom a single run reaches is exact in ReachedIff.
- Workers.StoredBeforeCompleted: the record is what the step hands to the spool; that the spool stores rounds of exactly these targets is ProbeRun.RunDueProbes.
- Envelopes.CanonicalRoundTrip: reads the one layout the spool writes; of the JSON decoder it only shows that its assumed behaviour can be met.
- ProbeSpoolStore.ProbeSpool.ScheduleRetry: takes positive retry times only, as its one caller passes them; the source would also persist one at or before 1970, which makes the file an invalid item.
- CrashRestart.RestartSoundIff: gives no books for an item left in both directories; the next cleanup or upload treats the two files as two.
