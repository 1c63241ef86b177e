# vzgot: verified model of the supervisor and its libraries

vzgot runs Linux containers. A supervisor process locks a container, builds its cgroups, starts a cloned process that
waits on a pipe for the clearance to boot, watches it, stops it, and cleans up or starts it again. Around that sit a
CPU allocator, a monitor inside the container that repairs mounts, a template engine for status pages, and some list
and text helpers. This project models those parts in Dafny and proves what they keep over every run and every input.
Kernel calls and scripts are represented by their outcomes, which the theorems quantify over.

| module | what it models |
|---|---|
| `BootPhases` | the 22-phase loop of `boot`, its TOOBAD and REBOOT jumps |
| `Lifecycle` | supervisor, console loggers and clones, call by call, with descriptor tables; any call may fail, any process may die |
| `SupervisorLock` | the lock file and any number of supervisors that compete for it |
| `ContAttend` | signal flags, the event loop and the escalation of kills |
| `CgroupTree` | the cgroup tree of all containers, its building and its teardown |
| `CpuDraw`, `CpuList`, `CpuCounter` | the weighted draw of CPUs; CPU lists and the CPU quota; the two functions that count a container's CPUs |
| `Monitor` | mount checks, the sliding window of repairs, the poll loop |
| `CText`, `Template`, `TemplateRender`, `CommentEscape` | text in fixed buffers; the status template and what its loop amounts to; comments in configuration lines |
| `RingList`, `ProcessList` | the doubly linked ring; process lists and how they are ended |
| `ConsoleHandshake` | the start / device ready / pty done handshake of the pivot program |

Where the code changes things step by step, the model is a method with loops or a class with fields, proved equal to a
function on values; the theorems are about that function, or about all interleavings of the steps.

## What turned out false, and when it holds

- The cleanup does not always release the sync pipe: phase 16 closes `sync_pipe[1]` where its loop means
  `sync_pipe[i]`, so never `sync_pipe[0]`. `Lifecycle.ReadEndLeak` says exactly when the read end stays open, `ReadEndLeakExample` reaches it.
- A SIGKILL is not always preceded by a power-off that ran or by a SIGINT: `vzexec` reports success without running
  anything when its own configuration load or pid lookup fails. `ContAttend.KillsWarnedUnlessUnheard` has the exact
  condition, `UnwarnedKillExample` the run.
- A reboot forgets SIGHUP and SIGINT but not SIGTERM and SIGQUIT: the next attempt is then powered off at its first
  interrupt of any kind (`ContAttend.StopOutlivesReboot`).
- Mutual exclusion of supervisors fails: a configuration failure in phase 0 jumps into the cleanup and unlocks, a failed
  `stat` or `open` of the lock file counts as missing, and the lock is reported as taken though its pid was not written.
  `SupervisorLock.ExclusiveIff`, `SecondCriticalIff`, `LostFromSoundWorld` and `UnwrittenPid` say exactly when
  exclusion is lost; a run from the start with just one of these failures loses it (`ConfigFailureBreaksIt`,
  `UnopenedLockBreaksIt`, `UnwrittenPidBreaksIt`), a run with none never does (`MutualExclusion`).
- A reboot is decided on the latest `cont_attend` result of any attempt, since `status` is not reset: an attempt that
  fails early after a reboot reboots again (`BootPhases.RebootDecision`), possibly for ever (`RebootsForEver`).
- A draw of exactly 1, which `rand()/RAND_MAX` can give, draws no CPU (`CpuDraw.RoundsDrawDistinct`), and a hole in the
  affinity mask makes the allocator fail on an ordinary /proc/stat (`CpuDraw.ReadableIffNoHole`). The host list lets such
  a mask through when the online count is that of the mask, as with a C library that counts the CPUs a process may use
  (`HoleFails`); it does not when that count is the number of CPUs that /proc/stat lists (`OnlineListed`).
- The CPUs of a container are miscounted when its list is longer than the line buffer and the cut does harm:
  `CpuCounter.FirstCounter` and `SecondCounter` say exactly where the cut must fall, `EvenCpusMiscounted` is an input,
  and `CountersAgree` says exactly when the two functions, whose buffers differ by one character, differ.
- A text that ends in the comment character hides a comment that follows it (`CommentEscape.CommentIsIgnored`).
- The substitution loop scans its own output. On a line where no value met contains '$' it gives what a plain renderer
  gives if and only if no value met is empty, whatever the rest of the template is (`TemplateRender.RescanIsOnePass`,
  `UpdatedLineIsOnePass`): an empty value stalls its line (`EmptyValueStalls`). A value with '$' is replaced again, as
  with the declarations `CNAME=<$HNAME:>` and `HNAME=<h>` (`DollarValueDiffers`). A substitution is what it is meant to
  be exactly when key and value fit (`Template.Splice`, `Substitute`).
- `vec_rmveclst` removes every match exactly when none lies too far back, for its bound shrinks as it counts up; and it
  never moves the head (`RingList.RemovalComplete`, `RingList.RemoveVecList`).
- A device whose source or target is missing is charged as a repair on every pass, and so ends the monitor
  (`Monitor.BrokenDeviceEndsLoop`); a SIGTERM that arrives between the loop's test and the result
  of a check, the poll itself excepted, is overwritten by that result (`Monitor.SigtermOutlived`).
- The console handshake can hang once a call fails, for both processes keep all pipe ends open:
  `ConsoleHandshake.StuckByFirstFailure` says exactly for which failing calls it does.

## Model

| member | source | states |
|---|---|---|
| BootPhases.Boot | app/vzgot.c:1352-1578 | the phase loop with its jumps runs the bodies that the control graph allows, in order, and ends with that graph's status |
| BootPhases.AfterSuccess | app/vzgot.c:1352-1578 | the body that follows each body when its calls work, and the status it leaves |
| BootPhases.AfterFailure | app/vzgot.c:1357-1573 | and when one fails: bodies 0, 2 to 9, 11 and 14 are followed at once by 16, bodies 1 and 18 end the run, all others go on |
| BootPhases.WatchesIff | app/vzgot.c:1383-1506 | an attempt comes to watch its container, with body 13 eleven bodies after 2, if and only if bodies 2 to 9 and 11 all succeed |
| BootPhases.AttemptCleansUp | app/vzgot.c:1383-1543 | every attempt that enters phase 2 runs 16, 17 and 18 in order within fourteen bodies, before any end or new attempt |
| BootPhases.StatusIsLatestAttend | app/vzgot.c:1380-1383 | the status any body sees is the latest watch result of any attempt, 0 if none; only a power-off is rewritten to 0 |
| BootPhases.RebootDecision | app/vzgot.c:1545-1561 | a reboot follows phase 19 if and only if the latest watch result is 1; otherwise the unlock does |
| BootPhases.RebootsForEver | app/vzgot.c:1545-1551 | once a watch returned 1, a supervisor whose phase 9 fails each time and whose umount works never halts and never watches again |
| BootPhases.AttemptEntry | app/vzgot.c:1371-1383 | phase 2 is entered only from the lock or from a reboot decided by result 1 |
| BootPhases.HowARunEnds | app/vzgot.c:1371-1578 | the three ways a run can end, each with its status: lost lock, failed umount without unlock, or unlock and phase 21 |
| BootPhases.LoserRunsNoCleanup | app/vzgot.c:1371-1379 | a supervisor that loses the lock ends with status 1 and never runs a body after phase 1 |
| BootPhases.ConfigFailureUnlocksUnlocked | app/vzgot.c:1357-1360 | a configuration failure leads through the cleanup to the unlock although nothing was locked |
| Lifecycle.StepOk | app/vzgot.c:1352-1573 | every action of supervisor, loggers and clones, failures and deaths included, keeps the invariant on descriptors, milestones and pipe bytes |
| Lifecycle.BootsOnlyWhenCleared | app/vzgot.c:1076-1099 | in every reachable state a booted clone's own attempt has written pid file and start time, tried cgroup move and id map, brought the network up and sent the one clearance it consumed, in this order |
| Lifecycle.WaitsOnItsOwnPipe | app/vzgot.c:1078-1088 | a clone that waits reads its own attempt's pipe and holds no write end of any |
| Lifecycle.AbortedNeverBoots | app/vzgot.c:1518-1532 | once the supervisor gave an attempt up, its clone never boots in any continuation |
| Lifecycle.NoWriteEndSurvives | app/vzgot.c:1518-1532 | after cleanup or death of the supervisor only the attempt's own logger and clone can still hold a write end, until they close it |
| Lifecycle.RankStep | app/vzgot.c:743-763 | no action moves the clone's answer further away; each helping call brings it strictly nearer |
| Lifecycle.NeverStuck | app/vzgot.c:1076-1099 | a clone without its answer always has some process able to bring it nearer, without any death |
| Lifecycle.AnswerComes | app/vzgot.c:1076-1099 | from any such state at most 38 calls, none of them a death, lead to a clone that has its answer; it then has booted if and only if the clearance was sent |
| Lifecycle.AnswerIsRight | app/vzgot.c:1083-1090 | in every run that does not kill the clone, a clone that has its answer has booted if the clearance was sent, and has not if it was not |
| Lifecycle.BootedStays | app/vzgot.c:1091-1099 | a boot is never undone: whatever happens later, a clone that booted is one that booted |
| Lifecycle.ReadsAtOnce | app/vzgot.c:1083-1090 | a clone that waits for a clearance that was sent can read it at once, and then boots |
| Lifecycle.BootIsPossible | app/vzgot.c:1462-1499 | whenever a supervisor has started its clone and not failed since, there is a continuation in which that clone boots |
| Lifecycle.BootHappens | app/vzgot.c:1352-1499 | from the first world on there is a run in which a clone boots |
| Lifecycle.AnswerCannotBePutOff | app/vzgot.c:1076-1099 | in every run at most 38 helping calls pass before the answer: a fair scheduler cannot starve the clone |
| Lifecycle.RebootFindsItClean | app/vzgot.c:1380-1391 | at every reboot entry console, logger, cgroups and /dev of the last attempt are released, except after an interrupted wait or a failed removal |
| Lifecycle.CgroupsStay | app/vzgot.c:1421-1538 | cgroups exist from phase 5 on, failed or not, until a removal in phase 17 works |
| Lifecycle.CleanReboot | app/vzgot.c:1518-1551 | after a run in which no wait for a logger was interrupted and every removal of cgroups worked, a reboot finds no console, logger, cgroups or /dev of the attempt before |
| Lifecycle.ReadEndLeak | app/vzgot.c:1518-1532 | after the cleanup the read end is still open if and only if the pipe was made and the clone never started, up to a stale `slave_fd` of that number |
| Lifecycle.ReadEndLeakExample | app/vzgot.c:1526-1531 | such a leak is reachable |
| SupervisorLock.LockDirectory.Lock | lib/unilck.c:140-265 | the phases of the lock call leave the file and the result that the specification of the call gives, for any interference between tries |
| SupervisorLock.LockDirectory.WaitForFile | lib/unilck.c:183-227 | the waiting loop gives up or goes on to create, as the tries say |
| SupervisorLock.LockDirectory.Unlock | lib/unilck.c:162-170 | the unlock removes the file whoever owns it |
| SupervisorLock.LockMeaning | lib/unilck.c:140-262 | the lock call returns true if and only if the directory, `creat` and `flock` work and the file is missing or cannot be looked at, or is regular and no tries are asked for or at some try it is missing, unopenable, or empty or of a dead owner and removed |
| SupervisorLock.LockedFile | lib/unilck.c:245-262 | a call that returns true leaves its own pid in the file, or an empty file when the pid could not be written |
| SupervisorLock.RefusedFile | lib/unilck.c:183-243 | a refused call leaves a file that was there, or none when a stale one was removed and not created anew, or an empty one when `flock` failed |
| SupervisorLock.FirstFreeTry | lib/unilck.c:183-262 | the first try at which nothing stands in the way decides, with the exact file and result |
| SupervisorLock.NoFreeTry | lib/unilck.c:183-227 | without such a try the call gives up and leaves the file it saw last |
| SupervisorLock.TriesSucceed | lib/unilck.c:183-262 | the tries get the lock if and only if one of them is free and creation and flock work |
| SupervisorLock.BodyOneIsOneCall | app/vzgot.c:1371-1379 | in any run the tries of a supervisor in phase 1, whatever others do in between, are together one lock call with five tries: same file, and between lock and unlock if and only if the call returns true |
| SupervisorLock.OneTry | lib/unilck.c:183-227 | one try of the run is one step of that call: it ends it with its result, or the rest of the call is what is left to do |
| SupervisorLock.UnlockFrees | app/vzgot.c:1562-1567 | after the owner unlocked, the next supervisor that tries with working calls gets the lock at once |
| SupervisorLock.ExitFrees | lib/unilck.c:195-219 | and so does the owner's end, however it comes |
| SupervisorLock.UnlockMeaning | lib/unilck.c:162-170 | an unlock removes the file if and only if the directory is found and `unlink` works on it, and changes nothing else |
| SupervisorLock.StepKeepsInv | lib/unilck.c:122-265 | every action of any supervisor keeps: whoever is between lock and unlock is named in the file |
| SupervisorLock.MutualExclusion | app/vzgot.c:1371-1379 | over all runs of any number of supervisors without the three failures at most one is between its lock and its unlock |
| SupervisorLock.SecondCriticalIff | lib/unilck.c:171-262 | from any world with one critical supervisor an action makes a second one if and only if it is another's configuration failure or a lock attempt that gets past the file and creates it |
| SupervisorLock.ExclusiveIff | app/vzgot.c:1357-1379 | a whole run is exclusive throughout if and only if no such action happens in it |
| SupervisorLock.LostFromSoundWorld | lib/unilck.c:171-262 | after a run without failures, exclusion is lost exactly by another's configuration failure, or by a try that cannot look at the file and creates it |
| SupervisorLock.UnwrittenPid | lib/unilck.c:212-262 | after a lock whose pid was not written, another one gets it too if and only if it can remove the empty file or cannot look at it, and can create it |
| SupervisorLock.RefusedIffLooked | lib/unilck.c:171-227 | a second supervisor is refused if and only if it could look at the file, or could not create it |
| SupervisorLock.StaleLockNeverBlocks | lib/unilck.c:195-219 | a lock left by a dead or finished supervisor is taken over at the first look |
| SupervisorLock.ConfigFailureBreaksIt | app/vzgot.c:1357-1360 | a run from the start whose one failure is a configuration that does not load, and that loses exclusion |
| SupervisorLock.UnwrittenPidBreaksIt | lib/unilck.c:245-262 | a run from the start whose one failure is a pid that is not written, and that loses exclusion |
| SupervisorLock.UnopenedLockBreaksIt | lib/unilck.c:187-188 | a run from the start whose one failure is a lock file that cannot be opened, and that loses exclusion |
| ContAttend.Signals.Trap | lib/utlapl.c:66-73 | the handler adds one to the counter of its own signal and touches no other |
| ContAttend.Signals.Check | lib/utlapl.c:845-901 | counters become flags and are cleared; the number of signals is returned |
| ContAttend.RaisedMeaning | lib/utlapl.c:853-897 | each flag says whether its signal was ever seen, whatever the order; SIGQUIT also counts as SIGTERM |
| ContAttend.Signals.Watch | app/vzgot.c:545-632 | the event loop equals the specification poll by poll |
| ContAttend.WaitEnds | app/vzgot.c:549-629 | over any polls the supervisor still waits if and only if no earlier poll found the container's process gone or failed, and none timed out at kill mode 2 |
| ContAttend.EndingPoll | app/vzgot.c:581-626 | the poll that finds the process gone sends nothing and keeps flags and kill mode; only the last time-out kills |
| ContAttend.LeavesZero | app/vzgot.c:563-603 | kill mode 0 is left if and only if an interrupt finds a stop asked for or a time-out finds the monitoring process lost |
| ContAttend.Signals.Attend | app/vzgot.c:515-685 | the whole wait: monitor lookup, pid descriptor, the loop from exactly the flags gathered until then, reaping, and the result for the reboot decision |
| ContAttend.GatheredKeeps | app/vzgot.c:523-535 | a signal that comes during the monitor lookup stays raised, and is acted upon only at the next interrupt |
| ContAttend.ResultMeaning | app/vzgot.c:633-685 | 1 if and only if SIGHUP was seen or the container died by signal 1; 2 if and only if it died by signal 2 without SIGHUP; no exit code is mistaken for either |
| ContAttend.AfterWaitMeaning | app/vzgot.c:633-672 | otherwise the result is 0 when nothing was reaped, 256 times the exit code, or the number of the signal that ended the container |
| ContAttend.KillModes | app/vzgot.c:587-624 | the kill mode is 0, 1 or 2 at every poll: the branch for other values is dead |
| ContAttend.StopIsSticky | app/vzgot.c:563-579 | once a stop was requested every later interrupt requests it again with kill mode 1 |
| ContAttend.CarriedStop | app/vzgot.c:1380-1383 | over any attempts, one begins with the flag of SIGTERM if and only if SIGTERM or SIGQUIT ever came before, and with no other stop flag |
| ContAttend.StopOutlivesReboot | app/vzgot.c:563-579 | the first interrupt of an attempt requests the power-off if and only if it brings a stop signal or one of those came in any earlier attempt |
| ContAttend.EscalationEnds | app/vzgot.c:549-629 | a pending stop ends within three polls per further interrupt, within two timeouts once interrupts cease |
| ContAttend.StopEscalates | app/vzgot.c:563-624 | a stop and two time-outs send what the power-off request sends, then SIGINT, then SIGKILL, and end the wait |
| ContAttend.LostMonitorEscalates | app/vzgot.c:587-624 | a lost monitoring process and two further time-outs send SIGINT and SIGKILL without a power-off |
| ContAttend.ShutdownMeaning | app/vzgot.c:376-486 | the power-off command runs if and only if all five calls work; SIGKILL follows if and only if the first two work and the command was not tried in vain |
| ContAttend.OnePollWarns | app/vzgot.c:394-486 | one poll keeps every SIGKILL warned unless it asks through a power-off that ran nothing |
| ContAttend.KillsWarnedUnlessUnheard | app/vzgot.c:376-486 | in every run an unwarned SIGKILL was sent if and only if such a request came before any warning |
| ContAttend.UnwarnedKillExample | app/vzgot.c:321-382 | such a run exists |
| CgroupTree.NeverInternal | lib/unicnt.c:1134-1187 | over any interleaving of calls by any supervisors and containers the three inner directories never hold a process, so controllers are never refused there |
| CgroupTree.OwnMovesAllowed | lib/utlsys.c:1686-1697 | every move that vzgot makes goes to the top or to a container's own directory, never to an inner one |
| CgroupTree.CallKeepsValid | lib/utlsys.c:66-85 | every kernel call keeps a tree in which processes sit in existing directories |
| CgroupTree.Cgroups.CleanBelow | lib/utlsys.c:66-121 | the post-order walk, any depth and any sibling order, removes all if and only if no process sits below; it never touches anything outside |
| CgroupTree.Cgroups.CleanRecursive | lib/utlsys.c:94-121 | kill, then walk: everything below is gone; the caller survives if and only if it was not in there |
| CgroupTree.Cgroups.Teardown | app/vzgot.c:1533-1539 | the supervisor survives if and only if its move to the top worked or it was in neither directory; nothing of other containers changes; both subtrees go |
| CgroupTree.OthersAreNotOwn | lib/utlsys.c:1376-1379 | another container's directories, the inner ones and the rest of the system lie outside what a teardown may touch |
| CgroupTree.HomesApart | lib/utlsys.c:1322-1340 | directories of different containers or kinds share nothing |
| CgroupTree.Cgroups.SetCgroup | lib/unicnt.c:1118-1187 | success if and only if phases 0, 2, 3, 5, 6 and 7 succeed; exactly which of the five directories exist afterwards, also after a failure; who is moved; controllers delegated exactly as the unchecked writes work |
| CgroupTree.Cgroups.SetUpPhase | lib/unicnt.c:1136-1181 | the whole new tree after each phase |
| CgroupTree.Cgroups.Attempt | app/vzgot.c:1421-1538 | round trip: building, forking, moving, any calls of the container below its directory, and teardown leave the former tree plus the three inner directories, all container processes gone, the supervisor at the top |
| CgroupTree.WorkGoesOn | app/vzgot.c:1476-1479 | no call that a container's process makes below its own directory changes anything outside it |
| CpuDraw.RoundIsProportional | lib/utlsys.c:418-436 | whatever the start, a CPU is picked if and only if the draw lies in an interval as long as its weight; all intervals lie in [0, total) |
| CpuDraw.IntervalsDisjoint | lib/utlsys.c:423-436 | the intervals of two CPUs do not meet |
| CpuDraw.FullScan | lib/utlsys.c:423-429 | a scan from any start adds up to the same total |
| CpuDraw.RoundPicksOne | lib/utlsys.c:413-437 | a round picks exactly one available CPU while the draw is below the total, and the total drops by its weight |
| CpuDraw.RoundsDrawDistinct | lib/utlsys.c:413-437 | all rounds together draw one new CPU per draw below 1 until none is left |
| CpuDraw.NextRound | lib/utlsys.c:413-437 | what each round adds to the CPUs drawn |
| CpuDraw.WantedMeaning | lib/utlsys.c:347-351 | the wanted number is the percentage of the available CPUs rounded down, at least one, and all of them from a hundred percent on |
| CpuDraw.Selector.ReadWeights | lib/utlsys.c:372-411 | succeeds if and only if the lines fit the mask; then each CPU has its weight from its own line, and `sum_w` is their sum |
| CpuDraw.WeightsAreInverse | lib/utlsys.c:405-409 | for each CPU of the mask the weight times its user, nice and system time plus one is 1; all other weights are 0 |
| CpuDraw.LessLoadedWeighsMore | lib/utlsys.c:405-409 | of two CPUs the less loaded one has the larger weight, and so the longer interval of draws |
| CpuDraw.IdleCpuIsDrawn | lib/utlsys.c:405-437 | an input: of an idle and a busy CPU a draw halfway chooses the idle one |
| CpuDraw.ReadableMeaning | lib/utlsys.c:373-405 | the lines fit if and only if each CPU of the mask finds its own line behind those of the smaller ones |
| CpuDraw.Selector.DrawOne | lib/utlsys.c:413-437 | one pass of the array loop equals the round of the specification and keeps `sum_w` the sum of the undrawn |
| CpuDraw.Selector.DrawAll | lib/utlsys.c:412-439 | all passes equal the rounds of the specification; only available CPUs, counted exactly |
| CpuDraw.SelectCpus | lib/utlsys.c:337-440 | success if and only if the host list, /proc/stat, its first line and its CPU lines are right; the chosen set is what the wanted number of rounds draws from the inverse loads, lies in the mask, and has exactly the wanted size when every draw is below 1 |
| CpuDraw.ReadableIffNoHole | lib/utlsys.c:373-405 | on an ordinary /proc/stat the reading succeeds if and only if the mask has no hole |
| CpuDraw.HoleFails | lib/utlsys.c:1945-1956 | an input that passes the host list and then fails: the mask {0, 2, 3} of four CPUs with an online count of three |
| CpuDraw.OnlineListed | lib/utlsys.c:1945-1956 | where the online count is the number of CPUs listed, an accepted host list has no hole and reading succeeds |
| CpuList.CountCpus | lib/utlsys.c:1852-1872 | the loop that cuts the list in its buffer computes the count of the list, modulo the sixteen bits of the counter |
| CpuList.ListIsCounted | lib/utlsys.c:1852-1872 | every ascending list of disjoint numbers and ranges counts as exactly the size of the set it denotes |
| CpuCounter.SysGetNumcpu | lib/utlsys.c:1808-1885 | the first function: its buffer, its count and its fallback |
| CpuCounter.PrcGetnbrcpu | lib/subprc.c:631-707 | the second one, with its shorter buffer and cleaned line |
| CpuCounter.PrefixIsCounted | lib/utlsys.c:1852-1872 | the counting loop on a list cut off at any character: the items that are whole, and what the last piece adds |
| CpuCounter.CutCount | lib/utlsys.c:1852-1872 | the count of a list cut off is never too large, and right if and only if the cut leaves enough of the last item |
| CpuCounter.FirstCounter | lib/utlsys.c:1839-1880 | on lists of any length the first function is right if and only if the cut by its buffer is harmless or the fallback happens to be right |
| CpuCounter.SecondCounter | lib/subprc.c:662-703 | the same for the second function and its buffer |
| CpuCounter.FittingListIsCounted | lib/subprc.c:662-703 | a list that fits the buffers is counted right by both, whatever is configured |
| CpuCounter.ManyItems | lib/utlsys.c:1818-1846 | both are wrong on every list of more than a hundred items |
| CpuCounter.EvenCpusMiscounted | lib/utlsys.c:1818-1846 | inputs: the 101 CPUs 0, 2, ..., 200, and any longer list of even numbers |
| CpuCounter.CountersAgree | lib/subprc.c:662-703 | the two functions report the same if and only if the list fits, or the one character more adds nothing, or a fallback hides it |
| CpuList.ScanDec | lib/utlsys.c:1867-1868 | a printed number is scanned back, whatever follows that is no digit |
| CpuList.ScanSigned | lib/utlsys.c:1867-1868 | the conversion takes a sign and passes over blanks |
| CpuList.PrintCpus | lib/utlsys.c:449-468 | the printing loop writes the list of the chosen CPUs |
| CpuList.SinglesDenote | lib/utlsys.c:455-464 | the printed list is ascending and denotes exactly the chosen set |
| CpuList.PrintedListIsCounted | lib/utlsys.c:449-468 | round trip: counting the printed list gives the size of the chosen set |
| CpuList.ContUsage | lib/utlsys.c:2131-2138 | the quota that is written |
| CpuList.QuotaMeaning | lib/utlsys.c:2131-2138 | "max" if and only if the ratio is at least 100; below that 25000 when less than a microsecond is asked, else the whole microseconds asked for, short of the machine |
| Monitor.Budget.CheckBinding | lib/unimon.c:51-104 | the shifting array keeps the specified window, zeros behind it, and returns the decision |
| Monitor.WindowIsExact | lib/unimon.c:75-96 | with a clock that never goes back the window holds exactly the grants of the last half hour, in order, and a request is granted if and only if they are fewer than 49 |
| Monitor.NothingRefused | lib/unimon.c:75-96 | over a run nothing is refused if and only if any 50 successive requests span half an hour |
| Monitor.NoWindowOverfull | lib/unimon.c:75-96 | no half hour of any run holds more than 49 grants |
| Monitor.Mounts.CheckRemount | lib/utlsys.c:3213-3282 | the target after the check, and the report |
| Monitor.ReboundMeaning | lib/utlsys.c:3241-3276 | a check changes a target if and only if it needs a mount and the mount works, and the target is then in place |
| Monitor.Mounts.CheckMounts | lib/unimon.c:118-170 | a pass rebinds every device, spends the budget request by request and reports a refusal |
| Monitor.QuietPass | lib/unimon.c:131-166 | a pass asks for nothing if and only if everything is in place, and then mounts nothing |
| Monitor.PassesStabilise | lib/utlsys.c:3241-3276 | a second pass over untouched mounts spends nothing if and only if all sources and targets exist and each was in place or mounted by the first |
| Monitor.BrokenDeviceStopsIt | lib/utlsys.c:3241-3248 | with a device that cannot be repaired, 50 passes within half an hour meet a refusal |
| Monitor.Mounts.Loop | lib/unimon.c:318-348 | the poll loop, in which SIGTERM clears the flag and a result sets it, equals the specification event by event |
| Monitor.RunningIff | lib/unimon.c:318-348 | over any events the loop still runs if and only if no poll and no store failed, no SIGTERM came in the sleep and every repair was granted |
| Monitor.BrokenDeviceEndsLoop | lib/unimon.c:318-348 | such a device ends the loop within 50 changes in half an hour, whatever else happens |
| Monitor.SigtermOutlived | lib/unimon.c:318-348 | a loop that SIGTERM was sent to still runs if and only if each one came between the loop's test and the result of a check, outside the poll, and nothing else stopped it |
| Template.Template.Splice | lib/unicfg.c:424-435 | the overlapping moves are followed to the end if and only if key and value fit: nothing behind a buffer, no stale cell behind the terminator, no terminator of a 60-character value copied along; they then leave the spliced text, and everything before the marker untouched |
| Template.Template.Adjusting | lib/unicfg.c:449-520 | a marker in the buffer becomes its value or a mask, by the shared lookup, if and only if it fits |
| Template.Template.Substitute | lib/unicfg.c:679-700 | the rescanning loop in the buffer arrives where its specification does, ten substitutions at most whatever values contain, and nowhere exactly when one does not fit |
| Template.OutcomeIsRender | lib/unicfg.c:679-700 | that is the rescanning renderer's line when every substitution fits, and nothing otherwise |
| Template.FitsMeaning | lib/unicfg.c:424-435 | key and value fit if and only if the value is empty, or has at most 59 characters with room for a terminator and the key ends inside the line or under the value |
| Template.PlainLine | lib/unicfg.c:677-683 | a line without markers is kept up to its 399th character |
| Template.MaskMeaning | lib/unicfg.c:476-511 | an unknown or undeclared name is masked by as many X or Y, and nothing else of the line changes |
| Template.NameMeaning | lib/unicfg.c:469-475 | the name of a marker is what stands up to the colon, 49 characters at most |
| TemplateRender.TenMarkers | lib/unicfg.c:676-700 | when all markers of a line are known and render to text without '$', the updated line keeps none if and only if there are at most ten |
| Template.Template.Update | lib/unicfg.c:669-703 | one updated line for each template line, each as rendered, up to one with a substitution that does not fit; the result is never true |
| TemplateRender.RescanIsOnePass | lib/unicfg.c:684-700 | along a line where no value met contains '$' the rescanning renderer equals the plain one-pass renderer if and only if no value met is empty |
| TemplateRender.UpdatedLineIsOnePass | lib/unicfg.c:669-703 | the same for every updated line of every template, whatever its other lines and variables |
| TemplateRender.NeverGrowsBack | lib/unicfg.c:424-435 | a shorter text never renders to a text that begins with a marker, when no value met contains '$' |
| TemplateRender.EmptyValueStalls | lib/unicfg.c:424-435 | a line with an empty value stays as it was from that marker on |
| TemplateRender.DollarValueDiffers | lib/unicfg.c:691-693 | the declarations CNAME=<$HNAME:> and HNAME=<h>, with the program's own names, separate the two renderers |
| TemplateRender.ColumnsKept | lib/unicfg.c:424-435 | with values at least as long as their keys the text outside the fields keeps its columns |
| TemplateRender.RenderedColumnsKept | lib/unicfg.c:424-435 | so does the rescanning renderer, when no value met contains '$' |
| Template.LookupName | lib/unicfg.c:158-173 | the first known variable that the name begins, or none at all |
| Template.ShippedAbbreviation | conf/online.tpl:20-49 | the shipped template relies on the abbreviation, and the empty name finds the first variable |
| Template.Template.ScanVar | lib/unicfg.c:183-250 | a declaration is accepted and added, or refused without effect |
| Template.ParseMeaning | lib/unicfg.c:206-213 | a line is parsed into a name and a format if and only if it begins with them as name=<format, 1 to 49 characters each, the format ending at '>', at the line's end or at its 49th character |
| Template.Template.Open | lib/unicfg.c:588-611 | the template file's declarations and lines; success if and only if no declaration is refused |
| Template.DeclaredDistinct | lib/unicfg.c:226-241 | over any lines the codes declared stay pairwise distinct |
| Template.DeclaredNamesResolve | lib/unicfg.c:477-508 | the name of an accepted declaration resolves to that declaration, whatever else is declared |
| Template.AbbreviationsResolve | lib/unicfg.c:158-173 | the names that find a declaration are exactly the abbreviations of its variable that abbreviate none known before it |
| CommentEscape.GetStr | lib/utlapl.c:683-729 | the line in its buffer becomes the specified text |
| CommentEscape.UncommentInPlace | lib/utlapl.c:698-708 | the in-place loop, which skips a character per escape, stays inside the buffer and computes the specified text |
| CommentEscape.CutAtComment | lib/utlapl.c:693-709 | without backslashes a line is cut exactly at its first comment character; without one it is kept |
| CommentEscape.EscapedTextIsReadBack | lib/utlapl.c:693-709 | round trip: escaping every comment character and reading gives the text back |
| CommentEscape.CommentIsIgnored | lib/utlapl.c:693-709 | a comment after an escaped text is ignored if and only if the text ends in neither the comment character nor a backslash |
| RingList.AddVecList | lib/utlvec.c:44-67 | a payload is appended, to nothing or to a ring, and the ring stays valid |
| RingList.AddAll | lib/utlvec.c:44-67 | any sequence of adds holds the payloads in the order they were added, `numvec` of them |
| RingList.WalkIsOrder | lib/utlvec.c:53-63 | walking visits the payloads in insertion order and is back after exactly `numvec` steps |
| RingList.StepsUndo | lib/utlvec.c:53-63 | `nxt` and `prv` are inverse at every node |
| RingList.FreeVecList | lib/utlvec.c:116-139 | every node is given back once, none is read afterwards, and the payloads are released from the tail |
| RingList.ReleasedOnce | lib/utlvec.c:123-134 | each payload is released as often as it is listed, the null one never |
| RingList.ReleasedBackwards | lib/utlvec.c:123-134 | the payloads that are not null are released in exactly the reverse order |
| RingList.Ring.Sweep | lib/utlvec.c:86-99 | the relinking loop, its shrinking bound included, leaves the ring and the released nodes that the specification gives |
| RingList.RemoveVecList | lib/utlvec.c:76-107 | what is kept and what is dropped; whether the head pointer is still valid; when a released node is read |
| RingList.ScanIsSwept | lib/utlvec.c:86-99 | the loop drops every match among the positions it looks at and no other node |
| RingList.RemovalComplete | lib/utlvec.c:86-99 | all matches go if and only if each has few enough matches before it |
| RingList.SingleMatch | lib/utlvec.c:86-99 | a payload listed at most once is always removed |
| RingList.WithoutKeeps | lib/utlvec.c:86-99 | a complete removal leaves exactly the nodes with other payloads |
| RingList.HeadGoes | lib/utlvec.c:86-99 | the head stays first or is the first to go |
| ProcessList.Processes.Add | lib/subprc.c:107-122 | a process is appended and the capacity is one more than the count |
| ProcessList.ChildCheck | lib/subprc.c:199-221 | the new list holds the running ones in order, none if there are none |
| ProcessList.RunningMeans | lib/subprc.c:64-83 | kept if and only if it is 1, or is not 0 and answered at its turn |
| ProcessList.RunningInOrder | lib/subprc.c:208-214 | the kept ones are those at the ascending positions found running, none left out |
| ProcessList.RunningAdmin | lib/subprc.c:70-77 | 0 is never kept, 1 always |
| ProcessList.ChildKill | lib/subprc.c:134-188 | the three stages send exactly the specified calls, with any delay |
| ProcessList.TermFirst | lib/subprc.c:145-150 | the first calls are one SIGTERM to each listed process above 1, in order, and no later call is one |
| ProcessList.RoundMeaning | lib/subprc.c:145-164 | a round makes one call to each listed process above 1, in order |
| ProcessList.KillFacts | lib/subprc.c:134-188 | no call to 0, 1 or a group; when it is over every other listed process was seen dead or killed; a kill comes only after the first round and `delay` full ones, right after the process answered, and never without a positive delay |
| ProcessList.KillEnds | lib/subprc.c:151-168 | a positive delay ends it within `delay` rounds |
| ProcessList.OnlyTheStubborn | lib/subprc.c:167-181 | when the dead stay dead, only processes that answered every call are killed |
| ConsoleHandshake.Processes.SupervisorTurn | utilities/syspvt.c:1012-1145 | one turn of the supervisor's loop equals the step of the model |
| ConsoleHandshake.Processes.ContainerTurn | utilities/syspvt.c:839-974 | one turn of the container's loop equals the step of the model |
| ConsoleHandshake.BoundInBetween | utilities/syspvt.c:867-904 | in every interleaving, whatever fails, the console is bound strictly after the container's mounts and strictly before its pivot |
| ConsoleHandshake.ConsumedOnce | utilities/syspvt.c:101-187 | each character is written once and read at most once, in order, by the intended side |
| ConsoleHandshake.NeverUnexpected | utilities/syspvt.c:1088-1105 | the branches for unexpected characters are dead |
| ConsoleHandshake.StuckIff | utilities/syspvt.c:326-376 | a run is stuck if and only if one side waits for a character that the other ended without writing |
| ConsoleHandshake.StuckByFirstFailure | utilities/syspvt.c:843-1121 | in every interleaving a run is stuck if and only if its first failing call is the supervisor's from writing START to writing PTY_DONE, or the container's up to writing DEV_READY |
| ConsoleHandshake.FailureDecides | utilities/syspvt.c:843-1121 | such a call strands the other side at once; any other failure leaves nobody waiting in vain |
| ConsoleHandshake.RunsAreShort | utilities/syspvt.c:1012-1145 | every step lowers a measure, so no run exceeds 33 steps |
| ConsoleHandshake.WithoutFailures | utilities/syspvt.c:1073-1121 | without failures no interleaving is stuck; it ends after exactly 30 steps, both with status 0 and all three events happened |
| ConsoleHandshake.StatusTells | utilities/syspvt.c:839-1145 | in every run a process that has ended did so with status 0 if and only if none of its calls failed, and otherwise with the phase of its first failing call, counted from 1 |
| ConsoleHandshake.SupervisorCanHang | utilities/syspvt.c:1088-1091 | a container that fails early leaves the supervisor waiting for ever |
| ConsoleHandshake.ContainerCanHang | utilities/syspvt.c:843-846 | a supervisor that fails to write START leaves the container waiting for ever |

## Left out

- The system calls, scripts and files themselves: they are outcomes, oracles or parameters of the model.
- Lifecycle.StepOk: what a clone does once it boots, what a logger writes, and the signals of the event loop (they are in `ContAttend`).
- Lifecycle.RebootFindsItClean: the cgroups and the /dev mount are one flag each, set by the answer of their calls; the tree itself is in `CgroupTree`.
- SupervisorLock.MutualExclusion: one look at the lock file with the creation that follows is taken as one action, and pids are not reused; nothing in the code keeps two contenders apart in between.
- CpuDraw.RoundIsProportional: reals are exact, so floating-point rounding of weights and sums is not modelled.
- CpuDraw.Selector.ReadWeights: the work counters are unbounded, while `u+n+s+1` wraps at 64 bits in the code.
- CpuDraw.SelectCpus: `maxavail` is at least 1; with none the code takes a remainder by zero.
- CpuList.CountCpus: numbers are scanned without the 32-bit limit of `%d`.
- CpuCounter.FirstCounter: CPU numbers, and how many there are, fit the sixteen bits of the counter, and the list is not empty.
- CpuList.ContUsage: `numcpu*SAMPLE` does not wrap, as it would in 32 bits beyond 21474 CPUs; the ratio is not negative.
- Template.Template.Splice: it stops before a call that would leave a buffer or move stale cells, where the code goes on; a value of exactly 60 characters, whose terminator is copied into the line, is not followed either.
- TemplateRender.RescanIsOnePass: a line on which a value met contains '$' is covered by an input, not by an exact condition, since a value that reads like its own marker changes nothing.
- Template.Template.Update: the number formats that make a value, and the update of the container's status before it.
- CommentEscape.GetStr: the loop after the comment handling is meant to strip line ends but starts on the terminator and strips nothing, so the line end stays, against the function's header comment.
- Monitor.WindowIsExact: a clock that goes back is modelled in `CheckBinding` only.
- Monitor.Mounts.CheckMounts: the cached paths; a failed read-only remount, which only adds a message.
- Monitor.Mounts.Loop: the last-pid file is one outcome of each quiet poll.
- RingList.RemoveVecList: the list header given back with the last node is the returned null, not a flag.
- The null-terminated vectors of lib/utlvec.c:147-263: short loops over arrays that would only add easy members; the template's lists are sequences here.
- ProcessList.ChildKill: process liveness is an oracle asked once per signal; a run without a positive delay is observed for a limited number of rounds.
- CgroupTree.Cgroups.Teardown: no other process enters the directories between the kill and the walk; an order of siblings and any depth are covered. The values of the limits are not modelled.
- CgroupTree.Cgroups.CleanRecursive: the result that the code leaves uninitialised when the walk works, and that its callers ignore.
- ContAttend.Signals.Attend: the status page written at each timeout, and the pauses inside the power-off request.
- ConsoleHandshake.StuckIff: a read is not interrupted by a signal, the pipes are never full, and the pseudo terminal traffic is one step.
- The namespaces, users and mounts made by `doboot`, networks, load averages, bandwidth, uptime, memory units, option parsing and messages.
- lib/do_binding.c, utilities/vzcore.c and utilities/waitloop.c: drafts or duplicates of the code above.
