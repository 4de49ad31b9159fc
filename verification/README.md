# xv6 in Dafny: log, scheduler, file system, page tables and their small neighbours

A model of the hard parts of xv6 (the Portland State CS333 variant, default build
`CS333_PROJECT=4`) and proofs about it, in Dafny 4.11.  `dafny verify dfyconfig.toml`
checks everything.

What the source does by changing fields, links and arrays in loops is a class with
those fields and the same loops; every method is proved against a specification on
values, and the theorems are about that specification.  A protocol between processes is
a state machine whose events are the critical sections (for sleep locks: single steps);
a theorem about all runs quantifies over all sequences of enabled events: the invariant
is proved of the start and of every step, never assumed.  Where the
kernel panics a method returns `ok == false` (or -1), and its contract says when.
The sizes of param.h and pipe.c (NPROC, MAXPRIO, BUDGET, LOGSIZE, MAXOPBLOCKS, NBUF,
PIPESIZE, ...) are symbolic: the theorems hold for every value the code allows.

The parts:

- `blocks`, `bcache`, `bcacheruns`, `bufring`: disk blocks; the buffer cache of bio.c as
  a state machine, laws of its runs, and the code on its doubly linked ring.
- `recovery`, `log`, `admission`: the redo log of log.c.  `recovery` has the block
  writes and the crash theorem, `log` the code over the buffer cache, `admission` the
  reservation protocol for any number of processes.
- `sched`, `schedruns`, `schedeffects`, `schedlaws`, `proclists`, `procwalks`,
  `proctable`: the process table of proc.c.  `sched` has one event per section of
  `ptable.lock` and the invariant, `schedruns` what holds in all reachable states,
  `schedeffects` what each call does as its caller sees it, `schedlaws` the laws of whole
  runs (slices, children, the killed mark, order), the others the code on the linked lists.
- `fsformat`, `fsowner`, `fscontent`, `fs`, `file`, `crash`: bitmap, inodes, block map and file
  content of fs.c, and fileread and filewrite of file.c, over the disk as bread shows it; `crash` puts
  them on top of the log: a crash anywhere in a long write.
- `pagetables`, `pagecounts`, `vm`, `vmlaws`: kalloc.c and vm.c, and what programs see of
  their memory.
- `sleeplock`, `pipe`, `piperuns`: sleep locks and pipes.
- `krheap`, `umalloc`: the allocator of umalloc.c.
- `grep`: the matcher of grep.c.
- `seqs`: sequences without repetition.

Results that are not what one would hope for are stated as what holds exactly, with
an input or a run that shows the failure: log_write and the size of the log area
(`NewWritesSafeIff`, `SlotsSufficeIff`, `RewritesSafeIff`; with mkfs's nlog == LOGSIZE two
operations can log one block more than there are slots; with NBUF == LOGSIZE that commit
panics, and with more buffers it is by `InvisibleIff` not atomic), a commit of as many blocks as there are buffers (`Commit`,
`AllPinnedStops`), readers left asleep by a killed writer (`StrandedIff`,
`KilledWriterStrandsReader`), the page copyuvm does not free (`CopyUvm`, `SixtySixPages`),
the wraps in malloc (`NeedsIff`, `WrappedRequest`) and morecore (`Malloc`, `HugeRequest`),
the budget arithmetic (`ChargedFreshIff`, `ChargedTooLong`), reading a hole outside a
transaction (`Readi`), a new process that is marked killed (`CleanIff`, `BornKilled`).

The step functions of the state machines are not taken on trust either: what they do is
proved again from outside, over runs and from the calls alone (`CallsDeliver`,
`WritesArrive`, `BufferTold`, `CommitHasAll`, `WaitCountsForks`) or from the fields before
and the time elapsed (`FeedbackPolicy` and the lemmas of `schedeffects`).

## Model

| member | source | states |
|---|---|---|
| LogRecovery.HeadRoundTrip | log.c:86-113 | reading a log header block back gives the block numbers that were written into it |
| LogRecovery.RecoveredBlock | log.c:70-82 | what each disk block is after recovery: a home block named in the header gets its log block, every other block keeps its content |
| LogRecovery.RecoveryRestarts | log.c:116-122 | recovery cut after any of its writes and started again gives the same home blocks as recovery that was not cut |
| LogRecovery.CleanRecoversToItself | log.c:116-122 | with an empty header recovery changes no home block |
| LogRecovery.CommitBeforeHeader | log.c:178-202 | a commit cut before its header write is invisible after recovery |
| LogRecovery.CutVisible | log.c:178-190 | with more blocks than slots, the slot past the end of the log is a home block: cut there, the commit shows after recovery |
| LogRecovery.InvisibleIff | log.c:178-202 | a commit cut before its header write leaves no trace, for all data and cuts, if and only if every one of its blocks has a slot |
| LogRecovery.CommitAfterHeader | log.c:178-202 | a commit cut anywhere after its header write is complete after recovery |
| LogRecovery.CommitComplete | log.c:193-202 | a commit that is not cut leaves exactly the transaction installed and the header erased |
| LogRecovery.CrashAtomicity | log.c:69-202 | over any run of commits and recoveries, each possibly cut by a crash after any single block write, the next recovery yields exactly the disk on which the transactions whose header write completed are installed, in order, and no other |
| KernelLog.CommitCuts | log.c:178-202 | the writes of commit, split at its two phases, are the prefixes that the crash theorem talks about |
| KernelLog.InstalledIsLatest | log.c:70-82 | installing a transaction makes the home blocks those of the simple disk |
| KernelLog.Log.FillHead | log.c:102-113 | the loop of write_head puts the in-memory header into the block, word by word |
| KernelLog.Log.WriteHead | log.c:102-113 | one block write: the header block with the current block numbers; buffers that others hold stay as they are; while no buffer is referenced the kernel stops exactly if the pinned blocks take all buffers |
| KernelLog.Log.ReadHead | log.c:86-96 | the in-memory header becomes the decoded header block; the disk is unchanged; stops exactly as WriteHead does |
| KernelLog.Log.CopyBlock | log.c:70-82 | one round of install_trans or write_log: one disk write, the source's latest content to the destination, which is unpinned; buffers that others hold stay as they are; when it fits beside the pinned blocks it does not stop |
| KernelLog.Log.ReadBoth | log.c:75-76 | two buffers, locked, with the latest content of the two blocks; whether the cache has room for both |
| KernelLog.Log.WriteLog | log.c:178-190 | its disk writes are exactly the log slots with the latest content of the logged blocks, in order, or a prefix of them; while no buffer is referenced it goes through exactly if fewer than NBUF blocks are logged |
| KernelLog.Log.InstallTrans | log.c:70-82 | its disk writes are exactly the home blocks with the content of their log slots, in order, or a prefix of them; it goes through in a commit of fewer than NBUF blocks and at boot |
| KernelLog.Log.Commit | log.c:193-202 | beside readers of blocks that are not logged: its disk writes are exactly the commit sequence of the crash theorem or a prefix; at the end the home blocks on disk are those of the simple disk and nothing is pinned; while no buffer is referenced it panics if and only if the transaction has NBUF blocks |
| KernelLog.Log.CommitBlocks | log.c:193-202 | the same for a transaction of at least one block |
| KernelLog.Log.LogPhase | log.c:193-197 | write_log and write_head: their writes, or a prefix, and when they go through |
| KernelLog.Log.HomePhase | log.c:116-122 | install_trans, n = 0, write_head, as in commit: their writes, or a prefix, and when they go through |
| KernelLog.CommitStages | log.c:178-197 | between the two phases the slots hold the transaction and the header its block numbers |
| KernelLog.Log.RecoverFromLog | log.c:116-122 | its disk writes are exactly the recovery sequence or a prefix; at the end the disk is the recovered one and the log is empty; with two buffers, none referenced, it does not panic |
| KernelLog.Log.LogWrite | log.c:214-233 | when no other append comes between its guard and its own: absorbs a block that is already logged, else appends it; pins its buffer; the panics fire exactly on a full log or outside a transaction |
| KernelLog.Log.Guard | log.c:218-221 | the two tests, made before the lock is taken: exactly those of the admission protocol |
| KernelLog.Log.Append | log.c:223-232 | the part under the lock, whatever was appended since the guard: absorbs or appends, pins; the blocks stay distinct, their number may reach that of the log area; the admission protocol's set of logged blocks gains the block |
| KernelLog.AbsorbAdds | log.c:214-233 | absorption: the set of logged blocks grows by the block, whether or not it was there |
| KernelLog.Log.BeginOp | log.c:126-141 | enters exactly if no commit runs and the reservation fits, which is the test of the admission protocol; else waits without a change |
| KernelLog.Log.EndOp | log.c:146-174 | the last operation commits, an earlier one only leaves; it panics during a commit, and otherwise, with no buffer referenced, only if it commits NBUF blocks |
| BufferCache.StepInv | bio.c:62-141 | every step of bget, bread, log_write, bwrite and brelse keeps the cache invariant: unique blocks, reference counts, pinned dirty buffers |
| BufferCache.CacheAgreesWithSimpleDisk | bio.c:62-141 | in every state of every run from boot: at most one buffer per block (dev != 0); dirty buffers are exactly the logged blocks not yet written home; a valid buffer without unlogged change has the latest content; a clean one equals its disk block |
| BufferCache.BoundWhileReferenced | bio.c:62-93 | a buffer that is referenced all along a run keeps its block through it |
| BufferCache.SpareBuffer | bio.c:80-90 | pinned blocks take one buffer each, so a buffer stays clean while fewer than NBUF blocks are pinned and none when NBUF are |
| CacheRuns.BufferTold | bio.c:62-141 | in every run a buffer stands for the block of the last bget that chose it, its reference count is the bgets that chose it less the brelses, and its lock is as the last call left it |
| CacheRuns.StepTally | bio.c:62-141 | the same for one step |
| CacheRuns.LeastRecentlyUsed | bio.c:80-90 | after any run from boot, a buffer that bget recycles was left unreferenced no later than any other one it could have taken |
| CacheRuns.RunRecent | bio.c:126-138 | the ring stays in the order in which the buffers were last left unreferenced |
| BufferRing.RingUnlink | bio.c:121-141 | taking a buffer out of the doubly linked ring leaves the ring of the others |
| BufferRing.RingLinkFront | bio.c:121-141 | linking a buffer in behind the head gives the ring with it in front |
| BufferRing.Cache.constructor | bio.c:39-56 | binit leaves one ring of all the buffers, the last one initialised in front, none of them bound to a block |
| BufferRing.Cache.HomeUnlessPinned | bio.c:97-116 | a block that is not pinned has its latest content on the disk |
| BufferRing.Cache.FirstRead | bio.c:62-93 | while no buffer is referenced, bread finds no buffer exactly if the pinned blocks take them all and the block is not one of them |
| BufferRing.Cache.SecondRead | bio.c:62-93 | beside one buffer in use, a pinned block is always found, and another one if a clean buffer is left |
| BufferRing.AllPinnedStops | bio.c:80-92 | a state of the cache in which all buffers are pinned and unreferenced, and bread of any other block panics: so a commit of NBUF blocks stops |
| BufferRing.Cache.FindCached | bio.c:68-75 | finds the buffer that holds the block, or there is none |
| BufferRing.Cache.FindRecyclable | bio.c:80-90 | finds the unreferenced clean buffer nearest the tail of the ring, or there is none |
| BufferRing.Cache.Bget | bio.c:62-93 | does the Get step of the cache model on the real ring; panics exactly if the block is not cached and no buffer is recyclable |
| BufferRing.Cache.Bread | bio.c:97-106 | the locked buffer it returns has the latest logged content of the block; when another process has it locked, the caller has its reference and waits; panics exactly for another disk, a block past its end, or a block that is not cached when no buffer can be recycled |
| BufferRing.Cache.Resume | bio.c:101-105 | the rest of bread once the lock is free: the latest logged content, or a panic of iderw exactly for another disk or a block past its end |
| BufferRing.Cache.Store | bio.c:97-116 | a change of a locked buffer's data touches that buffer only, and neither the disk nor the simple disk |
| BufferRing.Cache.Pin | log.c:231 | logging makes the buffer dirty, so pinned, and its data the latest content of the block |
| BufferRing.Cache.Bwrite | bio.c:110-116 | writes that one disk block and unpins the buffer |
| BufferRing.Cache.Brelse | bio.c:121-141 | unlocks, drops a reference and, at zero, moves the buffer to the front of the ring |
| BufferRing.Cache.MoveFirst | bio.c:129-138 | the six pointer updates move exactly this buffer to the front |
| LogAdmission.StepInv | log.c:126-233 | every step keeps the reservation invariant |
| LogAdmission.AdmissionHolds | log.c:126-233 | in every state of every run, guard and append of log_write being two steps: logged blocks plus unused allowances fit in LOGSIZE; nobody is inside during a commit; an idle log is empty; whoever sleeps on the log waits for a commit or for room |
| LogAdmission.CommitHasAll | log.c:160-233 | told from the calls alone: a commit has in it exactly the blocks that any operation gave to log_write since the last commit |
| LogAdmission.NewWritesSafeIff | log.c:214-220 | the reservation keeps log_write from panicking on blocks new to the operation if and only if the log area is larger than LOGSIZE blocks |
| LogAdmission.SlotsSufficeIff | log.c:214-232 | in every run every logged block has a slot, if and only if the log area is larger than LOGSIZE blocks (or has no slot at all) |
| LogAdmission.OverfillingRuns | log.c:214-232 | a run, for every smaller area, in which two operations pass the guard at the last free slot and both append: one block more than there are slots |
| LogAdmission.RewritesSafeIff | log.c:214-228 | log_write never panics on a block that the operation has logged already, if and only if the area has no slot |
| LogAdmission.RoomForNewWrite | log.c:214-220 | with the larger area: in every run no log_write within its operation's allowance panics on a block new to it |
| LogAdmission.SmallLogStopsNewWrite | log.c:214-220 | a run in which log_write panics on a new block when the area has only LOGSIZE blocks, as mkfs makes it |
| LogAdmission.FullLogStopsRewrite | log.c:214-228 | for every area with a slot, a run in which log_write panics on a block that it would absorb, because the guard comes first |
| Scheduler.ChargedFreshIff | proc.c:926-931 | the mixed int and uint budget arithmetic keeps the budget between 1 and BUDGET exactly under a condition on the elapsed ticks; always if they are below 2^31 |
| Scheduler.ChargedTooLong | proc.c:926-931 | an input for which it does not: one tick left, 2^31 + 2 ticks elapsed |
| Scheduler.WakeupEffect | proc.c:1071-1093 | exactly the processes asleep on the channel become runnable, behind those already in the ready queues |
| Scheduler.PromotePartition | proc.c:734-768 | promotion keeps every process on exactly the right queue |
| Scheduler.TopReady | proc.c:770-772 | the highest non-empty ready queue, or none |
| Scheduler.ZombieFound | proc.c:618-641 | looking only at the first child on the zombie list finds a zombie child whenever there is one |
| Scheduler.MovePartition | proc.c:1452-1511 | taking a process off its list, changing its fields and adding it to its new list keeps the partition |
| Scheduler.ExitEffect | proc.c:498-541 | what exit does to every process: parents, wakeups, the zombie |
| Scheduler.StepInv | proc.c:113-1698 | every critical section keeps the whole invariant of the process table |
| SchedulerRuns.BootedInv | proc.c:238-287 | the table that userinit leaves satisfies the invariant |
| SchedulerRuns.SchedulerPartition | proc.c:113-1698 | in every state reachable from userinit each process is on exactly one queue, once, the list of its state or the ready queue of its priority; the RUNNABLE list is empty; RUNNING processes and CPUs correspond one to one |
| SchedulerRuns.SlicesStayFresh | proc.c:734-768 | in every reachable state a scheduled process has 1 <= budget <= BUDGET and a legal priority |
| SchedulerRuns.ExitWaitProtocol | proc.c:592-655 | in every reachable state a process asleep in wait has no zombie child; wait reaps exactly if there is one, and fails, if not killed, exactly if the caller has no child |
| SchedulerRuns.ProcessTree | proc.c:505-531 | in every reachable state pids in use are distinct, every parent is alive, and from a process in the tree following parents leads to init and never back to itself |
| SchedulerRuns.AncestorsAreOlder | proc.c:113-531 | every ancestor is alive and has a smaller pid, so there is no cycle |
| SchedulerRuns.RootIsInit | proc.c:505-531 | the chain of parents ends at init |
| SchedulerRuns.PromotionsRaise | proc.c:734-768 | a process that stays runnable rises one level per promotion, up to the top |
| SchedulerRuns.TopIsDispatched | proc.c:770-790 | from place k of the top queue a process is dispatched by the (k+1)-th pass of the scheduler at the latest |
| SchedulerRuns.BoundedWaiting | proc.c:734-790 | a process that setpriority leaves alone and that has waited through MAXPRIO - priority promotions is dispatched within NPROC further passes, whatever the others do |
| SchedulerEffects.ClaimEffect | proc.c:113-129 | fork's embryo: a slot that was free gets a pid nobody has; no other process changes |
| SchedulerEffects.AbandonEffect | proc.c:132-141 | a fork that fails gives the slot back and changes nothing else |
| SchedulerEffects.ForkedEffect | proc.c:355-417 | after fork the caller has one child more, the embryo it claimed, runnable last at the top level with a whole slice and no children; no other process changes |
| SchedulerEffects.WaitEffect | proc.c:592-655 | wait answers with a pid exactly if a zombie child is there, that child's pid, and leaves that slot free with no pid, parent or killed mark and all else as it was; it fails exactly if there is no zombie child and it has no child or was killed; else it sleeps, charged for its ticks |
| SchedulerEffects.YieldEffect | proc.c:921-945 | in terms of the old fields and the ticks since dispatch: fewer than the budget come off it, otherwise one level down, not below 0, and a whole budget; last in the ready queue of that level; nobody else changes |
| SchedulerEffects.SleepEffect | proc.c:985-1018 | the same charge; asleep on the channel; nobody else changes |
| SchedulerEffects.KillEffect | proc.c:1120-1178 | the process in use with the pid is marked, and if asleep made runnable last at its level; nobody else changes |
| SchedulerEffects.SetPrioEffect | proc.c:1644-1698 | a scheduled process with the pid gets the priority, and a whole slice if it is a new one; nobody else changes |
| SchedulerEffects.SchedEffect | proc.c:713-790 | a pass of scheduler: promotion of every live process exactly when due; then, if there is a runnable process, one that was first in its queue and that none is above; its clock starts; the others keep their state |
| SchedulerEffects.PromoteEffect | proc.c:734-768 | one level up and a whole budget for a live process below the top; at the top a whole budget unless runnable |
| SchedulerLaws.SetUpEffect | proc.c:164-172 | the embryo gets the top priority, a whole slice and a zero clock; nobody else changes |
| SchedulerLaws.ExitFields | proc.c:476-541 | exit changes states and the parents of the caller's children, who go to init, and nothing else |
| SchedulerLaws.SliceStep | proc.c:113-1698 | every event changes the priority and budget of a live process as the feedback policy says, from what the event is to it, and its clock only when it is dispatched |
| SchedulerLaws.FeedbackPolicy | proc.c:713-945 | over every run priority and budget are what the policy gives |
| SchedulerLaws.SlicesUsedLower | proc.c:926-931 | over every run without promotion or setpriority: slices used up n times lower the priority by n, down to 0, and cost at least n whole budgets of ticks, counted from what was left at the start to what is left at the end |
| SchedulerLaws.ChildrenStep | proc.c:355-655 | a process gains a child by its own fork and loses one by its own wait; only init gains others, by exits |
| SchedulerLaws.ChildCount | proc.c:355-655 | over every run: children are those before, plus forks, less pids returned by wait; for init at least that many |
| SchedulerLaws.WaitCountsForks | proc.c:355-655 | over every run from a state in which the process has no child, as after its own birth: if it is not killed, wait fails exactly if it has given it as many pids as it has forked children; for init, which adopts, never while it has given fewer |
| SchedulerLaws.KilledStep | proc.c:1120-1178 | the killed mark is set by kill on the process's pid and cleared by wait, and by nothing else |
| SchedulerLaws.CleanIff | proc.c:132-141 | an event leaves a free slot marked killed if and only if it is the failure of a fork whose embryo was killed |
| SchedulerLaws.BornKilled | proc.c:113-141 | from every state in which fork can start, a run after which a new process is marked though nobody called kill on its pid |
| SchedulerLaws.StepBefore | proc.c:713-790 | over every event a runnable process stays behind the one before it at its level for as long as that one waits |
| SchedulerLaws.NoOvertaking | proc.c:713-790 | over every run, promotions included: while a process stays runnable, one that came after it at its level is not dispatched, unless setpriority is called on either |
| ProcLists.UnlinkInner | proc.c:1496-1508 | removing an inner entry keeps the chain of the others |
| ProcLists.UnlinkLast | proc.c:1496-1508 | removing the last entry moves the tail pointer back |
| ProcLists.AppendList | proc.c:1452-1463 | adding at the tail keeps the chain |
| ProcWalks.WakeNext | proc.c:1071-1093 | one round of wakeup1's loop: the saved next pointer is still right after the removal |
| ProcWalks.WakeupAgain | proc.c:505-531 | waking init commutes with the changes of parents that exit interleaves with it, and a second time does nothing |
| ProcWalks.AdoptDone | proc.c:505-531 | exit's interleaved loop ends where one change of all parents and at most one wakeup of init ends |
| ProcWalks.LevelQueues | proc.c:739-757 | moving one ready queue up after the other, from the top, shifts all levels by one and merges the two top ones |
| ProcWalks.ProgressDone | proc.c:734-768 | the nested in-place loops of promotion end in the order-preserving shift |
| ProcTable.Ptable.constructor | proc.c:238-287 | userinit: all processes on the free list, the first one becomes init |
| ProcTable.Ptable.InitFreeList | proc.c:1424-1432 | the loop lists the processes in order |
| ProcTable.Ptable.FirstProcess | proc.c:250-286 | the first process ends runnable in the top queue |
| ProcTable.Ptable.StateListAdd | proc.c:1452-1463 | appends the process to that list and changes no other |
| ProcTable.Ptable.StateListRemove | proc.c:1466-1511 | returns -1 exactly if the process is not on the list; else takes it out and changes no other list |
| ProcTable.Ptable.FindOnList | proc.c:1484-1497 | the search loop finds the process and its predecessor |
| ProcTable.Ptable.Transition | proc.c:1466-1518 | remove, assertState, change, add: fails exactly if the process is on another list or in another state |
| ProcTable.Ptable.FreeHead | proc.c:118-120 | an UNUSED process, or there is none |
| ProcTable.Ptable.Claim | proc.c:122-129 | panics exactly if the head read before the lock is no longer UNUSED; else the process is an embryo with the next pid |
| ProcTable.Ptable.NoStack | proc.c:132-141 | the embryo goes back to the free list; no panic |
| ProcTable.Ptable.SetUp | proc.c:164-172 | priority, budget and tick counter of the new process |
| ProcTable.Ptable.CopyFailed | proc.c:367-379 | the embryo goes back to the free list; no panic |
| ProcTable.Ptable.Forked | proc.c:388-414 | the new process is a child of the caller, runnable last in the top queue with a whole slice and no children of its own; no other process changes; no panic |
| ProcTable.Ptable.Yield | proc.c:921-945 | the caller leaves its CPU; its slice is charged the ticks since its dispatch, with a drop of one level if they use it up; it is last in its ready queue; no other process changes; no panic |
| ProcTable.Ptable.Sleep | proc.c:985-1018 | does exactly the sleep step, whose effect `SleepEffect` states; no panic |
| ProcTable.Ptable.Wakeup1 | proc.c:1071-1093 | the loop over the sleep list does exactly the wakeup of the model; no panic |
| ProcTable.Ptable.FindPid | proc.c:1120-1178 | the nested loops find the process with the pid among the given states, or there is none |
| ProcTable.Ptable.FindPidOn | proc.c:1136-1143 | along one list |
| ProcTable.Ptable.Kill | proc.c:1120-1178 | does exactly the kill step; returns 0 exactly if some process in use has the pid; no panic |
| ProcTable.Ptable.SetPriority | proc.c:1644-1698 | does exactly the setpriority step; succeeds exactly for legal arguments and a scheduled process; no panic |
| ProcTable.Ptable.GetPriority | proc.c:1701-1736 | the priority of the process with the pid, -1 if there is none or it is an embryo |
| ProcTable.Ptable.FindChildOn | proc.c:615-622 | the first child on one list |
| ProcTable.Ptable.ScanChildren | proc.c:600-622 | the scan finds the first zombie child, and otherwise whether there is any child |
| ProcTable.Ptable.ReadyChildren | proc.c:606-616 | the ready queues in place of the RUNNABLE list |
| ProcTable.Ptable.Wait | proc.c:599-654 | one pass does exactly the wait step and returns its result; no panic |
| ProcTable.Ptable.AdoptOn | proc.c:522-530 | along one list: children get init as parent, and init is woken for zombies |
| ProcTable.Ptable.Adopt | proc.c:505-531 | the nested loops have the effect of one change of parents and one wakeup |
| ProcTable.Ptable.Exit | proc.c:476-541 | panics exactly for init; else does exactly the exit step |
| ProcTable.Ptable.PromoteOn | proc.c:759-766 | along the SLEEPING or RUNNING list: budgets and priorities only |
| ProcTable.Ptable.PromoteLevel | proc.c:739-757 | one ready queue moves to the end of the next one up, in order |
| ProcTable.Ptable.PromoteAll | proc.c:734-768 | the in-place loops do exactly the shift of the model; no panic |
| ProcTable.Ptable.RunScheduler | proc.c:731-790 | one pass does exactly the scheduler step: promotion when due, then the head of the highest queue runs; no panic |
| FsFormat.AddMask | fs.c:64-68 | setting a free bit of a byte changes that bit only |
| FsFormat.TakeMask | fs.c:89-93 | clearing a set bit of a byte changes that bit only |
| FsFormat.SetBit | fs.c:64-68 | the bits after data |= mask |
| FsFormat.ClearBit | fs.c:89-93 | the bits after data &= ~mask |
| FsFormat.MarkedUsed | fs.c:57-96 | setting or clearing the bit of one block changes the mark of that block only |
| FsFormat.PutInode | fs.c:222-237 | an inode copied into its slot reads back the same, and the other slots of the block keep theirs |
| FsFormat.Store | fs.c:222-237 | iupdate changes that inode on the disk and no other |
| BlockOwners.ConservationMeans | fs.c:57-96 | a block is marked in use exactly if it is metadata or held by some inode, and then by one slot of one inode |
| BlockOwners.TakenFresh | fs.c:57-78 | a block that balloc returns was nobody's; taking it changes no inode's addresses |
| BlockOwners.GiveEntryOwn | fs.c:387-397 | a new entry of an indirect block keeps the ownership of all blocks |
| BlockOwners.GiveDirectOwn | fs.c:379-390 | a new direct or indirect address keeps the ownership of all blocks; a fresh indirect block brings no stale entries |
| BlockOwners.GrownAddr | fs.c:374-401 | bmap leaves every address an inode had, and every other inode, alone |
| BlockOwners.MappedThrough | fs.c:374-401 | the case in which the indirect block is allocated as well, with its cost in logged blocks |
| BlockOwners.TrimNext | fs.c:415-420 | freeing a direct block never finds it free and keeps conservation |
| BlockOwners.EmptyNext | fs.c:425-428 | freeing an entry of the indirect block never finds it free |
| BlockOwners.EmptyDone | fs.c:422-432 | with all entries and the indirect block free, conservation holds again |
| BlockOwners.TruncCost | fs.c:409-436 | so a transaction of itrunc has one block for each bitmap block it touches, at most size / 4096 + 1, and one more |
| BlockOwners.CoveredNext | fs.c:43-96 | every block that differs from the disk at begin_op has been passed to log_write |
| FileSystems.FileSystem.constructor | fs.c:172-188 | a mounted disk whose bitmap and inodes agree is a valid state |
| FileSystems.FileSystem.Balloc | fs.c:57-78 | the lowest free block, marked, zeroed and logged; panics exactly if every block is in use |
| FileSystems.FileSystem.Bfree | fs.c:82-96 | panics exactly if the block is free; else clears that bit only |
| FileSystems.FileSystem.Bmap | fs.c:374-401 | the address of the block, allocated if there was none; conservation; the blocks it logs; panics only out of range or on a full disk |
| FileSystems.FileSystem.BmapEntry | fs.c:388-398 | the same for the part behind the indirect block |
| FileSystems.FileSystem.Iupdate | fs.c:222-237 | the inode on disk equals the one in memory, nothing else changes |
| FileSystems.FileSystem.Ilock | fs.c:289-313 | the in-memory inode is the current one; panics exactly on an uncached inode of type 0 |
| FileSystems.FileSystem.Itrunc | fs.c:409-436 | frees exactly the blocks of the inode, never hits the free-block panic, empties the inode in memory and on disk, keeps all others; logs exactly the bitmap blocks of those blocks and the inode's block |
| FileSystems.TruncatedContent | fs.c:409-436 | after itrunc the file is empty and every other file has the bytes it had |
| FileSystems.FileSystem.FreeDirect | fs.c:415-420 | the loop over the direct blocks |
| FileSystems.FileSystem.FreeIndirect | fs.c:422-432 | the loop over the indirect block |
| FileSystems.FileSystem.Writei | fs.c:483-512 | which requests are refused; an accepted one writes exactly the bytes, sets the size, keeps the other inodes, logs every block it changes, and leaves the inode on disk equal to that in memory if the file has no holes |
| FileSystems.FileSystem.CopyIn | fs.c:499-505 | the loop: bytes written, blocks touched, blocks logged |
| FileSystems.FileSystem.Readi | fs.c:454-477 | an error exactly for an offset past the end or a sum of 2^32 or more; otherwise the bytes of the file from the offset on, n of them or all there are, a hole reading as zeros; the file keeps its bytes; it calls log_write, which panics outside a transaction, if and only if the range has a hole; without one no state changes |
| FileSystems.FileSystem.CopyOut | fs.c:470-475 | the loop: the slice of the content, and the same about holes |
| FileContent.WriteRefines | fs.c:483-512 | a write gives old[..off] + src + old[off+n..], holes reading as zeros, and makes no hole |
| FileContent.MappedBytes | fs.c:374-401 | bmap changes no byte of the file: a new block is zero like the hole it fills |
| FileContent.ReadNext | fs.c:470-475 | one round of readi's loop: the next bytes, and whether a hole was met |
| FileContent.OthersContent | fs.c:483-512 | the content of every other file is unchanged |
| FileContent.FirstBlockThere | fs.c:499-505 | the block of an unaligned offset within a file without holes is already allocated |
| FileContent.ChargedNext | fs.c:499-505 | the blocks logged by one more block of data |
| FileContent.ChunkFits | file.c:133 | a write of at most k blocks' worth of bytes logs at most 2k + 4 blocks |
| FileContent.OverwrittenTwice | file.c:136-151 | two chunks written one after the other are one write of both |
| OpenFiles.File.Write | file.c:118-156 | the file gets a prefix of the data, all of it exactly if the request fits; the states between the transactions: each has the data up to a chunk boundary, other files as before, every changed block logged, and on a file without holes at most MAXOPBLOCKS of them |
| OpenFiles.File.WriteChunk | file.c:136-151 | one chunk, from begin_op to end_op |
| OpenFiles.File.Read | file.c:95-113 | the read at the file's offset, which moves on by exactly what was read; an error if the file is not open for reading |
| OpenFiles.File.ReadAll | cat.c:7-23 | reads of n bytes until one gives nothing: together the file's content from the offset on, in order; they end without an error exactly if the file is open for reading and no device, the offset is not past its end and its end is not within n of 2^32 |
| OpenFiles.ReadBack | file.c:95-156 | a read of a range just written gives what was written |
| CrashedWrites.CrashDuringWrite | file.c:118-156 | crash safety of filewrite: commits cut after any block write, recoveries cut any number of times; the recovered disk has agreeing bitmap and inodes, the file has the data up to some chunk boundary, every other file is as it was |
| CrashedWrites.DurableTrail | log.c:193-202 | the durable disk is always one of the disks between the transactions |
| CrashedWrites.TxnFits | file.c:126-133 | every transaction of a write can be committed |
| CrashedWrites.SameFiles | fs.c:289-313 | a disk that agrees from the inode blocks on mounts to the same files |
| PageTables.TakeInv | kalloc.c:83-95 | kalloc keeps every page free or in exactly one use |
| PageTables.GiveInv | kalloc.c:60-77 | kfree of a page that is out of use keeps every page free or in exactly one use, and disturbs no page table though it overwrites the page |
| PageTables.AddTableInv | vm.c:36-55 | a new page table changes no mapping |
| PageTables.SetEntryOnly | vm.c:36-80 | writing one entry changes the mapping of that one page of that one address space |
| PageTables.UnmapChanged | vm.c:271-275 | unmapping and freeing a user page frees a page that only this mapping used |
| PageTables.ReturnEnd | vm.c:284-298 | at the end of freevm exactly the pages of the space have gone back |
| VirtualMemory.PageMemory.constructor | kalloc.c:32-53 | kinit puts each page after the kernel on the free list once |
| VirtualMemory.PageMemory.Kalloc | kalloc.c:83-95 | the first free page; none exactly if the list is empty |
| VirtualMemory.PageMemory.Kfree | kalloc.c:60-77 | panics exactly outside the allocatable range; else the page, overwritten, is first on the list |
| VirtualMemory.PageMemory.WalkPgdir | vm.c:36-55 | whether there is a page table; with alloc it fails only without memory; no mapping changes |
| VirtualMemory.PageMemory.MapOne | vm.c:69-79 | one round of mappages |
| VirtualMemory.PageMemory.MapPages | vm.c:61-80 | maps exactly the range, or without memory a prefix of it; panics only on a page already mapped; nothing else changes |
| VirtualMemory.PageMemory.UnmapOne | vm.c:270-276 | frees the page and clears the entry |
| VirtualMemory.PageMemory.DeallocUvm | vm.c:256-279 | unmaps and frees exactly the pages of the range, although it jumps over missing page tables; no panic |
| VirtualMemory.PageMemory.GrowOne | vm.c:234-246 | one round of allocuvm; panics exactly if the page is mapped and a free page was left |
| VirtualMemory.PageMemory.AllocUvm | vm.c:222-249 | on success zeroed user pages exactly in the new range; on failure the mapping is exactly as it was, with all user pages; it fails if and only if the free pages are fewer than the new pages plus the page tables that the directory lacks for them; where pages of the range are mapped already it panics or fails |
| VirtualMemory.PageMemory.FreeVm | vm.c:284-298 | every page of the space goes back to the free list, once, and no other page moves |
| VirtualMemory.KmapFits | vm.c:105-115 | the kernel's four mappings are whole pages, in order and apart |
| VirtualMemory.PageMemory.SetupKvm | vm.c:119-136 | a new space maps exactly what kmap says and no user page; on failure every page is back; fails if and only if fewer than 65 pages are free (directory, 56 tables for the memory, 8 for the devices); no panic |
| VirtualMemory.PageMemory.CopyUvm | vm.c:316-343 | panics only on an unmapped page below sz; on success copies of all pages with the same flags; on failure everything is back but for at most one page; when it does not panic it succeeds if and only if 65 + n + ceil(n / 1024) pages are free for n pages, and a failing call loses a page if and only if the number of free pages is 66 + 1025 j for some j |
| VirtualMemory.SixtySixPages | vm.c:316-343 | an input for which a page is lost: 66 free pages and one page to copy |
| VirtualMemory.PageMemory.CopyOne | vm.c:326-336 | one round of copyuvm |
| PageCounts.SpaceCount | vm.c:36-55 | the pages in use are those of the others, and of a space its directory, one per table and one per mapped user page |
| PageCounts.PoolCount | kalloc.c:60-95 | free pages and pages in use always add up to the same number |
| PageCounts.TablesOfFirst | vm.c:316-343 | the first n pages need ceil(n / 1024) tables, and page n a new one exactly at a multiple of 1024 |
| VirtualMemory.GrowCount | vm.c:222-249 | the free pages that allocuvm used are the new pages, the new tables and the page in transit |
| VirtualMemory.KernelTablesAre | vm.c:105-136 | kmap takes 64 page tables wherever the kernel's data starts |
| VirtualMemory.CopyCount | vm.c:316-343 | the free pages that copyuvm used, exactly, at each page |
| VirtualMemory.LastPage | vm.c:316-343 | running out of pages between two pages and at a page table leaves different counts, so the count tells whether a page is lost |
| VirtualMemory.LostBy | vm.c:316-343 | after a failed copyuvm all is as before but for the page in transit |
| VirtualMemory.LifeConserves | vm.c:119-298 | from setupkvm through any allocuvm and deallocuvm calls to freevm: the same pages are free as before, each once, and every other page has its use and content |
| AddressSpaces.Isolation | vm.c:61-80 | in every state of the page tables that satisfies the invariant, a store through one address space changes that word of that space and nothing else that any space sees |
| AddressSpaces.ForkedSees | vm.c:316-343 | after copyuvm the child sees, up to the size rounded to a page, what the parent saw, and nothing above; no other space sees a difference, the parent's included |
| AddressSpaces.GrownSees | vm.c:222-249 | after allocuvm the process sees what it saw up to its old size rounded to a page, and zeros from there to its new size; no other space sees a difference |
| AddressSpaces.ShrunkSees | vm.c:256-279 | after deallocuvm the process sees what it saw up to its new size rounded to a page, and nothing from there to its old size; no other space sees a difference |
| SleepLocks.StillWoken | sleeplock.c:35-42 | while a releaser has still to wake the sleepers, no other process's step ends that |
| SleepLocks.StepInv | sleeplock.c:23-42 | every single step of acquiresleep, releasesleep, sleep, wakeup and kill keeps the invariant |
| SleepLocks.NoLostWakeup | sleeplock.c:23-42 | for any number of processes and locks and any interleaving: one holder at most, and no process SLEEPING on a lock that nobody holds while the inner spinlock is free |
| SleepLocks.CallsDeliver | sleeplock.c:23-42 | in every run, told from the calls alone: a process that is outside has exactly the locks it called acquiresleep on and did not call releasesleep on since; inside acquiresleep all of them but possibly that one |
| SleepLocks.StepOwns | sleeplock.c:23-42 | the same for one step |
| SleepLocks.MutualExclusion | sleeplock.c:23-42 | in every run, when two processes have both called acquiresleep on a lock and not releasesleep since, one of them is still inside the call |
| SleepLocks.OnlyHeldLocksBlock | sleeplock.c:23-42 | in every reachable state either some process inside a call can take its next step, or every process is outside or SLEEPING on a lock that is held |
| SleepLocks.KillWakes | proc.c:1120-1178 | after a kill its target is not SLEEPING, and who else sleeps is as before |
| Pipes.CountersMeet | pipe.c:84-105 | equality of the wrapped counters tells the empty and the full pipe |
| Pipes.Index | pipe.c:94-117 | the wrapped counter gives the right place in the ring, because PIPESIZE divides 2^32 |
| Pipes.Apart | pipe.c:94 | bytes that are in the pipe together have different places |
| Pipes.Pipe.constructor | pipe.c:31-38 | a new pipe is empty with both ends open |
| Pipes.Pipe.Write | pipe.c:79-98 | a section stores, in order and behind those there, the front of what is left; all of it exactly if it answers that it is done, and short of that only if the pipe is full |
| Pipes.Pipe.Store | pipe.c:94 | stores one byte |
| Pipes.Pipe.Read | pipe.c:101-121 | a section returns the oldest bytes not yet read, n of them or all there are; waits on an empty pipe with a writer |
| Pipes.Pipe.Close | pipe.c:60-75 | closes one end; the pipe goes exactly when both are closed |
| Pipes.WriteStores | pipe.c:79-98 | what a section of pipewrite stores and answers: the front of what is left, all or up to a full pipe; it fails only if killed or without a reader |
| Pipes.ReadTakes | pipe.c:101-121 | what a section of piperead returns: the next bytes, at most n, fewer only if that empties the pipe; it waits or fails exactly at an empty pipe with a writer |
| PipeRuns.StepInv | pipe.c:60-121 | every section keeps the invariant; what is stored and what is returned only grow |
| PipeRuns.PipeFifo | pipe.c:60-121 | in every run the bytes returned are a prefix of the bytes stored and at most PIPESIZE are in between |
| PipeRuns.OneCall | pipe.c:79-98 | from any state, up to the writer's next call: what a call has stored is the front of what it was given; while it lasts the rest is what it has left; a call that ends short was by a killed process or without a reader |
| PipeRuns.SentIsPassed | pipe.c:79-98 | over every run in which the writer is not killed and the read end not closed: what it stored, with what its call has left, is what it handed to write |
| PipeRuns.StoredIsMerged | pipe.c:79-98 | over every run: the bytes in the pipe are those that the writers stored, each writer's in its own order, nothing else and nothing twice |
| PipeRuns.WritesArrive | pipe.c:79-98 | in every run from a new pipe: a writer's bytes in the pipe are the data of its calls in order, but for what its unfinished call has left |
| PipeRuns.EndToEnd | pipe.c:79-121 | with one writer, what the readers got is the front of what it wrote, and at most PIPESIZE bytes and the rest of its call are missing |
| PipeRuns.FlagsTold | pipe.c:60-75 | over every run: killed exactly after a kill, an end open exactly until it is closed |
| PipeRuns.ReaderStep | pipe.c:101-121 | only a reader's own section returns bytes, at most as many as it asked for, and ends its call |
| PipeRuns.EndOfFile | pipe.c:106-121 | for n > 0 a read returns no byte exactly if the write end is closed and everything stored has been read |
| PipeRuns.StrandedIff | pipe.c:85-92 | a section leaves someone asleep for no reason if and only if a killed writer stores bytes and gives up while a reader sleeps |
| PipeRuns.NobodyLeftAsleep | pipe.c:60-121 | in a run in which that does not happen nobody is ever left asleep on a pipe that could serve it |
| PipeRuns.KilledWriterStrandsReader | pipe.c:86-88 | a run in which it happens |
| KrHeap.HeapMeans | umalloc.c:19-90 | blocks are disjoint, free neighbours never touch, and blocks tile exactly the memory from sbrk |
| KrHeap.MergeInv | umalloc.c:32-41 | merging two touching free blocks keeps the tiling |
| KrHeap.InsertInv | umalloc.c:25-44 | a freed block at its place keeps the ring sorted and the tiling |
| KrHeap.CutInv | umalloc.c:77-81 | cutting the tail off a free block keeps the tiling |
| KrHeap.TakeInv | umalloc.c:75-76 | taking a whole free block keeps the tiling |
| KrHeap.GainInv | umalloc.c:47-61 | new memory above all old memory keeps the tiling |
| Umalloc.FreeTouches | umalloc.c:32-41 | the address comparisons of free find exactly the neighbours that touch |
| Umalloc.FreeNoTouch | umalloc.c:32-41 | after free no two free blocks touch |
| Umalloc.Allocator.FindPlace | umalloc.c:30-31 | the loop terminates at the one place in the ring where the block belongs |
| Umalloc.Allocator.Free | umalloc.c:25-44 | the block joins the ring at its place and merges with what it touches; memory, break and other live blocks are unchanged |
| Umalloc.Allocator.constructor | umalloc.c:21-22 | a program's memory before the first malloc |
| Umalloc.Allocator.Sbrk | sysproc.c:53-64 | with growproc: what each 32-bit count does to the size and the memory of the process; a count of 0 or less returns the break and gives nothing |
| Umalloc.BackedBy | proc.c:332-348 | after sbrk the blocks lie in the process's memory if and only if the count was positive |
| Umalloc.CountPositiveIff | umalloc.c:53-54 | it is for all requests but 0x7FFFFFF1 to 0xFFFFFFF8 bytes |
| Umalloc.CoreFailsIff | umalloc.c:53-57 | when malloc's call of sbrk fails: exactly without the memory, or for a wrapped count that takes the process down to nothing |
| Umalloc.HugeRequest | umalloc.c:53-59 | for 0x7FFFFFF1 bytes, whatever the process size, sbrk returns the break and gives none of the 2^31 bytes that morecore then frees |
| Umalloc.Allocator.MoreCore | umalloc.c:47-61 | asks sbrk for the 32-bit count; takes the address it returns for at least 4096 units and frees them into the ring; unchanged if sbrk fails; the blocks stay within the process's memory if and only if the count arrives positive |
| Umalloc.Allocator.Carve | umalloc.c:74-84 | the block leaves the ring if it fits exactly, else its tail is cut off |
| Umalloc.Allocator.Malloc | umalloc.c:64-90 | terminates, with one morecore exactly if nothing fits; the block is the first fit from freep on, has the wanted units and overlaps no live block; fails exactly if nothing fits and sbrk fails; all blocks, and the new one, lie in the process's memory if and only if a block fitted or the count is below 2^31 |
| Umalloc.NeedsIff | umalloc.c:69 | the block has room for the request exactly if the 32-bit sum in the computation of nunits does not wrap, and never a whole unit too many |
| Umalloc.WrappedRequest | umalloc.c:69 | an input for which it has not: 0xFFFFFFF9 bytes get a header only |
| Umalloc.InMemory | umalloc.c:64-90 | a block lies in the process's memory if all blocks do, and cannot if it has 2^31 bytes or more |
| Grep.Match | grep.c:73-82 | returns true if and only if some substring, anchored by a leading ^ or a final $, is in the language of the pattern |
| Grep.MatchHere | grep.c:85-96 | the same for a prefix of the text |
| Grep.MatchStar | grep.c:99-106 | zero or more fitting characters and then the rest of the pattern |
| Grep.InLangCons | grep.c:85-106 | the language of a list of items, taken apart at the first item |
| Grep.StarHere | grep.c:99-106 | a starred item against the text |
| Grep.OneHere | grep.c:93-95 | a single item against the text |

## Left out

Hypotheses that the code does not give, and where they are used:

- Layout: the disk is laid out as mkfs does it, and its bitmap and inodes agree when it is mounted (`FileSystems.FileSystem.constructor`). That a file has no holes is a premise of the bounds on logged blocks and of `CrashDuringWrite`, because writei does not store the inode after it has filled a hole; every write preserves it.
- Budget: elapsed ticks are below 2^31 (`Scheduler.SlicesOk`); `ChargedFreshIff` says what happens otherwise.
- Pids do not wrap; the process table theorems treat them as unbounded.
- All buffers start with device 0, so uniqueness in the cache is stated for other devices.
- The kernel's data starts on a page boundary, as the linker script has it.
- MAXOPBLOCKS is at least 6, without which filewrite has no room for a single block (`OpenFiles.File.Write`).
- A sleep lock is released by the process that holds it; holdingsleep is not modelled.
- Only malloc calls sbrk, and the size that exec gives the program is a multiple of the header size, with `base` in it.

Not modelled:

- sys_sleep sleeps without a lock; such sleeps are not covered by `NoLostWakeup`.
- Spinlocks, interrupts, context switches and memory ordering: a critical section is one step. `swtch` is part of the step that gives up or takes a CPU.
- Interleaving inside the file system: calls on different inodes take their buffer and inode locks in turn; here a call is one step. The inode cache is a map of the valid in-memory inodes, without slots and reference counts (iget, idup, iput), and devices are a result of their own.
- The end of fork sets `np->parent` before it takes the lock; the model sets it inside. The fields of a process that only user code or the file layer sees (trap frame, files, name, uid, gid) are left out.
- bfree reads the superblock again; here the superblock is a constant.
- Directories, path names, link counts, ialloc, exec, the shell, the console, drivers, boot code, procdump, getprocs and the list-printing code: they would add easier members only.
- kvmalloc, switchuvm, inituvm, loaduvm, clearpteu and copyout; page contents are words, so a data page is copied but not interpreted.
- The line buffering of grep.
- KernelLog.Log.Commit: says when the panics fire only for a cache to which no process holds a reference, since a process that reads beside the commit can take buffers from it; requires a slot for each block (`Shape`), which holds in every run exactly under `SlotsSufficeIff`, and that nobody has a block of the log or a logged block locked.
- KernelLog.Log.Append: requires that the block has a place in lh.block, which `AdmissionHolds` gives for every operation within its allowance.
- KernelLog.Log.LogWrite: does not model appends between its guard and its own; Guard and Append do.
- CrashedWrites.CrashDuringWrite: one operation at a time, so every end_op commits; transactions that several operations share are not composed with the file layer.
- Umalloc.Allocator.Free: requires a live block, as C does.
- PipeRuns.NobodyLeftAsleep: an end of a pipe is not closed while a process is inside a call on it.
