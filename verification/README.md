# Verified models of S3K and its file system, crypto and link code

S3K is a separation kernel for RISC-V: processes own time slots, PMP entries, monitors and channels through
capabilities, and the kernel hands them out, splits them, moves them and takes them back.  The same repository
carries a FAT file system (`ff.c`), AES-128 and a framing protocol for the demonstrator.  This project models the
state-changing cores of these parts in Dafny and proves what they promise.

Check it with `dafny verify dfyconfig.toml`.

## The models

**Kernel lock** (`QueueLock.dfy`).  `mcslock.c` as a state machine over single memory accesses of any number of
harts.  Preempted waiters leave the queue from its middle.  `LogicalPred` gives every queued hart its predecessor
(the exchanged value until it is stored, the memory field while it spins, the saved local during the release), and
the invariant is that these predecessors form one chain from the tail.  A plain read of `node->prev` may either go
to memory or reuse the value the compiler already has; the events say which.

**Aborted waits** (`QueueAborts.dfy`).  The same state machine where preempted waiters do harm: a hart can write
through a NULL pointer, and the lock can be held for good.  Runs of two or three harts are computed step by step and
carried over to any number of harts; `FaultExactly` and `DiesExactly` say when there are such runs.

**Scheduler semaphore** (`Semaphore.dfy`).  `semaphore.h` with the slot table it protects.  A writer's stores of
`pid` and `length` are separate steps, so that a half-written slot exists in the model.

**Capabilities** (`CapTypes`, `CapTable`, `CapSystem`, `CapEffects`, `CapInvariant`, `CapSchedule`, `CapPmp`,
`CapRuns`, `CapRights`, `CapChannels`, `CapRevocation`, `CapGuard`, `Kernel`).  `CapSystem` says what each operation does to an abstract state: the ring of
entries in use, one capability per entry, the schedule and the PMP registers.  `CapTable` has the `prev`/`next`
fields, which link exactly that ring.  `CapEffects` says when each operation succeeds and what it does in terms of
slots, channels, bytes of memory and single permissions, without the predicates of the code.  `CapInvariant`, `CapSchedule` and `CapPmp` hold what every operation keeps,
`CapRuns` runs of the operations with any number of revocations interleaved step by step, `CapRights` the permissions
in such runs, `CapChannels` the order of channels and sockets, `CapRevocation` a revocation run alone, `CapGuard` when
the ring is large enough for all of it.  The 48-bit addresses of PMP capabilities are numbers; `x ^ (x + 1)` on them is
written as a recursion (`LowOnesBits`).  `Kernel` is the imperative form: a
class with the arrays of the C code, whose methods are proved to do what `CapSystem` says.

**Dispatch** (`Dispatch.dfy`).  `sched_fetch`: the arbitration between harts and the time window of a grant.

**FAT** (`FatEntry`, `FatDisk`, `FatVolume`, `FatChain`, `FatAlloc`, `FatRuns`, `FatKeep`, `FatPosition`,
`FatFile`).  `ff.c` in the configuration of `ffconf.h`: 512-byte sectors, 32-bit sector numbers, no exFAT, a window for the file system and
a separate buffer per file.  `Volume` is the class of the mounted volume: device, one-sector write-back window and
allocation counters.  Every device access may fail; the ghost field `faulty` records that one has, and results that
need a working device are stated for the case that none has.  `File` is the class of an open file.  Masks and shifts
on bytes and words are written as divisions and remainders.

**AES** (`AesField`, `AesTables`, `AesSbox`, `Aes`, `AesStandard`).  The tables of `aes128.c` as literal values, block operations and
chaining in place on an array with an offset, round keys as 44 little-endian words.  `AesStandard` has the cipher of
FIPS 197 by rows and columns of the state and bytes of the key, and proves that the code computes it.

**Frames** (`Frame.dfy`).  Both senders and both receivers against one specification.

## Model

| member | source | states |
|---|---|---|
| QueueLock.InvStep | s3k/kernel/src/mcslock.c:9-40 | every single load, store, exchange and compare-exchange of any hart, aborting waiters included, keeps the invariant: the logical predecessors form one chain from the tail through exactly the queued harts, and only the first is inside |
| QueueLock.ReachableChain | s3k/kernel/src/mcslock.c:9-40 | the chain exists after every interleaving of any number of harts |
| QueueLock.MutualExclusion | s3k/kernel/src/mcslock.c:9-40 | after every interleaving, with aborts and re-acquires, at most one hart holds the lock |
| QueueLock.FirstInFirstOut | s3k/kernel/src/mcslock.c:9-51 | without preemption the grants are a prefix of the arrivals at the tail exchange, the queue is the end of the arrivals in their order, everybody not yet granted is queued, and no hart dereferences NULL |
| QueueLock.ProgressStep | s3k/kernel/src/mcslock.c:9-40 | without preemption no step raises the total work left, arrivals aside, and every step of a queued hart that need not wait lowers it |
| QueueLock.NeverStuck | s3k/kernel/src/mcslock.c:9-51 | in every orderly state with a queued hart some queued hart need not wait |
| QueueLock.Drains | s3k/kernel/src/mcslock.c:9-51 | from every orderly state a schedule of bounded length empties the queue |
| QueueLock.NeverStuckOnAnyRun | s3k/kernel/src/mcslock.c:9-51 | every run without preemption makes at most eleven useful steps per arrival and always has a useful step while somebody is queued |
| QueueAborts.FaultingRun | s3k/kernel/src/mcslock.c:9-40 | two of any number of harts can bring one of them to write through a NULL predecessor: a preempted waiter has left and joined again when its predecessor's compare-exchange clears the field it reads once more |
| QueueAborts.FaultExactly | s3k/kernel/src/mcslock.c:9-40 | some run does so if and only if there are at least two harts, waiters may be preempted, and plain reads of node->prev may go to memory again |
| QueueAborts.TwoHartsDeadlock | s3k/kernel/src/mcslock.c:9-40 | two harts can get into their releases each with the other as its next and neither with a prev, and from there no events, further preemptions included, ever get either of them out |
| QueueAborts.HeldForGood | s3k/kernel/src/mcslock.c:9-40 | three of any number of harts can block the lock too: a late store of next overwrites the link of the waiter behind the holder, whose compare-exchange never succeeds again while no further waiter is preempted |
| QueueAborts.DiesExactly | s3k/kernel/src/mcslock.c:9-40 | some run leaves a hart in its release for good, with the lock going to nobody whatever arrives later as long as no further waiter is preempted, if and only if there are at least two harts and waiters may be preempted; reading node->prev again plays no part |
| QueueAborts.StaysOut | s3k/kernel/src/mcslock.c:23-28 | a hart that is preempted at every test never joins the queue, whatever the others do |
| QueueAborts.AbortsOnlyBehind | s3k/kernel/src/mcslock.c:31-40 | a waiter that gives up is not the first of the queue, so it has not been granted the lock |
| QueueAborts.WaiterLooks | s3k/kernel/src/mcslock.c:31-40 | a waiter that looks takes the lock if and only if it is the first; otherwise it gives up if it is preempted and waits on if it is not |
| Semaphore.StepInv | s3k/kernel/inc/semaphore.h:15-43 | every atomic step keeps the accounting of tickets: `acquired` is what has been requested, `released` the initial tickets plus what has been given back, and nobody is inside whose ticket is not released |
| Semaphore.UnitsBounded | s3k/kernel/inc/semaphore.h:15-43 | after every interleaving the harts inside hold no more units than the initial tickets |
| Semaphore.AllTicketsExclude | s3k/kernel/inc/semaphore.h:26-43 | two harts inside never hold more than the initial tickets between them, so one that holds them all is alone |
| Semaphore.GrantOrder | s3k/kernel/inc/semaphore.h:26-34 | when a later ticket is granted or could be, every earlier waiter is granted at its next look |
| Semaphore.OldestGranted | s3k/kernel/inc/semaphore.h:26-43 | a request of at most the initial tickets is granted once everybody before it has released |
| Semaphore.NeverStuck | s3k/kernel/inc/semaphore.h:15-43 | if no request is for more than the initial tickets, then as long as some hart is not idle some hart has a step that brings it nearer to idle |
| Semaphore.Drains | s3k/kernel/inc/semaphore.h:15-43 | and some schedule of bounded length, without arrivals, makes every hart idle |
| Semaphore.DrainsExactly | s3k/kernel/inc/semaphore.h:15-43 | from a reachable state there is such a schedule if and only if no request has been for more than the initial tickets |
| Semaphore.ReadersSeeWholeUpdates | s3k/kernel/src/sched.c:37-59 | while a hart reads the slots they are what the finished writers, in order of their releases, have made of the initial table, and no step of any hart changes them before the reader leaves |
| CapTypes.NestedInsert | s3k/kernel/src/cap_util.c:87-172 | a valid, derivable capability put behind its parent, with the parent's mark moved up, keeps every group of time or monitor capabilities contiguous and every pair nested |
| CapTable.InsertKeepsLinks | s3k/kernel/src/cap_table.c:96-103 | after cte_insert the next fields list the ring with the new entry behind its predecessor and the prev fields run backwards; only the new entry's capability changes |
| CapTable.DeleteKeepsLinks | s3k/kernel/src/cap_table.c:87-94 | after cte_delete the fields link the ring without the entry, which is empty |
| CapTable.MoveKeepsLinks | s3k/kernel/src/cap_table.c:75-85 | after cte_move the fields link the ring with the destination in the source's place |
| CapTable.MoveNeedsTwoEntries | s3k/kernel/src/cap_table.c:75-85 | cte_move keeps the list if and only if at least two entries are in use: a sole entry stays linked to its emptied source |
| CapSystem.PidOfEntry | s3k/kernel/src/cap_table.c:28-73 | cte_pid gives back the process that ctable_get was called with |
| CapEffects.RegionIs | s3k/kernel/inc/cap_util.h:18-23 | pmp_napot_decode gives first byte and size of exactly the region that the RISC-V privileged architecture, section 3.7.1, gives a NAPOT register: the words that agree with it above its lowest zero bit |
| CapEffects.DeriveExactly | s3k/kernel/src/cap_ops.c:281-330 | cap_derive succeeds if and only if the new capability is as yet unused and a part of what the source has not handed out, slot by slot, channel by channel or byte by byte, with no permission that the source lacks, and the destination is empty; what is left to the source is exactly the rest, and no other entry changes |
| CapEffects.MoveExactly | s3k/kernel/src/cap_ops.c:41-53 | cap_move succeeds if and only if there is something to move and the destination is empty; only a loaded PMP capability that leaves its process changes |
| CapEffects.DeleteExactly | s3k/kernel/src/cap_ops.c:77-83 | cap_delete empties its entry and no other |
| CapEffects.RevokeEffect | s3k/kernel/src/cap_ops.c:85-244 | a revoke step of any kind deletes the next ring member and no other, and gives the parent back the free part and lock of the child, or changes nothing |
| CapEffects.ResetEffect | s3k/kernel/src/cap_ops.c:246-279 | cap_reset makes the whole range free and unlocks it, and leaves the kinds without a range alone |
| CapEffects.LoadExactly | s3k/kernel/src/cap_pmp.c:6-22 | a load succeeds if and only if the capability is a PMP one, not loaded, and the register is free; the register then grants exactly the capability's permissions and address, bit by bit, and no other register changes |
| CapEffects.UnloadExactly | s3k/kernel/src/cap_pmp.c:24-38 | an unload succeeds if and only if the capability is loaded; its register is then free and no other has changed |
| CapEffects.MonitorExactly | s3k/kernel/src/cap_monitor.c:18-29 | a move on behalf of other processes is the move if each of the two processes is the monitor's own or suspended and in the free part of its capability, and is refused otherwise |
| CapEffects.MonitorPmpExactly | s3k/kernel/src/cap_monitor.c:105-119 | so are loads and unloads, with the error that the first failing test gives |
| CapInvariant.DeriveKeepsRing | s3k/kernel/src/cap_ops.c:281-330 | cap_derive keeps the ring order invariant |
| CapInvariant.MoveKeepsRing | s3k/kernel/src/cap_ops.c:13-53 | cap_move keeps the ring order invariant |
| CapInvariant.RemoveKeepsRing | s3k/kernel/src/cap_ops.c:77-83 | deleting any member keeps the ring order invariant and the order of the others |
| CapInvariant.RevokeKeepsRing | s3k/kernel/src/cap_ops.c:85-244 | one revoke step keeps the ring order invariant unless it deletes a member that it reaches by wrapping round within its own group |
| CapInvariant.RevokeNeedsOutsider | s3k/kernel/src/cap_ops.c:85-167 | a revoke step deletes the next descendant, and never an ancestor reached by wrapping round, if and only if the ring has a member of another group or a member behind the revoked one |
| CapInvariant.NoChildNoDescendants | s3k/kernel/src/cap_ops.c:85-167 | when cap_revoke finds no child, nothing inside the parent's range is left in the ring |
| CapInvariant.ResetKeepsRing | s3k/kernel/src/cap_ops.c:246-279 | cap_reset of a capability without descendants keeps the ring order invariant |
| CapInvariant.FreePartsDisjoint | s3k/kernel/src/cap_util.c:109-135 | the free parts of two time capabilities of one hart, or of two monitor capabilities, are disjoint |
| CapSchedule.DeriveKeepsSchedule | s3k/kernel/src/cap_ops.c:281-330 | after cap_derive every slot still belongs to the capability whose free part covers it |
| CapSchedule.MoveKeepsSchedule | s3k/kernel/src/cap_ops.c:13-53 | after cap_move every slot still belongs to the capability whose free part covers it, within a process and across processes |
| CapSchedule.DeleteKeepsSchedule | s3k/kernel/src/cap_ops.c:55-83 | after cap_delete every slot still belongs to the capability whose free part covers it, and those of the deleted one are empty |
| CapSchedule.RevokeKeepsSchedule | s3k/kernel/src/cap_ops.c:85-112 | after one revoke step every slot still belongs to the capability whose free part covers it, and those of the revoked one are the parent's; the step may not wrap round within its group |
| CapSchedule.ResetKeepsSchedule | s3k/kernel/src/cap_ops.c:246-279 | after the reset that ends a revocation every slot still belongs to the capability whose free part covers it |
| CapPmp.MoveKeepsPmp | s3k/kernel/src/cap_ops.c:25-32 | a moved PMP capability stays loaded within its process and is unloaded when it leaves it |
| CapPmp.DeleteKeepsPmp | s3k/kernel/src/cap_ops.c:65-68 | deleting a loaded PMP capability clears its register and no other |
| CapPmp.RevokeKeepsPmp | s3k/kernel/src/cap_ops.c:132-147 | revoking a loaded PMP capability clears its register and no other |
| CapPmp.LoadKeepsPmp | s3k/kernel/src/cap_pmp.c:6-22 | loading keeps the agreement of registers and loaded capabilities: a register has the read, write and execute bits of its capability, NAPOT mode, no lock bit, and its address |
| CapPmp.UnloadKeepsPmp | s3k/kernel/src/cap_pmp.c:24-38 | unloading clears exactly the capability's register |
| CapRuns.StepKeepsInv | s3k/kernel/src/syscall.c:273-338 | every locked step of every process, with any number of revocations in progress, keeps ring order, schedule, PMP registers and the promise that a drained revocation has no descendants left; the ring must be large enough for the step |
| CapRuns.InitInv | s3k/kernel/src/cap_table.c:20-26 | the state after kernel_init satisfies all of it |
| CapRuns.ScheduleRefinesCapabilities | s3k/kernel/src/cap_ops.c:13-330 | in every reachable state slot i of a hart is in use exactly when a time capability's free part covers i, and then holds its holder and its end minus i |
| CapRuns.RangesNest | s3k/kernel/src/cap_ops.c:85-330 | in every reachable state two capabilities of a group have disjoint free parts, and their ranges are disjoint or one lies in the handed-out part of the other |
| CapRuns.OneMonitorPerProcess | s3k/kernel/src/cap_monitor.c:7-16 | in every reachable state at most one monitor capability passes the test for a process |
| CapRuns.RegistersAgree | s3k/kernel/src/proc.c:100-114 | in every reachable state a PMP register is configured exactly when one loaded capability of its process names it; bits 0 to 2 are then its permissions, bits 3 and 4 the NAPOT mode, bits 5 to 7 zero, and the address is its own |
| CapRuns.ResetClaimsNothing | s3k/kernel/src/syscall.c:302-325 | whatever other processes did between the locked steps, the reset of a revocation leaves every slot alone that another capability's free part covers |
| CapRights.RightsFromStart | s3k/kernel/src/cap_ops.c:13-330 | in every reachable state all permissions of a memory or PMP capability are permissions of one and the same memory or PMP capability that the platform started with |
| CapGuard.RingTooSmall | s3k/kernel/src/cap_ops.c:41-83 | from the initial state a run of deletions leaves a ring of any one initial capability, where a move breaks the table and a time or monitor capability revokes itself |
| CapGuard.GuardSuffices | s3k/kernel/src/syscall.c:273-338 | next to any PMP capability the ring suffices for every step that a process may ask for |
| CapGuard.StartsGuarded | s3k/kernel/src/cap_table.c:20-26 | the initial state has one: process 0 holds a PMP capability in entry 0 |
| CapGuard.ScheduleWithGuard | s3k/kernel/src/cap_ops.c:13-330 | as long as some PMP capability keeps its entry, such as the one process 0 starts with, the schedule is what the time capabilities say after whatever the processes ask for, with no assumption about the ring |
| CapGuard.RangesWithGuard | s3k/kernel/src/cap_ops.c:85-330 | and two capabilities of one group have disjoint free parts and nested or disjoint ranges |
| CapGuard.MonitorWithGuard | s3k/kernel/src/cap_monitor.c:7-16 | and at most one monitor capability passes the test for a process |
| CapGuard.RegistersWithGuard | s3k/kernel/src/proc.c:100-114 | and a PMP register is configured exactly when one loaded capability of its process names it, with its permission bits, NAPOT mode and address |
| CapRights.RightsWithGuard | s3k/kernel/src/cap_ops.c:13-330 | and nobody has permissions that no initial capability has |
| CapChannels.DeriveKeepsChannels | s3k/kernel/src/cap_ops.c:281-330 | cap_derive keeps channel capabilities and sockets together in the ring, each before everything split off below its free part |
| CapChannels.RevokeKeepsChannels | s3k/kernel/src/cap_ops.c:169-219 | so does a revoke step, as long as it deletes no older channel capability |
| CapChannels.ChannelRevokeExactly | s3k/kernel/src/cap_ops.c:169-219 | in that order, a revoke step of a channel capability or server's socket deletes the next member if and only if that uses channels of its range or is an older channel capability beside it |
| CapChannels.ChannelTest | s3k/kernel/src/cap_ops.c:169-219 | when a revoke step of any channel capability or socket succeeds and when it is refused, in any ring |
| CapChannels.NoChannelsLeft | s3k/kernel/src/cap_ops.c:169-219 | when the step finds no child, no channel of the range is used behind the capability |
| CapChannels.RevokesOlder | s3k/kernel/src/cap_ops.c:169-183 | of two channels split off one after the other, revoking the second deletes the first |
| CapChannels.MemoryRevokeExactly | s3k/kernel/src/cap_ops.c:114-149 | a revoke step of a memory capability deletes the next member if and only if that is a memory capability of its tag that ends behind the beginning of the range, or a PMP capability whose region is at least as long as the address where the range begins |
| CapChannels.PmpNotRevoked | s3k/kernel/src/cap_ops.c:132-136 | so it never deletes a PMP capability of memory from 256 MiB on |
| CapRevocation.RevokedOneMore | s3k/kernel/src/cap_ops.c:85-112 | a successful revoke step removes exactly the next descendant |
| CapRevocation.RevokedByReset | s3k/kernel/src/syscall.c:302-325 | after the last step and the reset exactly the descendants are gone, the ring order of the others and all other capabilities are unchanged, the mark is back at the beginning and every slot of the range belongs to the caller |
| Kernel.Kernel.constructor | s3k/kernel/src/kernel.c:17-26 | the initial table, schedule and PMP register, built in place, are the initial state of the runs |
| Kernel.Kernel.CtableInit | s3k/kernel/src/cap_table.c:20-26 | the loop links entry 0 and, behind it, the later entries in reverse order |
| Kernel.Kernel.InsertEntry | s3k/kernel/src/cap_table.c:96-103 | in place: the array becomes CteInsert of the old one, and if it linked the ring it links the ring with the new entry behind its predecessor |
| Kernel.Kernel.DeleteEntry | s3k/kernel/src/cap_table.c:87-94 | in place: the array becomes CteDelete of the old one, and if it linked the ring it links the ring without the entry; the old capability is returned |
| Kernel.Kernel.MoveEntry | s3k/kernel/src/cap_table.c:75-85 | in place: the array becomes CteMove of the old one, and if it linked a ring of at least two it links the ring with the destination in the source's place |
| Kernel.Kernel.UpdateSlots | s3k/kernel/src/sched.c:37-48 | the loop writes exactly the slots of the region, with owner and remaining length in eight bits |
| Kernel.Kernel.DeleteSlots | s3k/kernel/src/sched.c:50-59 | the loop empties exactly the slots of the region |
| Kernel.Kernel.SchedInit | s3k/kernel/src/sched.c:24-35 | every hart's whole period belongs to process 0 |
| Kernel.Kernel.CapDerive | s3k/kernel/src/cap_ops.c:281-330 | in place: result code and whole new state of a derivation, and all invariants |
| Kernel.Kernel.MoveHook | s3k/kernel/src/cap_ops.c:13-39 | what a move to another process does to schedule, register and capability |
| Kernel.Kernel.CapMove | s3k/kernel/src/cap_ops.c:41-53 | in place: result code and whole new state of a move, and all invariants; a move that happens needs a second ring member |
| Kernel.Kernel.CapDelete | s3k/kernel/src/cap_ops.c:55-83 | in place: result code and whole new state of a deletion, and all invariants |
| Kernel.Kernel.CapRevoke | s3k/kernel/src/cap_ops.c:85-244 | in place: result code and whole new state of one revoke step, and all invariants |
| Kernel.Kernel.CapReset | s3k/kernel/src/cap_ops.c:246-279 | in place: whole new state of a reset, and all invariants |
| Kernel.Kernel.CapPmpLoad | s3k/kernel/src/cap_pmp.c:6-22 | in place: result code and whole new state of a load, and all invariants |
| Kernel.Kernel.CapPmpUnload | s3k/kernel/src/cap_pmp.c:24-38 | in place: result code and whole new state of an unload, and all invariants |
| Kernel.Kernel.TestMonitorMove | s3k/kernel/src/cap_monitor.c:18-29 | the first failing monitor test decides, and none is made for the monitor's own process |
| Kernel.Kernel.CapMonitorMove | s3k/kernel/src/cap_monitor.c:97-103 | a move on behalf of another process happens only after both tests |
| Kernel.Kernel.CapMonitorPmpLoad | s3k/kernel/src/cap_monitor.c:105-111 | in place: a load on behalf of another process happens only after the monitor test for it; result code and whole new state, and all invariants |
| Kernel.Kernel.CapMonitorPmpUnload | s3k/kernel/src/cap_monitor.c:113-119 | in place: so does an unload |
| Kernel.Kernel.SysCapRevoke | s3k/kernel/src/syscall.c:302-325 | the loop of locked steps ends; for every kind of capability the new state is that of some number of steps, each deleting the next member, with the reset behind them if the last one found no child; run alone, a time or monitor capability has lost exactly its descendants and got back the whole range, preempted a first part of them, and a refused revocation has changed nothing; a capability that can be revoked needs another member at which its revocation stops |
| Kernel.RevocationNeedsBarrier | s3k/kernel/src/syscall.c:302-325 | a revocation of a time or monitor capability that runs alone never wraps round the ring if and only if there is such a member |
| Dispatch.Fetch | s3k/kernel/src/sched.c:66-104 | the two scans grant the window exactly when the slot is in use, the hart passes the arbitration and the process is acquired |
| Dispatch.FetchesNextSlot | s3k/kernel/src/sched.c:66-77 | the slot that is fetched is the one in which the time S3K_SCHED_TIME from now lies |
| Dispatch.WindowIsSlice | s3k/kernel/src/sched.c:69-104 | a window belongs to the holder of the capability that covers the slot, begins with the slot, and together with S3K_SCHED_TIME ends exactly where that capability's range ends; a clock value is in it if and only if it is between |
| Dispatch.WindowStaysInSlice | s3k/kernel/src/sched.c:69-104 | every clock value of a granted window lies in a slot that the same capability of the granted process covers, in the period in which the window begins |
| Dispatch.WindowEndsInPeriod | s3k/kernel/src/sched.c:69-104 | a window ends, scheduling time included, before its period does |
| Dispatch.NextWindowLater | s3k/kernel/src/sched.c:69-104 | a fetch at or after the end of a window gets one that starts at least S3K_SCHED_TIME later, even if the schedule has changed meanwhile |
| Dispatch.OnePasses | s3k/kernel/src/sched.c:78-92 | among the harts below the last exactly one passes for every process they are scheduled for: the longest, of the lowest number on a tie |
| Dispatch.ArbitrationExact | s3k/kernel/src/sched.c:78-92 | over all harts at most one passes for a process if and only if the last hart is not the longest claimant or has no rival |
| FatEntry.ReadsBack | s3k/projects/fs/app0/ff.c:1191-1318 | an entry reads back as the value written, cut to 12, 16 or 28 bits |
| FatEntry.OthersKept | s3k/projects/fs/app0/ff.c:1269-1318 | every other entry keeps its value, also the FAT12 neighbour that shares a byte |
| FatEntry.OthersKeptHalf | s3k/projects/fs/app0/ff.c:1284-1296 | this already holds between the two byte stores of a FAT12 entry |
| FatEntry.TopBitsKept | s3k/projects/fs/app0/ff.c:1305-1315 | the four reserved bits above every FAT32 entry survive |
| FatEntry.EntryIsField | s3k/projects/fs/app0/ff.c:1191-1259 | an entry is a field of the number that the bytes of the table spell with the lowest first: the low or high twelve bits of the three bytes at 3(c/2), the two bytes at 2c, or 28 bits of the four at 4c |
| FatEntry.FirstEntries | s3k/projects/fs/app0/ff.c:1208-1215 | the FAT12 table F0 FF FF 03 40 00 has the entries FF0, FFF, 3 and 4 |
| FatDisk.MountedTableFits | s3k/projects/fs/app0/ff.c:3563-3595 | the checks of mount_volume leave room for every entry and for the end mark above all cluster numbers |
| FatDisk.TypeAndBytes | s3k/projects/fs/app0/ff.c:3563-3590 | the type is FAT12 or FAT16 if and only if its entries leave nine values above all cluster numbers, and the size asked of the table is that of its bits, rounded up to bytes |
| FatDisk.FatBytesInOrder | s3k/projects/fs/app0/ff.c:1191-1259 | the table is the sectors of the first FAT, one after the other |
| FatVolume.Volume.SyncWindow | s3k/projects/fs/app0/ff.c:1085-1103 | flushing leaves the logical contents of the drive alone, even when a write fails; without failures the second FAT equals the first |
| FatVolume.Volume.MoveWindow | s3k/projects/fs/app0/ff.c:1107-1128 | moving the window leaves the logical contents of the drive alone; after success the window is the logical sector asked for, and without failures the second FAT equals the first up to a dirty window |
| FatVolume.Volume.GetFat | s3k/projects/fs/app0/ff.c:1191-1259 | returns the entry of the abstract table, 1 for a number that is no cluster, and a disk error only after a device error; the table is unchanged |
| FatVolume.Volume.PutFat | s3k/projects/fs/app0/ff.c:1269-1318 | changes exactly one entry of the abstract table, to the value cut to its width, no sector outside the FATs and, whatever fails, no other entry |
| FatPosition.ClustersApart | s3k/projects/fs/app0/ff.c:1174-1182 | every cluster has sectors of its own in the data area |
| FatPosition.ClustersTile | s3k/projects/fs/app0/ff.c:1174-1182 | cluster 2 begins at the data area, and every sector from there to the end of the last cluster lies in exactly one cluster |
| FatPosition.ClusterSectorZero | s3k/projects/fs/app0/ff.c:1174-1182 | the answer is 0 if and only if the number is no cluster |
| FatPosition.ChunkIsLongest | s3k/projects/fs/app0/ff.c:3962-4026 | a round of f_read or f_write transfers as many whole sectors as are asked for and left in the cluster, or else the rest of the sector |
| FatAlloc.FindFree | s3k/projects/fs/app0/ff.c:1612-1625 | the cyclic search ends; it reports a full volume only if no cluster is free, an internal error only if an entry is 1, and otherwise gives a free cluster |
| FatAlloc.CreateChain | s3k/projects/fs/app0/ff.c:1554-1645 | result, table and counters in every case: bad argument, already followed, volume full, or one formerly free cluster linked behind the argument: the one right behind it if that is free, else the first free one behind the last allocated, going round |
| FatAlloc.RemoveChain | s3k/projects/fs/app0/ff.c:1459-1545 | ends on every table; result, table and count are those of following and freeing the entries from the argument on, behind a new end mark |
| FatAlloc.GetFree | s3k/projects/fs/app0/ff.c:4846-4928 | returns a valid cached count, or else scans the table through the window |
| FatAlloc.ScanExact | s3k/projects/fs/app0/ff.c:4873-4920 | the scan counts the free clusters if and only if the volume is FAT12 or neither reserved entry is zero |
| FatAlloc.FreeingStep | s3k/projects/fs/app0/ff.c:1484-1516 | every round of remove_chain frees one more cluster, on any table |
| FatChain.RemoveCuts | s3k/projects/fs/app0/ff.c:1475-1516 | removal inside a chain frees exactly the clusters from there on, ends the one before, changes no other entry and meets no error |
| FatChain.AppendKeepsPartition | s3k/projects/fs/app0/ff.c:1626-1645 | linking a free cluster behind the last of a chain makes that chain one longer, leaves every other chain and keeps the table a set of disjoint chains that hold every cluster in use |
| FatChain.NewKeepsPartition | s3k/projects/fs/app0/ff.c:1626-1645 | a new chain of one free cluster leaves every other chain and keeps the table a set of disjoint chains that hold every cluster in use |
| FatChain.CutKeepsPartition | s3k/projects/fs/app0/ff.c:1475-1516 | removing the end of a chain, or all of it, leaves every other chain and keeps the table a set of disjoint chains that hold every cluster in use |
| FatChain.ChainDistinct | s3k/projects/fs/app0/ff.c:1484-1516 | a chain that ends in an end mark never comes back to a cluster |
| FatRuns.SearchComplete | s3k/projects/fs/app0/ff.c:1603-1629 | with a right or unknown count and no entry 1, create_chain finds a cluster exactly when one is free |
| FatRuns.RunKeepsGood | s3k/projects/fs/app0/ff.c:1459-1645 | every run of create_chain, remove_chain and f_getfree keeps the table a set of disjoint chains without cycles and the cached count unknown or equal to the number of free clusters |
| FatRuns.RunsFindFree | s3k/projects/fs/app0/ff.c:1603-1629 | in every state such a run reaches, a request fails exactly when no cluster is free |
| FatKeep.CreatedKept | s3k/projects/fs/app0/ff.c:1554-1645 | create_chain for a file keeps the table a set of disjoint chains and the count right or unknown, every chain still begins where it did, and a new first cluster begins one |
| FatKeep.FreedKept | s3k/projects/fs/app0/ff.c:1459-1545 | so does remove_chain for a file that owns its chain, apart from the clusters it frees |
| FatFile.SeekOn | s3k/projects/fs/app0/ff.c:4567-4593 | the cluster following loop ends at the cluster of the byte before the new position, also when the volume fills up on the way |
| FatFile.File.constructor | s3k/projects/fs/app0/ff.c:3898-3928 | an opened file, also one opened for appending, satisfies the file invariant: the cached cluster is element (fptr - 1) / cluster size of the chain |
| FatFile.File.Seek | s3k/projects/fs/app0/ff.c:4540-4602 | keeps the file invariant; ends at the goal, clipped for a reader, or at the end of the last cluster if the volume is full; the chain has only grown, over free clusters, all other chains are as before, the volume stays a set of chains with a right count, and an exact chain stays exact |
| FatFile.File.Read | s3k/projects/fs/app0/ff.c:3944-4028 | keeps the file invariant; without a device error advances by the bytes asked for, up to the end of the file, and never fails |
| FatFile.File.Write | s3k/projects/fs/app0/ff.c:4044-4139 | keeps the file invariant and extends the size; writes fewer bytes than asked for only when the volume is full or the position would leave 32 bits; keeps the volume and an exact chain as f_lseek does |
| FatFile.File.Truncate | s3k/projects/fs/app0/ff.c:4942-4984 | in front of the end of the file leaves exactly as many clusters as the position needs, frees the rest and changes no other chain; at the end changes nothing; so the chain has exactly the clusters the position needs if and only if the position was in front of the end or the chain was exact before |
| FatFile.UnneededCluster | s3k/projects/fs/app0/ff.c:4955-4969 | a file of size 0 can have a cluster and satisfy the file invariant |
| FatFile.TruncateUnneeded | s3k/projects/fs/app0/ff.c:4955-4969 | opening any file of size 0 that has clusters and truncating it at once succeeds, changes nothing and leaves it all of them |
| FatFile.SeekBeside | s3k/projects/fs/app0/ff.c:4540-4602 | f_lseek on one open file leaves every other open file of the volume with a chain apart from it valid, apart, and owner of its chain |
| FatFile.WriteBeside | s3k/projects/fs/app0/ff.c:4044-4139 | f_write on one open file leaves every other such file valid, apart, and owner of its chain |
| FatFile.TruncateBeside | s3k/projects/fs/app0/ff.c:4942-4984 | f_truncate on one open file leaves every other such file valid, apart, and owner of its chain |
| AesTables.SboxInverse | s3k/projects/demonstrator/crypto/aes128.c:9-56 | the two S-box tables are inverse to each other |
| AesSbox.SboxIsAffineInverse | s3k/projects/demonstrator/crypto/aes128.c:9-32 | every entry of the S-box is the affine transformation of FIPS 197, section 5.1.1, of its index's inverse in the field |
| AesSbox.InverseUnique | s3k/projects/demonstrator/crypto/aes128.c:9-32 | there is only one such inverse |
| AesSbox.InverseExists | s3k/projects/demonstrator/crypto/aes128.c:9-32 | and every byte has one |
| AesTables.TablesMultiply | s3k/projects/demonstrator/crypto/aes128.c:57-206 | the six tables are the sums of repeated doublings that 2, 3, 9, 11, 13 and 14 stand for |
| AesSbox.TablesAreProducts | s3k/projects/demonstrator/crypto/aes128.c:57-206 | they are the products by these bytes in the field of FIPS 197, section 4.2, in which the S-box is the inverse |
| AesTables.MixInverse | s3k/projects/demonstrator/crypto/aes128.c:287-315 | a mixed column, unmixed, is the column again |
| Aes.RowsMove | s3k/projects/demonstrator/crypto/aes128.c:221-252 | the assignments of subshiftrows move row r by r columns, as FIPS 197, section 5.1.2, asks |
| Aes.DecryptsEncrypted | s3k/projects/demonstrator/crypto/aes128.c:335-357 | for every 44-word round key and every block, decryption undoes encryption |
| Aes.UnchainsChained | s3k/projects/demonstrator/crypto/aes128.c:374-405 | chained decryption undoes chained encryption on every buffer of whole blocks |
| Aes.SubShiftRows | s3k/projects/demonstrator/crypto/aes128.c:221-252 | in place, the sixteen bytes at the offset become the block with bytes substituted and rows shifted; the rest of the buffer is unchanged |
| Aes.SubShiftRowsInv | s3k/projects/demonstrator/crypto/aes128.c:254-285 | in place, the sixteen bytes at the offset become the block with both steps undone; the rest of the buffer is unchanged |
| Aes.MixColumnsInPlace | s3k/projects/demonstrator/crypto/aes128.c:287-300 | in place, the four columns at the offset are mixed one after the other; the rest of the buffer is unchanged |
| Aes.MixColumnsInvInPlace | s3k/projects/demonstrator/crypto/aes128.c:302-315 | in place, the four columns at the offset are unmixed one after the other; the rest of the buffer is unchanged |
| Aes.XorBlock | s3k/projects/demonstrator/crypto/aes128.c:317-321 | in place, the sixteen bytes at the offset are combined with a second block, byte by byte; the rest of the buffer is unchanged |
| Aes.Encrypt | s3k/projects/demonstrator/crypto/aes128.c:335-345 | the rounds in place compute `Encrypted`, which is the cipher of FIPS 197, section 5.1 (`EncryptsAsStandard`) |
| Aes.Decrypt | s3k/projects/demonstrator/crypto/aes128.c:347-357 | the rounds in place compute `Decrypted`, which is the inverse cipher of section 5.3 (`DecryptsAsStandard`) |
| Aes.CbcEncrypt | s3k/projects/demonstrator/crypto/aes128.c:374-389 | every cipher block is the encryption of its plain block combined with the cipher block before it, or the vector |
| Aes.CbcDecrypt | s3k/projects/demonstrator/crypto/aes128.c:391-405 | working backwards in place, every block is its decryption combined with the old cipher block before it |
| Aes.CbcRoundTrip | s3k/projects/demonstrator/crypto/aes128.c:374-405 | encrypting and then decrypting a buffer in place gives it back |
| Aes.ExpandKey | s3k/projects/demonstrator/crypto/aes128.c:323-333 | the schedule satisfies the recurrence of FIPS 197, section 5.2 |
| Aes.ScheduleBytes | s3k/projects/demonstrator/crypto/aes128.c:208-219 | byte by byte the expanded key is that of FIPS 197, section 5.2: rotated and substituted bytes, and powers of the indeterminate as round constants |
| AesStandard.KeyBytesAre | s3k/projects/demonstrator/crypto/aes128.c:323-333 | byte r of word i of the expanded key is that of FIPS 197, section 5.2, computed from the bytes of the cipher key alone |
| AesStandard.EncryptsAsStandard | s3k/projects/demonstrator/crypto/aes128.c:335-345 | with an expanded key, encryption is the cipher of FIPS 197, section 5.1, stated by rows and columns: S-box, rows moved, columns multiplied in the field, and in round i, row r and column c the key byte r of word 4i + c |
| AesStandard.DecryptsAsStandard | s3k/projects/demonstrator/crypto/aes128.c:347-357 | and decryption the inverse cipher of section 5.3 |
| AesStandard.ChainsAsStandard | s3k/projects/demonstrator/crypto/aes128.c:374-389 | chained encryption is the CBC mode of NIST SP 800-38A, section 6.2, with that cipher |
| AesStandard.UnchainsAsStandard | s3k/projects/demonstrator/crypto/aes128.c:391-405 | and chained decryption its inverse |
| Frame.UartSend | s3k/projects/demonstrator/uartppp/main.c:40-57 | writes the framed bytes |
| Frame.WireBytes | s3k/projects/demonstrator/uartppp/main.c:40-57 | the bytes on the wire: 7B 7D for an empty message, 7C 5B, 7C 5C and 7C 5D for the three markers, every other byte as it is |
| Frame.StuffedTogether | s3k/projects/demonstrator/uartppp/main.c:40-57 | a message is sent byte by byte, each on its own |
| Frame.ClientSend | s3k/projects/demonstrator/scripts/client.py:28-48 | writes the same frame and reports its length |
| Frame.UartReceive | s3k/projects/demonstrator/uartppp/main.c:59-79 | returns the message and stops behind its end marker, or waits, or stores outside its buffer; the last if and only if the stream makes it collect more bytes at one time than the buffer holds |
| Frame.UartReceiveAll | s3k/projects/demonstrator/uartppp/main.c:19-37 | run n times on one buffer it returns the same messages as the specification, and stays inside the buffer if and only if none of the runs needs more |
| Frame.BufferTakesList | s3k/projects/demonstrator/uartppp/main.c:59-79 | one buffer takes a list of messages if and only if it takes each of them |
| Frame.ClientReceive | s3k/projects/demonstrator/scripts/client.py:51-79 | the same message, or the error that the end of the stream provokes: EOFError inside a frame, TypeError inside an escape pair; it never ends if and only if the stream has no begin marker |
| Frame.ClientReceiveAll | s3k/projects/demonstrator/scripts/client.py:146-161 | run n times it returns the same messages as the specification |
| Frame.ReceivesFramed | s3k/projects/demonstrator/uartppp/main.c:40-79 | what either sender writes either receiver returns, after any bytes without the begin marker |
| Frame.ReceivesAfterBroken | s3k/projects/demonstrator/uartppp/main.c:59-79 | behind a frame that broke off the next message is received if and only if the broken frame does not stop inside an escape pair |
| Frame.BrokenFrameUnended | s3k/projects/demonstrator/uartppp/main.c:40-57 | every beginning of a frame is such a broken frame |
| Frame.ReceivesList | s3k/projects/demonstrator/scripts/client.py:28-79 | every list of messages is received as the same list |
| Frame.ReceivesListAfterNoise | s3k/projects/demonstrator/scripts/client.py:28-79 | also behind any bytes without the begin marker |
| Frame.ReceivesListAfterBroken | s3k/projects/demonstrator/scripts/client.py:28-79 | and behind a frame that broke off if and only if that one does not stop inside an escape pair |

## Where the code differs from what one might expect

- `cap_mk_memory` stores an address, not a block number, in `mrk`; the model keeps it, so no initial memory capability
  is assumed to have its mark inside its range.
- `cap_revoke_memory` compares the size of a PMP region, where its end is meant, with the address of the range
  (`MemoryRevokeExactly`), so the PMP capabilities of memory from 256 MiB on are never revoked (`PmpNotRevoked`).
- `cap_revoke_channel` tests the range with its ends exchanged: revoking a channel capability deletes the older ones
  beside it (`ChannelRevokeExactly`, `RevokesOlder`).
- `cte_move` breaks the list when only one entry is in use, and a revoke step can wrap round the ring to an ancestor
  when all members are of one group.  `MoveNeedsTwoEntries`, `RevokeNeedsOutsider` and, for a whole revocation,
  `RevocationNeedsBarrier` give the exact conditions, which the runs of `CapRuns` assume.  Nothing in the kernel sees to
  them: whoever owns the last capabilities can delete all but one (`RingTooSmall`).  They hold as long as some PMP
  capability is kept (`GuardSuffices`).
- The arbitration in `sched_fetch` never looks at the last hart as a rival of a lower one (`ArbitrationExact`);
  `proc_acquire` then decides.
- A hart of the queue lock can write through a NULL pointer when it reads `node->prev` again after another hart has
  cleared it.  `FaultingRun` is such a run of two harts; `FaultExactly` says that it takes two harts, a preempted
  waiter and a compiler that reads the field again, and that none of the three suffices without the others.
- A waiter that has left the queue and joined it again can make a late store of `next` overwrite a newer link, after
  which a release never ends.  Two harts can block each other so for ever (`TwoHartsDeadlock`); `DiesExactly` says
  that it takes two harts and a preempted waiter.
- `f_getfree` counts the reserved entries 0 and 1 on FAT16 and FAT32 if they are zero (`ScanExact`).
- The Python receiver loops for ever if and only if the stream has no begin marker (`ClientReceive`).
- The C receiver does not know the size of its buffer: it stores outside it if and only if a stretch of the stream
  collects more bytes than the buffer holds (`UartReceive`).
- `f_truncate` at the end of a file leaves a chain that is longer than the size needs as it is (`File.Truncate`,
  `TruncateUnneeded`).
- The comments in `aes128_cbc_enc` and `aes128_cbc_dec` ask for a length that is a multiple of 256; multiples of 16 do.

## Left out

- Progress of the queue lock in those runs with aborted waits that keep all links: progress is proved without aborts,
  and refuted with them by `DiesExactly`.
- Weak memory ordering and the wrap-around of the 64-bit counters: memory is sequentially consistent and the counters
  are unbounded.
- Memory capabilities as nested ranges, which they need not be from the start, and runs of the channel order, which
  revocations of channel capabilities break; single steps of both are exact.
- CapRevocation.RevokedByReset: speaks of time and monitor capabilities; for the other kinds `Kernel.SysCapRevoke` and
  the exact steps say what a revocation does.
- Process states, registers and message passing: the suspended processes are a parameter of the monitor operations,
  and `cap_sock_clear` has no effect in the model.
- The layout of capabilities in 64-bit words; the model has one constructor per kind.
- `proc_acquire` and the clock: parameters of `Dispatch.Fetch`.
- FatFile.File.Read and the other file operations: the file's data, its one-sector buffer and the directory entry are
  not modelled; a transfer of data is a step that may fail.
- Directories, path names, formatting, long file names, exFAT, `f_sync` and the FSInfo sector, and the lower disk
  layer: the device is a sequence of sectors read and written one at a time.
- `aes128_cbc_mac`, which combines each block with the one before the one it should.
- Assembly, device drivers, the user-level library and the sample applications.
