# Verified model of the LamiaAtrium simple operating system

LamiaAtrium is a small operating-system simulator: threads that stand for CPUs take processes from a
multi-level queue scheduler and execute their programs, one instruction per time slot; a loader adds processes;
a timer holds all of them in lock step; and the programs allocate, free, read and write memory through a
paged memory manager. This project models the scheduler, the threads, the barrier, and the memory manager,
and proves what every run of them guarantees.

## How the model is laid out

**Scheduler.** `Queues` (queue.c) and `Schedulers` (sched.c) are classes over arrays, with the loops of the C
code. Their contracts say that every operation does to the scheduler's abstract state what the functions of
`Mlqs` say. `Policy` says what those functions do, level by level, in the numbers of the source; `Fairness` proves
bounded waiting and the quota of a round about them.

**Threads.** `Barriers` (timer.c) and `Kernels` (os.c) are step relations: one step is one critical section, or
one unlocked access, of one thread, and any interleaving of any number of CPUs, with spurious wake-ups, is a run.
`Ownership`, `Stranded`, `Programs` and `Progress` hold the inductive invariants; `OsTheorems` states what follows
for all runs, `Loading` in which slot each process is added, `Quanta` how much a CPU executes, `Completion` that
every program is executed after a bounded number of steps, and `Stopping` which CPUs then stop, and the timer. Where the scheduler's lock protects a call, the step is the function of `Mlqs` that the class is
proved to compute.

**Memory.** `Memphys` (mm-memphy.c), `LibMem` (libmem.c, mm64.c, mm-vm.c) and `Cpus` (cpu.c) are classes over
arrays and lists with the loops of the C code. Their contracts tie every method to the functions of `Memory`,
down to the bits of page-table entries (`Ptes`). `Tables` and `Paging` show what those functions do to a page
table seen without bits; `Mapping` does the same for ranges anywhere in the address space. `Worlds` runs any
sequence of operations of any number of processes over one RAM and one swap device. `Accesses` and `Heaps` say what
accesses, frees and growths do in terms of the symbol table, the masks and the free list. `Regions`, `Frames`,
`SwapFrames`, `Isolation`, `MemTheorems` and `Private` prove what holds in all runs. Private memory needs growths that find
their frames: `Starvation` says exactly what is read of a variable whose growth did not, and exactly when that is
still new memory; `Exhaustion` has a concrete run in which it is another process's byte.

**Both.** `Systems` couples the threads with the memory: whatever the interleaving, the memory is the result of
a legal sequence of operations, and its instructions are those the CPUs executed, in that order.

## Where the code differs from its documentation or its purpose

- The scheduler chapter of the report (latex/content/sched.tex) lists a strict-priority scan that restarts at
  level 0 for every dispatch. The code scans on from `current_prio` with slot counters; the model follows the code.
- `inc_vma_limit` is written to take sbrk back when frames run out, but it compares an unsigned result with
  `< 0`, so it never does. The model follows the code: sbrk has moved, no page is mapped, the popped frames are lost.
- A page that has been evicted still counts as present (`pte_set_swap` sets that bit), so it is never brought back:
  `Tables.NeverSwappedIn` proves that the code for bringing pages back is never reached.
  What an access to such a page does instead is stated by `Exhaustion.EvictedAliases`.
- `done` is meant to stop every CPU. A CPU that is given no process at its loop head goes on to the next slot
  without looking at `done` (os.c:53-57), so one that is idle when all work is done never stops:
  `Stopping.StopsExactly` says exactly which CPUs do, and `Stopping.NeverStops` names configurations whose
  simulation never ends.
- The page-offset mask of the 64-bit mode keeps 8 bits where pages have 12: addresses of one page that agree
  in their low 8 bits are one byte of memory (`Ptes.OffsetMask`). The isolation theorems count bytes that way.

## Assumptions

- Memory accesses of the threads are sequentially consistent.
- Runs have at most 50 live processes, as the queues hold 50; `Bags.AddLosesExactlyWhenFull` says exactly
  when a process is lost otherwise. Priorities are below 140, `time_slot` and the number of CPUs at least 1.
- The list links that the C code leaves uninitialised (the first free region's, the first free frame's) are null.
- RAM has at most 8192 frames, the range of the frame field (`Ptes.FpnFitsExactly`), the swap device at most 2^21,
  the range of the offset field (`Ptes.SetSwapMod`), and heaps have at most 512 pages, the size of the one table
  that is consulted (`Mapping.OwnEntriesExactly`).
- Variable 30 is not used. Its entry lies just past the symbol table, and the code's range checks let it through.
  Variables from 31 on are refused by free, read and write, as in the code; allocating one is excluded. Registers
  are 0 to 9.
- Sizes and offsets are natural numbers whose sums do not wrap around in 64 bits.

## Model

| member | source | states |
|---|---|---|
| Queues.Queue.Empty | ossim_lamiaatrium/src/queue.c:5-10 | A queue is empty exactly when it holds no process. |
| Queues.Queue.Enqueue | ossim_lamiaatrium/src/queue.c:12-26 | The process is appended, unless the queue holds 50 already; then nothing changes. |
| Queues.Queue.Dequeue | ossim_lamiaatrium/src/queue.c:28-48 | The first process leaves, the others keep their order; an empty queue gives none. |
| Queues.Queue.Purge | ossim_lamiaatrium/src/queue.c:73-96 | The first entry with the process's pid leaves, all others keep their order; without one nothing changes. |
| Queues.PurgedBag | ossim_lamiaatrium/src/queue.c:80-93 | Purging takes out exactly one copy of an entry whose pid no other entry has. |
| Schedulers.Scheduler.constructor | ossim_lamiaatrium/src/sched.c:40-54 | All queues empty, level p with 140 - p slots, nothing used, the scan at level 0. |
| Policy.InitExactly | ossim_lamiaatrium/src/sched.c:40-54 | At the start all 140 queues and the running list are empty, every counter and current_prio are 0, and level p has 140 - p slots. |
| Schedulers.Scheduler.GetMlqProc | ossim_lamiaatrium/src/sched.c:70-110 | The loop with its slot counters computes the cyclic scan: new state and result are those of the policy. |
| Schedulers.Scheduler.ScanLevels | ossim_lamiaatrium/src/sched.c:75-105 | The loop stops at the first non-empty level in cyclic order, or after all 140, with the counters cleared if it ran past level 139. |
| Schedulers.Scheduler.Dispatch | ossim_lamiaatrium/src/sched.c:79-93 | The level's first process moves to the running list and uses up one slot; the last slot moves the scan on. |
| Schedulers.Scheduler.AddMlqProc | ossim_lamiaatrium/src/sched.c:125-140 | The process joins the queue of its priority; a priority past the last level is refused. |
| Schedulers.Scheduler.PutMlqProc | ossim_lamiaatrium/src/sched.c:112-123 | The process leaves the running list and joins the queue of its priority. |
| Schedulers.Scheduler.FinishProc | ossim_lamiaatrium/src/sched.c:56-61 | The process leaves the running list; nothing else changes. |
| Schedulers.Scheduler.FindProcessByPid | ossim_lamiaatrium/src/sched.c:222-270 | The loops find the first match, in the running list before the ready queues, level by level. |
| Schedulers.Scheduler.Wrap | ossim_lamiaatrium/src/sched.c:99-104 | Every slot counter is cleared and the scan is at level 0. |
| Schedulers.Scheduler.HasTurn | ossim_lamiaatrium/src/sched.c:79 | The two tests come to one: a level with work always has a slot left. |
| Mlqs.LookupFinds | ossim_lamiaatrium/src/sched.c:222-270 | A lookup fails exactly when no list holds the pid, and what it finds has the pid. |
| Mlqs.Get | ossim_lamiaatrium/src/sched.c:75-109 | After a dispatch, as after every operation, 0 <= current_slot[p] < slot[p] for every level and current_prio is a level. |
| Mlqs.WorkConserving | ossim_lamiaatrium/src/sched.c:75-109 | get_mlq_proc gives none exactly when all 140 queues are empty. |
| Mlqs.ServesFirstInCyclicOrder | ossim_lamiaatrium/src/sched.c:75-109 | Otherwise it gives the head of the first non-empty level in cyclic order from current_prio. |
| Policy.EmptyGet | ossim_lamiaatrium/src/sched.c:75-109 | A call that finds all 140 queues empty clears every counter, takes current_prio back to 0, and leaves queues and running list alone. |
| Policy.GetExactly | ossim_lamiaatrium/src/sched.c:75-109 | A call that finds work serves the first non-empty level q in cyclic order: every queue, counter and current_prio after it, with and without a wrap, and for level 139 too. |
| Policy.FirstLevel | ossim_lamiaatrium/src/sched.c:75-109 | There is such a first level whenever some queue has work. |
| Policy.AddExactly | ossim_lamiaatrium/src/sched.c:125-140 | The process comes last in the queue of its priority if that has fewer than 50; no other queue, no counter and not the running list changes. |
| Policy.PutExactly | ossim_lamiaatrium/src/sched.c:112-123 | The first entry with the pid leaves the running list, and the process comes last in the queue of its priority. |
| Policy.FinishExactly | ossim_lamiaatrium/src/sched.c:56-61 | The first entry with the pid leaves the running list, the others keep their order, and nothing else changes. |
| Policy.LookupRunning | ossim_lamiaatrium/src/sched.c:222-270 | A pid on the running list is looked up to its first entry there. |
| Policy.LookupReadyFirst | ossim_lamiaatrium/src/sched.c:222-270 | If the running list does not know the pid, the lookup gives the first entry of the lowest level that does. |
| Fairness.OthersBringItNearer | ossim_lamiaatrium/src/sched.c:78-104 | While level q has work, a dispatch of another level strictly lowers the number of slots before q's turn, and leaves q's queue alone. |
| Fairness.AheadBound | ossim_lamiaatrium/src/sched.c:40-110 | That number never exceeds 9730 + q. |
| Fairness.WaitsOn | ossim_lamiaatrium/src/sched.c:56-140 | Every scheduler operation but its own dispatch keeps a queued process in its queue, and every dispatch shortens its wait. |
| Fairness.ServedWithin | ossim_lamiaatrium/src/sched.c:56-140 | Under any mix of add, put, finish and get, the process is dispatched after at most its wait of dispatch requests. |
| Fairness.BoundedWaiting | ossim_lamiaatrium/src/sched.c:40-140 | The process at position k of level q is dispatched within (k+1)(9730+q)+k requests, whatever the others do. |
| Fairness.LevelQuota | ossim_lamiaatrium/src/sched.c:78-104 | Until the scan wraps, a level ahead of it is dispatched at most as often as it has unused slots, a level behind it never. |
| Fairness.RoundMovesForward | ossim_lamiaatrium/src/sched.c:78-104 | Within a round current_prio never decreases, unless the round's last dispatch is level 139's. |
| Fairness.RoundQuota | ossim_lamiaatrium/src/sched.c:78-104 | A round dispatches level p at most 140 - p times and has at most 9870 dispatches. |
| Barriers.RunInv | ossim_lamiaatrium/src/timer.c:21-93 | The invariant of the slot counters, the flags and the sleepers holds in every state of every run. |
| Barriers.BarrierSafety | ossim_lamiaatrium/src/timer.c:21-93 | Two live devices differ by at most one slot, each is at `_time` or one before, and none enters a slot before all others are done with the last or gone. |
| Barriers.NoLostWakeUp | ossim_lamiaatrium/src/timer.c:28-77 | A device sleeps only while the timer still has to release it, the timer only while the device it waits for has still to announce itself, and the timer is gone only when all devices have detached. |
| Barriers.SomethingMoves | ossim_lamiaatrium/src/timer.c:28-77 | In every state of the invariant with a live device some step other than a spurious wake-up is enabled. |
| Barriers.NoDeadlock | ossim_lamiaatrium/src/timer.c:21-93 | In every reachable state with a live device some step other than a spurious wake-up is enabled. |
| Barriers.TimerExits | ossim_lamiaatrium/src/timer.c:22-57 | Once all n devices have detached, the timer exits within 4n + 6 steps, not counting calls of stop_timer; and it exits only then. |
| Barriers.NeverBlocked | ossim_lamiaatrium/src/timer.c:28-39 | Once all devices have detached, the timer waits for none of them. |
| Barriers.StopExits | ossim_lamiaatrium/src/timer.c:22 | A timer at its loop head that finds timer_stop set exits. |
| Barriers.StoppedTimer | ossim_lamiaatrium/src/timer.c:22-57 | In any run, once stop_timer has been called, the timer exits as soon as it is at its loop head. |
| Bags.AddLosesExactlyWhenFull | ossim_lamiaatrium/src/queue.c:19-22 | add_proc loses the process exactly when its queue is full or its priority is past the last level. |
| Bags.GetBag | ossim_lamiaatrium/src/sched.c:79-93 | A dispatch moves one process from the ready queues to the running list, and an empty-handed scan finds none queued. |
| Ownership.PutBag | ossim_lamiaatrium/src/sched.c:112-123 | With room, put_proc moves exactly one process from the running list to the ready queues. |
| Ownership.StepInv | ossim_lamiaatrium/src/os.c:47-150 | Every step of every thread keeps: each loaded process in one place, the running list what the CPUs hold, each queue its own priority. |
| OsTheorems.ExactlyOnePlace | ossim_lamiaatrium/src/os.c:53-74 | In every run a loaded process is queued, held by a CPU or finished, exactly one of these; an unloaded one is nowhere; the running list is what CPUs hold. |
| OsTheorems.NoDuplicates | ossim_lamiaatrium/src/os.c:53-74 | No process is held by two CPUs, twice in a queue, or in a queue of another priority. |
| OsTheorems.SelfLookup | ossim_lamiaatrium/src/sys_mem.c:33-39 | A memory system call of a running process resolves its pid to that very process. |
| Stranded.SlotCpu | ossim_lamiaatrium/src/os.c:54-82 | An empty get_proc made before the last add_proc stays in the slot of that add_proc: no CPU can carry it into a later one. |
| Stranded.SlotBar | ossim_lamiaatrium/src/timer.c:44-53 | The barrier does not release the loader into a new slot while such a CPU is still at work in the old one. |
| Stranded.MatchedCpu | ossim_lamiaatrium/src/os.c:53-88 | Once a CPU is sure to stop, whatever is queued is matched by CPUs between put_proc and get_proc; each step keeps this. |
| OsTheorems.NoProcessStranded | ossim_lamiaatrium/src/os.c:47-150 | When all CPUs have stopped, every process has been loaded and has executed its whole program. |
| OsTheorems.EmptyGetIsLate | ossim_lamiaatrium/src/os.c:76-79 | A CPU that sees `done` after an empty get_proc made that call after the last add_proc. |
| OsTheorems.QuantumExact | ossim_lamiaatrium/src/os.c:68-99 | A preempted process has executed exactly time_slot instructions since its dispatch, and put_proc queues it. |
| Quanta.OneQuantum | ossim_lamiaatrium/src/os.c:52-99 | From taking a process up to letting it go a CPU executes at most time_slot instructions of it. |
| Quanta.ExactlyOneQuantum | ossim_lamiaatrium/src/os.c:68-99 | If it lets go before the program has ended, it has executed exactly time_slot. |
| Quanta.StepExecutes | ossim_lamiaatrium/src/cpu.c:61-70 | A step of any thread executes nothing, or the instruction at pc of the process of the CPU that runs it. |
| Quanta.OnePerSlot | ossim_lamiaatrium/src/os.c:97-99 | A CPU executes at most one instruction in every slot. |
| Quanta.NoSlotWasted | ossim_lamiaatrium/src/os.c:52-100 | With no empty programs, between two ticks, of which the first finds everything loaded and instructions left, an instruction is executed. |
| OsTheorems.ExecutedPrefix | ossim_lamiaatrium/src/cpu.c:61-70 | What a process has executed is at every moment the prefix of its code up to pc, and all of it once finished. |
| OsTheorems.ThreadsInLockStep | ossim_lamiaatrium/src/os.c:52-149 | The real threads, as users of the barrier, stay in lock step. |
| OsTheorems.NeverStuck | ossim_lamiaatrium/src/os.c:52-149 | As long as a thread is left, some step other than a spurious wake-up is enabled. |
| OsTheorems.DispatchedInTime | ossim_lamiaatrium/src/os.c:52-100 | In any interleaving a queued process is dispatched within (n+1)(9730+q)+n further get_proc calls. |
| Progress.SlotExecutes | ossim_lamiaatrium/src/os.c:52-100 | When the clock moves on, the slot that began with everything loaded and work left has got some of it done: an instruction, or the turn of a program without any. |
| Progress.EverySlotExecutes | ossim_lamiaatrium/src/os.c:52-100 | Between two ticks of any run, the first of which finds everything loaded and work left, the work left has dropped. |
| Progress.WorkBoundsSlots | ossim_lamiaatrium/src/os.c:52-100 | From any state on no more such slots begin than there is work left, counting one for every instruction and one for every program without any: a termination measure. |
| Completion.StepSinks | ossim_lamiaatrium/src/timer.c:21-77 | Every step of any thread other than a tick, a spurious wake-up and the final stop lowers a measure of the steps before the next tick; a spurious wake-up raises it by one. |
| Completion.TickComes | ossim_lamiaatrium/src/timer.c:21-77 | In any interleaving, as long as a thread is left, 12 cpus + 16 steps, and two more for each spurious wake-up, contain a tick. |
| Completion.LoadedInTime | ossim_lamiaatrium/src/os.c:117-146 | Every process is loaded, and `done` set, by the slot given by the last start time plus the number of processes. |
| Loading.AddedInSlot | ossim_lamiaatrium/src/os.c:117-143 | Process j is added in exactly one slot: its start time, or the slot after that of the process before it, if that is later; with the pid and priority of its line. |
| Loading.OnlyAdds | ossim_lamiaatrium/src/os.c:140-142 | No other step of any thread adds a process. |
| Loading.LoadedExactly | ossim_lamiaatrium/src/os.c:117-143 | At every moment of every run, no process is loaded whose start time or slot has not come, and every process is whose slot has passed. |
| Completion.CompletesAfterLoading | ossim_lamiaatrium/src/os.c:47-150 | From any state with everything loaded, every program is completely executed after (work left + 1)(12 cpus + 16) steps, and two for each spurious wake-up. |
| Completion.Completes | ossim_lamiaatrium/src/os.c:47-150 | From the start, every process is loaded and completely executed and `done` is set after (last start + processes + work + 2)(12 cpus + 16) steps, and two for each spurious wake-up, in every interleaving. |
| Stopping.StepDrifts | ossim_lamiaatrium/src/os.c:52-88 | Once all work is done, no step makes an idle CPU anything else, or another CPU idle, and a CPU that is not idle calls next_slot at most once more. |
| Stopping.StopsExactly | ossim_lamiaatrium/src/os.c:52-88 | Once all work is done, a CPU stops, and then within two slots, if and only if it is not idle, that is, at its loop head or in next_slot without a process. |
| Stopping.EndsExactly | ossim_lamiaatrium/src/os.c:52-90 | After the steps in which all work is done, all threads are gone within two slots and the timer within 4 cpus + 10 steps more, if and only if no CPU is idle then. |
| Stopping.TimerFollows | ossim_lamiaatrium/src/timer.c:22-57 | After the last thread has detached the timer exits within 4 cpus + 10 steps. |
| Stopping.NeverStops | ossim_lamiaatrium/src/os.c:52-58 | With more CPUs than processes, and programs no longer than a quantum, some CPU is idle in every state of every run, so the simulation never ends. |
| Ptes.Masks | ossim_lamiaatrium/include/mm64.h:10-62 | The mask constants are what the macros compute from their bit positions. |
| Ptes.FpnFitsExactly | ossim_lamiaatrium/include/mm.h:33-34 | A frame number comes back from an entry exactly when it is below 8192. |
| Ptes.SetFpnMod | ossim_lamiaatrium/src/mm64.c:159-163 | The frame number read back from an entry is the one written, modulo 8192, for every number. |
| Ptes.FpnRoundTrip | ossim_lamiaatrium/src/mm64.c:159-163 | pte_set_fpn over any earlier contents leaves a resident page with that frame. |
| Ptes.SwapRoundTrip | ossim_lamiaatrium/src/mm64.c:126-131 | pte_set_swap keeps the swap offset, leaves the page present, and puts offset bits into the frame field. |
| Ptes.SetSwapMod | ossim_lamiaatrium/src/mm64.c:126-131 | The swap offset read back from an entry is the one written, modulo 2^21. |
| Ptes.OtherBits | ossim_lamiaatrium/src/mm64.c:126-163 | pte_set_fpn keeps bits 13 to 29 of an entry, pte_set_swap bits 26 to 29. |
| Ptes.SwapType | ossim_lamiaatrium/src/mm64.c:126-131 | The swap type read back from an entry is the one written, modulo 32. |
| Ptes.PathInRange | ossim_lamiaatrium/src/mm64.c:81-83 | The range check of the five indices never fails. |
| Ptes.PathInverse | ossim_lamiaatrium/src/mm64.c:71-86 | The five indices and the offset determine the address if and only if it is below 2^57. |
| Ptes.PathOnto | ossim_lamiaatrium/src/mm64.c:71-86 | Any five indices below 512 are those of some address. |
| Ptes.PtIndexMod | ossim_lamiaatrium/src/mm64.c:97-102 | The one index that is used is the page number modulo 512, for every page number. |
| Ptes.OffsetMask | ossim_lamiaatrium/include/mm64.h:57 | The 64-bit offset mask is 8 bits wide. |
| Accesses.PhysicalExactly | ossim_lamiaatrium/src/libmem.c:27-47 | The physical address is the frame number times 4096 plus what that mask keeps of the address. |
| Accesses.KeptExactly | ossim_lamiaatrium/src/libmem.c:27-36 | The mask keeps the same of two addresses if and only if they agree modulo 256. |
| Accesses.ReadExactly | ossim_lamiaatrium/src/libmem.c:276-349 | __read refuses if and only if the variable is not one of 0 to 29 or start + offset is not below its end; else it goes to the page of start + offset and gives the byte there, if there is one. |
| Accesses.WriteExactly | ossim_lamiaatrium/src/libmem.c:303-402 | __write refuses exactly the same; else it stores to that address, or drops a byte that has no place. |
| Accesses.FreeExactly | ossim_lamiaatrium/src/libmem.c:135-156 | __free refuses if and only if the variable is not one of 0 to 29 or is not allocated; else its region comes first in the free list, and a second free and every access to it are refused. |
| Accesses.NothingAtFirst | ossim_lamiaatrium/src/mm64.c:425-464 | A process that has just been loaded frees, reads and writes nothing. |
| Accesses.AddressesDiffer | ossim_lamiaatrium/src/libmem.c:81-126 | Two bytes of two live variables, or of one, have different addresses. |
| Mapping.OwnEntriesExactly | ossim_lamiaatrium/src/mm64.c:141-163 | The pages of a heap have entries of their own if and only if there are at most 512. |
| Mapping.LookUp | ossim_lamiaatrium/src/mm64.c:270-315 | After mapping up to 512 pages from any page on, the i-th page looks up to the i-th frame and is resident. |
| Mapping.Untouched | ossim_lamiaatrium/src/mm64.c:294-312 | Entries of no page of the range keep all their bits. |
| Memphys.Memphy.constructor | ossim_lamiaatrium/src/mm-memphy.c:178-195 | Zeroed storage and every frame free, in ascending order. |
| Memphys.Memphy.Format | ossim_lamiaatrium/src/mm-memphy.c:120-142 | The loop enlists frames 0 to size / 4096 - 1 in order; a device smaller than a frame has none. |
| Memphys.Memphy.GetFreefp | ossim_lamiaatrium/src/mm-memphy.c:144-156 | The first free frame is handed out, or none. |
| Memphys.Memphy.PutFreefp | ossim_lamiaatrium/src/mm-memphy.c:165-173 | The frame goes to the front of the free list. |
| Memphys.Memphy.ReadByte | ossim_lamiaatrium/src/mm-memphy.c:61-76 | The byte at the address, or an error past the end of storage. |
| Memphys.Memphy.WriteByte | ossim_lamiaatrium/src/mm-memphy.c:99-114 | That byte and no other changes; past the end nothing does and the error is reported. |
| Memphys.Memphy.SwapCpPage | ossim_lamiaatrium/src/mm64.c:402-418 | The loop copies 256 bytes, frame numbers being scaled by 256, skipping what lies past either device's end. |
| LibMem.MmStruct.constructor | ossim_lamiaatrium/src/mm64.c:425-464 | Nothing mapped, no variable, one empty free region, sbrk 0. |
| Heaps.FirstMemory | ossim_lamiaatrium/src/mm64.c:425-464 | 512 zero entries, 30 unallocated variables, one empty region, sbrk 0, no page enlisted. |
| LibMem.MmStruct.PteSetFpn | ossim_lamiaatrium/src/mm64.c:141-166 | Exactly one entry changes, by the bit operations of the code. |
| LibMem.MmStruct.PteSetSwap | ossim_lamiaatrium/src/mm64.c:111-134 | Exactly one entry changes, by the bit operations of the code. |
| LibMem.MmStruct.EntryIndex | ossim_lamiaatrium/src/mm64.c:97-102 | The five-level walk comes to the entry numbered page modulo 512. |
| LibMem.MmStruct.PteGetEntry | ossim_lamiaatrium/src/mm64.c:174-190 | The entry of the page as it stands in the table. |
| LibMem.MmStruct.EnlistPgn | ossim_lamiaatrium/src/mm64.c:485-494 | The page goes to the front of the FIFO. |
| LibMem.MmStruct.FindVictimPage | ossim_lamiaatrium/src/libmem.c:461-480 | The walk ends at the last page of the list, which is returned and cut off; an empty list gives none. |
| LibMem.MmStruct.AllocPagesRange | ossim_lamiaatrium/src/mm64.c:324-354 | With n free frames the first n are popped in order; otherwise all are popped and the call fails. |
| LibMem.MmStruct.VmapPageRange | ossim_lamiaatrium/src/mm64.c:270-315 | The loop maps page after page and enlists each in the FIFO. |
| LibMem.MmStruct.VmMapRam | ossim_lamiaatrium/src/mm64.c:365-394 | Pages are mapped if and only if all their frames were found. |
| LibMem.MmStruct.IncVmaLimit | ossim_lamiaatrium/src/mm-vm.c:126-179 | sbrk moves by the page-aligned size whether or not the pages could be mapped, and a size of zero maps a page; only an area that would stay empty is refused. |
| LibMem.MmStruct.EnlistFreerg | ossim_lamiaatrium/src/libmem.c:53-60 | The region goes to the front of the free list, unless it is empty. |
| LibMem.MmStruct.GetFreeVmrgArea | ossim_lamiaatrium/src/libmem.c:488-522 | The walk succeeds if and only if some region has room, takes the first that has, and carves the request from its start. |
| LibMem.MmStruct.Alloc | ossim_lamiaatrium/src/libmem.c:81-126 | First fit, or else growth: the address returned, the whole new memory and the RAM are those of Memory.Alloc. |
| LibMem.MmStruct.Free | ossim_lamiaatrium/src/libmem.c:135-156 | The variable's region becomes the first free region; an unallocated or out-of-range variable is refused. |
| LibMem.MmStruct.MakeRoom | ossim_lamiaatrium/src/libmem.c:235-250 | The oldest page's frame is vacated to the first free swap frame; with no page, or no swap frame, none is, and in the second case the page is still lost from the FIFO. |
| LibMem.MmStruct.PgGetpage | ossim_lamiaatrium/src/libmem.c:213-268 | Hit, free frame, eviction and both failures: frame, page table, FIFO, RAM and swap are those of Memory.GetPage. |
| LibMem.MmStruct.Read | ossim_lamiaatrium/src/libmem.c:276-349 | The bounds check, the fault and the byte read, including the reads that succeed without a value. |
| LibMem.MmStruct.Write | ossim_lamiaatrium/src/libmem.c:303-402 | The bounds check, the fault and the byte stored, including the writes that are dropped without an error. |
| Cpus.Process.LibAlloc | ossim_lamiaatrium/src/libmem.c:163-181 | The memory and the devices change as one allocation of the model, and the status is 0. |
| Cpus.Process.LibFree | ossim_lamiaatrium/src/libmem.c:188-204 | They change as one free of the model; the status is -1 exactly when the free is refused. |
| Cpus.Process.LibRead | ossim_lamiaatrium/src/libmem.c:352-374 | They change as one read of the model; the byte delivered is the one read, or what the uninitialised local held where the read sets none; the status is -1 exactly outside the variable. |
| Cpus.Process.LibWrite | ossim_lamiaatrium/src/libmem.c:405-428 | They change as one write of the model; the status is -1 exactly outside the variable. |
| Cpus.Process.ReadTo | ossim_lamiaatrium/src/cpu.c:92-102 | A READ puts the byte into its register if the status is 0, and changes no other register. |
| Cpus.Process.Run | ossim_lamiaatrium/src/cpu.c:61-116 | Past the end nothing happens and the status is 1; otherwise pc advances by one, and the memory, the registers and the status are those of the instruction at pc. |
| Memory.FirstFit | ossim_lamiaatrium/src/libmem.c:496-519 | The region found has room and no earlier one has. |
| Regions.FitsExactly | ossim_lamiaatrium/src/libmem.c:488-522 | A request is met from the free list if and only if some free region has room, by the first that has. |
| Memory.GrowthIsPositive | ossim_lamiaatrium/src/libmem.c:88-118 | sbrk is raised only for requests of at least one byte, by at least one page. |
| Regions.CarveCovers | ossim_lamiaatrium/src/libmem.c:498-514 | Carving takes exactly the bytes handed out off the free list, and lowers its total by the size. |
| Heaps.AlignsUp | ossim_lamiaatrium/include/mm64.h:8-14 | A growth is by the least multiple of 4096 that is large enough. |
| Heaps.CarveKeepsOrder | ossim_lamiaatrium/src/libmem.c:498-514 | Carving keeps the order of the free regions; what is left of the one carved takes its place. |
| Heaps.FreedIsReused | ossim_lamiaatrium/src/libmem.c:53-60 | The region freed last is used first: a request it has room for starts where it starts. |
| Heaps.GrowsByNothing | ossim_lamiaatrium/src/mm-vm.c:138-172 | A growth by zero bytes maps one page at sbrk if there is a heap and a frame, and else does nothing. |
| Regions.AllocRegions | ossim_lamiaatrium/src/libmem.c:88-122 | __alloc raises sbrk only when no free region fits, and whether or not there were frames. |
| Regions.AllocInv | ossim_lamiaatrium/src/libmem.c:81-126 | __alloc keeps: no address in two regions, none past sbrk, sbrk page aligned, live + free + lost = sbrk. |
| Regions.FreeInv | ossim_lamiaatrium/src/libmem.c:135-156 | __free keeps the same. |
| MemTheorems.RegionsInRun | ossim_lamiaatrium/src/libmem.c:81-156 | In every run of any processes, live variables and free regions are pairwise disjoint, below sbrk, and no byte is unaccounted for. |
| Paging.GrowTable | ossim_lamiaatrium/src/mm-vm.c:138-178 | Growth on bits is growth on the table: frames from the head of the free list, in order, or none. |
| Paging.GrownMarks | ossim_lamiaatrium/src/mm64.c:294-312 | Entry by entry: new pages get the popped frames in order, other entries stay; without enough frames all stay. |
| Paging.GetPageTable | ossim_lamiaatrium/src/libmem.c:213-268 | pg_getpage on bits is the replacement policy on the table, and no byte of RAM changes. |
| Tables.NeverSwappedIn | ossim_lamiaatrium/src/libmem.c:222-231 | No entry is swapped without being present, so no fault finds a page to bring back. |
| Tables.FifoResident | ossim_lamiaatrium/src/mm64.c:485-494 | fifo_pgn holds distinct resident pages below sbrk, newest first in mapping order. |
| MemTheorems.FifoInRun | ossim_lamiaatrium/src/mm64.c:485-494 | This holds for every process in every state of every run. |
| MemTheorems.EvictsOldest | ossim_lamiaatrium/src/libmem.c:233-264 | Exactly when a victim is needed and there is one, the page mapped earliest among those left is taken, and its frame passes to the wanted page if swap has room. |
| MemTheorems.EvictsFromRam | ossim_lamiaatrium/src/mm64.c:402-418 | In every run all bytes that the copy of an evicted page would read lie inside RAM. |
| SwapFrames.SwapOwnership | ossim_lamiaatrium/src/libmem.c:213-268 | In every run no two evicted pages of any processes have the same swap frame, none of their frames is free, and none is free twice. |
| SwapFrames.EvictionTakesHead | ossim_lamiaatrium/src/libmem.c:235-264 | An eviction puts the first free swap frame into the victim's entry and off the list, leaves all other entries' swap frames alone, and copies the page's 256 bytes there. |
| SwapFrames.OthersLeaveSwap | ossim_lamiaatrium/src/libmem.c:213-268 | Any other access leaves the swap device alone, and if it finds its page absent it gets no frame unless RAM has a free one. |
| SwapFrames.WouldBringBack | ossim_lamiaatrium/src/libmem.c:222-231 | The code for bringing a page back would copy from RAM to swap and put the page's swap frame first in the free list. |
| Frames.TakesOwn | ossim_lamiaatrium/src/mm-memphy.c:144-156 | One process taking frames of its own or from the free list leaves every other process's frames alone. |
| Frames.AccessTakes | ossim_lamiaatrium/src/libmem.c:213-268 | Every outcome of an access takes only its own or free frames, each once. |
| Frames.GrownTakes | ossim_lamiaatrium/src/mm64.c:324-394 | So does growth, with or without enough frames. |
| Worlds.StepInv | ossim_lamiaatrium/src/libmem.c:81-402 | Every operation of every process keeps the region, page and frame invariants of all processes. |
| MemTheorems.LoadsOnly | ossim_lamiaatrium/src/os.c:128-132 | Loading a process touches nothing but its own memory. |
| MemTheorems.FrameOwnership | ossim_lamiaatrium/src/libmem.c:213-268 | In every run, with faults, evictions and failed growths, no two resident pages share a frame, none has a free one, and no frame is free twice. |
| MemTheorems.FramesConserved | ossim_lamiaatrium/src/mm64.c:331-351 | An operation loses frames if and only if it is a growth that finds some free frames, but too few. |
| MemTheorems.BackedExactly | ossim_lamiaatrium/src/mm-vm.c:152-176 | All pages below sbrk stay backed by frames if and only if growths find enough frames. |
| Isolation.WriteIso | ossim_lamiaatrium/src/libmem.c:303-321 | A byte stored through one process's page is the only byte of the reference memory that changes. |
| Isolation.GrownAgrees | ossim_lamiaatrium/src/mm-memphy.c:180-183 | Pages that growth hands out read as zero. |
| Private.StepIso | ossim_lamiaatrium/src/libmem.c:81-402 | While growths find frames, every operation acts on the reference memory as its name says: only writes change it, each one byte. |
| Private.ReadsLastWrite | ossim_lamiaatrium/src/libmem.c:276-402 | In such runs a read is refused exactly outside the variable as the symbol table has it, and gives the byte last written to that byte of that page of that process, else zero. |
| Private.WritesHitStorage | ossim_lamiaatrium/src/libmem.c:303-402 | In such runs every write inside a variable reaches an address inside RAM. |
| Private.WriteInterferesExactly | ossim_lamiaatrium/src/libmem.c:276-402 | A write changes what another read gives if and only if both are inside their variables, of one process, on one page, and agree under the offset mask, and the value is new. |
| Starvation.StarvedReads | ossim_lamiaatrium/src/libmem.c:213-295 | After an allocation that finds too few frames, a read of the variable gives the byte of the oldest page at the same place in the page, if there is one and swap has room, and else sets no value. |
| Starvation.ReadsAsNewExactly | ossim_lamiaatrium/src/mm-vm.c:152-176 | Such a variable still reads as the new memory it stands for if and only if there is an oldest page, swap has room, and that byte is zero. |
| Exhaustion.EvictedAliases | ossim_lamiaatrium/src/mm64.c:111-134 | An access to a page evicted to swap frame s goes, without a fault, to RAM frame 32 (s mod 256). |
| Exhaustion.IsolationNeedsFrames | ossim_lamiaatrium/src/mm-vm.c:168-176 | With two frames and one growth too many, a process that never writes reads another's byte: a run in which the condition on growths fails. |
| Systems.OpLegal | ossim_lamiaatrium/src/sys_mem.c:33-39 | Instructions run only for loaded processes, and each process gets its memory once. |
| Systems.MemoryRun | ossim_lamiaatrium/src/os.c:97-140 | In any interleaving the memory is the result of a legal sequence of operations whose instructions are the log; if no operation of the threads starves, none of the sequence does. |
| Systems.FramesInSystem | ossim_lamiaatrium/src/os.c:47-150 | Frame ownership for the threads together with the memory. |
| Systems.RegionsInSystem | ossim_lamiaatrium/src/os.c:47-150 | The regions of every process are disjoint, below sbrk and add up, for the threads together with the memory. |
| Systems.ReadsLastWriteInSystem | ossim_lamiaatrium/src/os.c:97-140 | In any interleaving in which growths find frames, a read gives the byte last written by an instruction of the log to that byte of that page of that process, else zero. |
| Systems.WritesHitStorageInSystem | ossim_lamiaatrium/src/os.c:97-140 | In those interleavings every write inside a variable reaches an address inside RAM. |

## Left out

- Kernels.CpuStep: the threads of os.c and timer.c are steps on values, not classes, because a run interleaves them; that
  the locks make each modelled step atomic is taken from the source, not proved.
- get_vma_by_num, validate_overlap_vm_area and `vm_end`: every process has one area from 0 to sbrk, for which the walk
  finds it and the overlap check passes.
- The first four levels of the page directory: only flags are set in them, and nothing reads them.
- Memphys.Memphy.SwapCpPage: a byte read past the end of a device leaves an uninitialised C variable as it was, which is
  then stored; the model stores nothing. No eviction of any run gets there (MemTheorems.EvictsFromRam).
- LibMem.MmStruct.Free: variable 30 is excluded, because its entry lies past the end of the symbol table and what the C
  code does with it is undefined.
- LibMem.MmStruct.Read: variable 30 is excluded for the same reason.
- LibMem.MmStruct.Write: variable 30 is excluded for the same reason.
- The contents of the swap device: pages never come back from it.
- The bound on heaps and the range of variables are conditions on runs; what the code does past them is not modelled.
- The SYSCALL instruction and the system calls only it reaches (`vmap_pgd_memset`); the message parsing of `__sys_memmap`
  beyond the lookup of the process.
- Loader parsing, the configuration file, printing, dumping, and allocation failure of the host.
- The 32-bit paging mode, the single-queue scheduler, sequential devices, and functions that are never called.
- Weak memory effects on `done`, `_time` and the devices' flags.
