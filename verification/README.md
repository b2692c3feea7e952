# BEAU hypervisor: a verified model of its core

BEAU is a bare-metal hypervisor written in C. This project models the parts of it that carry state from one call to the
next and on which everything else rests, and proves what they promise.

| part | source | files |
|---|---|---|
| page tables: page pool, four-level walker over 64-bit descriptors, large pages | `core/mmu.c`, `include/common/pgtable.h` | `PagePool`, `PageTableModel`, `PageTableSpec`, `PageTableHooks`, `PageTableEngine`, `PageTableRuns` |
| arm64 descriptors, the walker's hooks, the host map | `arch/arm64/mmu.c`, `arch/arm64/guest/vm.c`, `arch/arm64/pgtable.c` | `MachineWords`, `Arm64Descriptors`, `Arm64Encoding`, `Arm64Hooks`, `Arm64HostMap` |
| scheduler frame: thread states, CPU time, the skip test | `core/schedule.c` | `Threads`, `Lists`, `Options` |
| real-time deferrable server scheduler (RTDS) | `core/sched_rtds.c` | `Periods`, `RtdsModel`, `RtdsInvariant`, `RtdsWalk`, `RtdsSteps`, `RtdsRuns`, `RtdsGuarantee`, `RtdsTimely`, `RtdsScheduler` |
| borrowed virtual time scheduler (BVT) | `core/sched_bvt.c` | `Division`, `BvtModel`, `BvtInvariant`, `BvtRuns`, `BvtFairness`, `BvtScheduler` |
| events between threads and signallers | `core/event.c` | `EventProtocol`, `RtdsEvents`, `BvtEvents` |
| per-CPU timers | `core/timer.c`, `arch/arm64/timer.c` | `TimerModel`, `TimerQueue` |
| x86 boot memory map | `arch/x86/e820.c`, `core/efi_mmap.c` | `E820Model`, `E820Table` |
| RISC-V inter-processor interrupts | `arch/riscv/sbi.c` | `SbiIpi` |

`dafny verify dfyconfig.toml` checks the whole project.

## How the model is laid out

State that the source updates in place is a class with the same fields (`PageTables`, two `Scheduler`s, `CpuTimers`,
`MemoryMap`); lists are `seq` fields, the e820 table and the firmware descriptors are arrays. Each of its methods is
proved equal to a function on values, and the laws are lemmas about those functions, over single steps and over
whole runs. Lock-protected sections are single steps. Clock readings are parameters, one for each place where the
source reads the clock, so that two readings inside one call may differ.

Main results:

- **Page tables refine a flat map.** The walker works on pages of 64-bit descriptors. Any run of maps, unmaps and
  attribute changes over any number of roots leaves a walk over the descriptors translating each page of every root
  exactly as a flat per-page table would (`PageTableRuns.Run`), large pages, splits and freed tables notwithstanding.
  A run stops only when the pool is exhausted, and then up to a page that is known; only the ragged ends of aligned
  ranges need tables. The pages of the pool that are allocated are exactly those a walk from some root reaches
  (`AllocatedIffReached`), and no table is shared (`OneParent`, `OneRoot`).
- **The arm64 hooks obey what the walker relies on**, bit for bit (`HooksLawful`), with the exact condition under which
  an attribute change outlives a later split (`ModifyKeepsNormal`). From a fresh pool of 64 pages `init_hv_mapping`
  leaves descriptors that translate exactly as the identity map its documentation draws (`InitHvMapping`), and the maps
  of both platforms fit that pool (`QemuFits`, `Rk356xFits`).
- **RTDS** gives a thread that competes through a whole period its whole budget in it, if the budgets and the ticks lost
  to late calls of schedule() fit in the period (`FullBudget`); calls at the expiry of the timer lose none
  (`TimerDriven`), and late ones no more than they are late (`LateCall`). It picks the earliest deadline among the
  funded, falls back to slack, never charges a thread more than its budget in any period of any run, keeps each thread
  in the queue its budget asks for, arms the timer for the next event, and books every tick of CPU time to exactly one
  thread (`StepSound`, `RunSound`, `RunBudget`, `ScheduleSupply`).
- **BVT** charges without losing a fraction of a unit (`ChargeLedger`), and over every run of a fixed set of threads gives
  weighted service within an explicit constant of proportional (`ProportionalShare`).
- **No wakeup is lost** in any interleaving of a waiter, its signallers, resets, threads that put the waiter to sleep, and
  the scheduler, RTDS or BVT (`RtdsEvents.NoRunLosesWakeup`, `BvtEvents.NoRunLosesWakeup`).
- **Timers** stay sorted, keep their phase when interrupts are missed, and an expired timer always has an interrupt armed
  or pending (`NeverLate`).
- **The memory map** means, byte for byte, what firmware said minus what was taken; whatever is allocated after boot lies
  in memory that firmware called usable, outside the image and every module (`Boot`). **An IPI mask** reaches each hart
  once (`SendDestIpiMask`).

## Where the code and its documentation differ

The model follows the code.

- RTDS (`core/sched_rtds.c`): `last_start` is described as non-zero only for the current thread, but a preempted thread
  keeps it. The model does too; it is harmless, since `last_start` is rewritten when the thread is picked again.
- RTDS: a priority request replenishes the current thread before its running time is charged. Right after a period
  boundary the time of the old period is then taken from the new budget. `ScheduleSupply` gives the exact condition,
  `EarlyRefillCost` the loss, `EarlyRefillFollows` shows that it can follow every dispatch, and `EarlyRefillHappens` is
  an instance.
- RTDS: `sched_clear_reschedule_if_current_only` is described as doing what schedule() would. schedule() also re-arms the
  one-shot timer, which a tick leaves off. `SkipTimer` says exactly when the skip leaves the timer right, and that only
  the current thread's own limit can be missed.
- RTDS: `sched_rtds_prioritize` skips the current thread even when it is queued, so the ready queue may be out of order
  in that one place until the pick puts the current thread back (`LoopInv`).
- RTDS: the tick handler reads the clock before it takes the lock; `TimerHandler` accepts a stale reading.
- BVT (`core/sched_bvt.c`): the scheduler virtual time is described as the least AVT in the queue. It is the AVT of the
  first thread by EVT, which a warp can put in front of a thread with a smaller AVT. `SvtIsLeast` holds when the first
  thread is not warped, `SvtNotLeast` refutes it for every warp value, and `SvtBound` bounds the error by the warp.
- BVT: the pick reads the clock for the next interval before the current thread is charged with a later reading, so
  consecutive intervals may overlap by that distance. Service is counted as charged.
- arm64 (`arch/arm64/mmu.c`): "a missing memory type defaults to normal" cannot happen at stage 1, because the access
  flag is part of the mask it compares (`Stage1DefaultUnused`).
- arm64: RAM is described as initially not executable. It is mapped without PXN and UXN, so the final change that
  clears them for the image alters nothing in RAM (`ImageChangeIsVacuousForRam`).
- arm64: an attribute change that clears the access flag, or at stage 2 the whole memory attribute, is undone in part by
  a later split of the same large page, because splitting writes completed attributes (`SplitRoundTrip`,
  `ModifyKeepsNormal`).

## Model

| member | source | states |
|---|---|---|
| `PagePool.FirstZero` | core/mmu.c:70-71 | the bit returned is clear and every lower bit of the word is set |
| `PagePool.WrapMeetsAll` | core/mmu.c:67-69 | starting at any hint, the wrapped scan of the bitmap words meets every word |
| `PagePool.WriteBit` | core/mmu.c:72-73 | writing one bit changes the mark of exactly the page `word * 64 + bit` |
| `PageTableEngine.PageTables.constructor` | core/mmu.c:50-59 | a fresh pool has no page allocated and satisfies the invariant |
| `PageTableEngine.PageTables.FindFreePage` | core/mmu.c:61-78 | finds a page exactly when some page is free; the page was free, becomes marked, and no other mark changes |
| `PageTableEngine.PageTables.FreePage` | core/mmu.c:99-108 | clears the mark of exactly the given page |
| `PageTableEngine.PageTables.AllocPage` | core/mmu.c:61-94 | fails exactly when every page is taken; otherwise returns a page that belongs to no table and marks it and no other |
| `PageTableEngine.PageTables.TakePage` | core/mmu.c:61-94 | fails exactly when the pool is exhausted; otherwise the page is free, and the marks are right once it is a table |
| `PageTableEngine.PageTables.ReadEntry` | include/common/pgtable.h:96-104 | what the descriptor of an allocated page decodes to is the entry that the model has there |
| `PageTableEngine.PageTables.CreateRoot` | core/mmu.c:697-701 | fails exactly when the pool is exhausted, and then changes nothing; otherwise the new root translates nothing, all other roots translate as before, and one more page is allocated |
| `PageTableEngine.PageTables.AddMap` | core/mmu.c:651-677 | every page of the rounded range that was not mapped maps to its frame with the completed attributes, and every other page of every root is unchanged; no table is left empty; it takes no more pages than the blocks that are not mapped by one leaf need, and stops, at a known page up to which all this holds, only when none is left |
| `PageTableEngine.PageTables.AddRange` | core/mmu.c:500-591 | the same for one table at any of the four levels, of the part of the range inside its block; tables above and outside are untouched |
| `PageTableEngine.PageTables.AddSlot` | core/mmu.c:512-536 | the same for one entry: a large page is stored only if the hardware supports it and both addresses and the size fit |
| `PageTableEngine.PageTables.AddLeaf` | core/mmu.c:519-523 | the entry's whole part of the range becomes one leaf |
| `PageTableEngine.PageTables.AddBelow` | core/mmu.c:530-535 | the same through the next level's table, allocated if absent; if it cannot be, nothing changes |
| `PageTableEngine.PageTables.AddInto` | core/mmu.c:535-536 | what is added to the table below an entry is added to the entry |
| `PageTableEngine.PageTables.ChildTable` | core/mmu.c:530-535 | fails exactly when a table is missing and no page is left |
| `PageTableEngine.PageTables.StoreLeaf` | core/mmu.c:518-523 | storing the descriptor of a leaf in an empty slot maps exactly that slot's pages, to the frame and completed attributes |
| `PageTableEngine.PageTables.NewTable` | core/mmu.c:530-533 | fails exactly when no page is left, and then changes nothing; hanging an empty table into an empty slot changes no translation |
| `PageTableEngine.PageTables.SetTable` | core/mmu.c:203-211 | filling a page and writing the descriptor that points at it links the table it decodes to |
| `PageTableEngine.PageTables.SplitLargePage` | core/mmu.c:188-214 | fails exactly when no page is left, and then changes nothing; replacing a large page by a table of smaller ones changes no translation of any root, and allocates one page |
| `PageTableEngine.PageTables.SplitEntries` | core/mmu.c:198-209 | descriptor i of the new table decodes to the i-th part of the large page with its attributes completed, whatever they were |
| `PageTableEngine.PageTables.TryToFree` | core/mmu.c:143-161 | if no entry of the table is present, the table is given up and the entry above is cleared; otherwise nothing changes; no translation changes either way |
| `PageTableEngine.PageTables.IsVacant` | core/mmu.c:149-156 | the scan of the descriptors answers whether no entry is present |
| `PageTableEngine.PageTables.ModifyOrDeleteMap` | core/mmu.c:442-463 | every mapped page of the rounded range is retagged or unmapped, pages that are not mapped stay so, every other page of every root is unchanged; no empty table is left; it takes a page only for a block that the range touches and does not cover, and stops, at a known page up to which all this holds, only when none is left |
| `PageTableEngine.PageTables.EditTable` | core/mmu.c:324-361 | the same for one table at any level, including freeing it afterwards when deleting |
| `PageTableEngine.PageTables.EditInto` | core/mmu.c:291-307 | what is edited in the table below an entry is edited in the entry |
| `PageTableEngine.PageTables.CloseTable` | core/mmu.c:267-268 | freeing the table after the edit changes no translation |
| `PageTableEngine.PageTables.EditRange` | core/mmu.c:277-312 | the same for the loop over the entries of one table |
| `PageTableEngine.PageTables.EditSlot` | core/mmu.c:286-307 | the same for one entry: absent, a leaf that is wholly inside the range, a leaf that must be split, or a table |
| `PageTableEngine.PageTables.EditLeaf` | core/mmu.c:216-228 | changing one leaf retags or unmaps exactly its pages |
| `PageTableEngine.PageTables.OpenEntry` | core/mmu.c:294-297 | before descending, a large page is split, unless no page is left, and a table is left alone; no translation changes |
| `PageTableEngine.PageTables.LookupEntry` | core/mmu.c:738-775 | returns an absent entry exactly when the page is not mapped, otherwise the leaf and level whose whole block maps that way |
| `PageTableEngine.LookupBlock` | core/mmu.c:744-772 | where the walk stops decides the translation: absent entry, none; leaf, every page of its block |
| `PageTableEngine.NewRoot` | core/mmu.c:697-701 | adding a zeroed page as a root keeps the invariant and every other translation |
| `PageTableEngine.FreeEmpty` | core/mmu.c:143-161 | unlinking a table without present entries keeps the invariant and every translation |
| `PageTableEngine.GrowSplit` | core/mmu.c:188-214 | linking a table of the parts of a large page keeps the invariant and every translation |
| `PageTableEngine.GrowEmpty` | core/mmu.c:530-533 | linking an empty table into an empty slot keeps the invariant and every translation |
| `PageTableModel.SlotOfAddress` | include/common/pgtable.h:76-94 | inside a table's block, the index of an address names the one slot that covers it |
| `PageTableModel.OnPath` | include/common/pgtable.h:126-204 | under the invariant, a walk from the root passes through every table whose block holds the address |
| `PageTableModel.OffPath` | include/common/pgtable.h:126-204 | writing one slot changes no walk through any other slot or from another root |
| `PageTableModel.SetEntry` | core/mmu.c:216-228 | writing a leaf or clearing a slot keeps the invariant and changes exactly the slot's pages |
| `PageTableModel.Link` | include/common/mmu.h:125-131 | hanging a fresh table into a slot keeps the invariant and changes exactly the slot's pages |
| `PageTableModel.Unlink` | core/mmu.c:149-159 | clearing a slot whose table has no present entry keeps the invariant; its pages were not mapped |
| `PageTableSpec.SplitKeepsView` | core/mmu.c:188-214 | a slot that held a large page and now holds the table of its parts translates the same |
| `PageTableSpec.EmptyTableKeepsView` | core/mmu.c:530-533 | a slot that was absent and now holds an empty table translates the same |
| `PageTableSpec.NeedSplit` | core/mmu.c:500-591 | the tables that a range may need are those of its two parts at a block boundary, counting touched blocks, or touched blocks that are not covered |
| `PageTableSpec.NeedBelow` | core/mmu.c:516-533 | a table that is created for an entry is among them |
| `PageTableEngine.ReachesOn` | core/mmu.c:516-536 | frame and address stay aligned alike as both advance |
| `PageTableSpec.AddedCompose` | core/mmu.c:661-675 | two maps of adjoining ranges are the map of the whole range |
| `PageTableSpec.EditedCompose` | core/mmu.c:453-462 | two edits of adjoining ranges are the edit of the whole range |
| `PageTableHooks.WalksAgree` | include/common/pgtable.h:126-204 | a walk over pages of descriptors finds what a walk over the tables they hold finds |
| `PageTableHooks.TranslationIsView` | core/mmu.c:738-775 | so does the whole translation of a root |
| `PageTableHooks.HoldsWrite` | core/mmu.c:216-228 | pages that held the model's tables do so after one descriptor and the entry it decodes to are written |
| `PageTableHooks.HoldsPage` | core/mmu.c:697-701 | and after a free page is filled |
| `PageTableHooks.HoldsLink` | core/mmu.c:203-211 | and after a filled page is linked by a table descriptor |
| `PageTableHooks.HoldsLess` | core/mmu.c:156-159 | and after a page is given up |
| `PageTableHooks.BlankReads` | core/mmu.c:119-125 | a sanitized page decodes to an empty table |
| `PageTableHooks.EditWordReads` | core/mmu.c:216-228 | an edited descriptor decodes to the edited entry |
| `PageTableHooks.SplitReads` | core/mmu.c:188-214 | the descriptors that a split writes decode to the parts of the leaf, with attributes completed |
| `PageTableHooks.BlockInFrames` | core/mmu.c:198-209 | no part of an aligned block lies beyond the frames a descriptor can name |
| `PageTableRuns.Perform` | core/mmu.c:442-677 | one operation has its flat effect, up to a known page if the pool is exhausted, keeps the invariant and all roots, and keeps every level-3 entry that was present: deletion frees no level-2 table |
| `PageTableRuns.Execute` | core/mmu.c:442-677 | after any sequence of operations on any roots, every root of the model translates every page as the flat table does; it stops early only with the pool exhausted, which it is not if the operations' needs fit, and then the flat table has the operations done and the last one up to a known page |
| `PageTableRuns.Run` | core/mmu.c:442-677 | the same of a walk over the descriptors |
| `PageTableRuns.RefinesStep` | core/mmu.c:442-677 | flat effects of single operations add up to the flat effect of the sequence |
| `PageTableRuns.RefinesPart` | core/mmu.c:442-677 | and so does that of an operation carried out in part |
| `PageTableRuns.AllocatedIffReached` | core/mmu.c:143-161 | a page of the pool is allocated if and only if a walk from some root visits it |
| `PageTableRuns.OneParent` | core/mmu.c:188-214 | no table hangs in two slots, and no root hangs in any |
| `PageTableRuns.OneRoot` | core/mmu.c:697-701 | no table is reached from two roots |
| `MachineWords.ValueOfBits` | include/common/pgtable.h:216-224 | a page number below 2^36 is the value of its bits, which fit the address field |
| `Arm64Encoding.AddressRoundTrip` | arch/arm64/pgtable.c:14-17 | a page number below 2^36 comes back from the address field |
| `Arm64Encoding.LeafRoundTrip` | arch/arm64/mmu.c:147-170 | a leaf descriptor written at any level reads back as its frame and completed attributes |
| `Arm64Encoding.TableRoundTrip` | arch/arm64/mmu.c:152-157 | a table descriptor reads back as its table at levels 1 to 3 |
| `Arm64Encoding.Stage1DefaultUnused` | arch/arm64/mmu.c:163-166 | the stage-1 default memory type is never applied |
| `Arm64Encoding.NormalTwice` | arch/arm64/guest/vm.c:94-109 | completing attributes twice is completing them once |
| `Arm64Encoding.ModifyRoundTrip` | core/mmu.c:216-228 | clearing and setting attribute bits in a descriptor keeps its frame and type and retags what it reads as |
| `Arm64Encoding.SplitRoundTrip` | core/mmu.c:196-209 | a part of a split large page reads back with completed attributes, hence unchanged if and only if they were complete |
| `Arm64Encoding.RetagNormal` | core/mmu.c:216-228 | a change that keeps the access flag and some stage-2 memory attribute keeps attributes complete |
| `Arm64Encoding.LosesFlag` | core/mmu.c:216-228 | a change that drops the access flag leaves complete attributes incomplete, for every such change |
| `Arm64Encoding.LosesMemoryType` | arch/arm64/guest/vm.c:102-105 | a stage-2 change that can clear the memory attribute does so for some complete attributes |
| `Arm64Hooks.Leaves` | arch/arm64/mmu.c:147-170 | for every level, frame and attributes, a leaf written by the hook decodes to that frame with the completed attributes |
| `Arm64Hooks.Tables` | arch/arm64/mmu.c:152-157 | a table descriptor decodes to its pool page |
| `Arm64Hooks.Modifies` | core/mmu.c:216-228 | changing attribute bits of any leaf descriptor changes its attributes and nothing else |
| `Arm64Hooks.Splits` | core/mmu.c:199-207 | what a split passes on of any descriptor may be requested and asks for the attributes it had |
| `Arm64Hooks.HooksLawful` | arch/arm64/guest/vm.c:66-109 | the hooks of both stages obey everything the walker relies on: present, large and address decoding, completion, modification and splitting |
| `Arm64Hooks.ModifyKeepsNormal` | core/mmu.c:216-228 | an attribute change keeps all complete attributes complete if and only if it survives a split |
| `Arm64HostMap.FlatMapAll` | arch/arm64/mmu.c:243-255 | mapping a list of regions to themselves maps exactly their pages, first come first served |
| `Arm64HostMap.FlatUnmapAll` | arch/arm64/mmu.c:257-261 | deleting a list of regions unmaps exactly their pages |
| `Arm64HostMap.HostMapIsIdentity` | arch/arm64/mmu.c:243-266 | the sequence maps each device page as device memory, each RAM page as normal memory, reserved pages not at all, all to themselves, and clears XN in the image |
| `Arm64HostMap.HostRunnable` | arch/arm64/mmu.c:243-266 | the sequence can be carried out on any regions that fit the address space, if reserved memory and the image lie under level-3 entries that devices or RAM use |
| `Arm64HostMap.HostOpsNeed` | arch/arm64/mmu.c:243-266 | the tables it may need are those of the regions: level-3 entries, and 1G and 2M blocks at the ends of regions |
| `Arm64HostMap.BuildHostMap` | arch/arm64/mmu.c:243-266 | performed on an empty root by the real walker, the sequence leaves descriptors that translate every page as that map, or exhausts a pool smaller than its need |
| `Arm64HostMap.InitHvMapping` | arch/arm64/mmu.c:180-277 | from a fresh pool of 64 pages, root included: descriptors that translate every page as that map, if the need is at most 64 |
| `Arm64HostMap.LowRegions` | arch/arm64/mmu.c:243-266 | regions below 512G can be mapped as soon as there is RAM |
| `Arm64HostMap.QemuFits` | arch/arm64/platform/qemu/platform_qemu.h:57-77 | QEMU's regions, with as many reserved regions as the source keeps, each within a gigabyte, can be mapped and need at most 64 pages |
| `Arm64HostMap.Rk356xFits` | arch/arm64/platform/rk356x/platform_rk356x.h:63-67 | so do those of the RK356x |
| `Arm64HostMap.ImageChangeIsVacuousForRam` | arch/arm64/mmu.c:252-266 | the final change alters a page if and only if it is an unreserved device page of the image; no RAM page is altered |
| `Threads.SwitchConserves` | core/schedule.c:523-545 | a switch keeps total booked time equal to the time up to the switch |
| `Threads.TimeIsConserved` | core/schedule.c:74-81 | at any moment booked time plus the running interval is the time since the scheduler began |
| `Threads.CurrentIsOnlyRunnable` | core/schedule.c:427-453 | the scan answers whether the current thread is the only one that competes |
| `Periods.JumpIsStepping` | core/sched_rtds.c:132-148 | the closed form of the next period boundary is what adding periods one at a time reaches |
| `Periods.BoundaryIsNext` | core/sched_rtds.c:132-148 | the boundary is the one multiple of the period in the period after `now` |
| `Periods.JumpLands` | core/sched_rtds.c:252-271 | a passed deadline moves to the boundary of the current period |
| `RtdsScheduler.FindPlace` | core/sched_rtds.c:195-205 | the loop finds the first place before a later deadline |
| `RtdsScheduler.NextDepletedDeadline` | core/sched_rtds.c:295-311 | computes the least deadline in the depleted queue, 0 if empty |
| `RtdsScheduler.EarliestDeadline` | core/sched_rtds.c:313-340 | finds the first thread of least deadline in the depleted queue |
| `RtdsScheduler.Scheduler.constructor` | core/sched_rtds.c:462-474 | a scheduler with only the idle thread satisfies the invariant |
| `RtdsScheduler.Scheduler.RemoveFromQueue` | core/sched_rtds.c:172-180 | takes the thread out of whichever queue holds it |
| `RtdsScheduler.Scheduler.InsertReady` | core/sched_rtds.c:182-207 | moves the thread to its place by deadline in the ready queue |
| `RtdsScheduler.Scheduler.InsertDepleted` | core/sched_rtds.c:209-225 | moves the thread to the end of the depleted queue |
| `RtdsScheduler.Scheduler.AccountRuntime` | core/sched_rtds.c:227-250 | charges a running thread for the time since its last charge, up to its remaining budget |
| `RtdsScheduler.Scheduler.AdvancePeriod` | core/sched_rtds.c:252-271 | replenishes exactly when the deadline has passed, and says so |
| `RtdsScheduler.Scheduler.Refresh` | core/sched_rtds.c:273-293 | replenishes and requeues by remaining budget |
| `RtdsScheduler.Scheduler.RefreshAll` | core/sched_rtds.c:412-437 | replenishes both queues |
| `RtdsScheduler.Scheduler.RefreshReadyQueue` | core/sched_rtds.c:424-431 | the safe list walk, which re-inserts behind itself, refreshes every expired thread of the queue once, in order |
| `RtdsScheduler.Scheduler.RefreshDepletedQueue` | core/sched_rtds.c:433-436 | the safe list walk refreshes every thread that was depleted once |
| `RtdsScheduler.Scheduler.ProgramLocalTimer` | core/sched_rtds.c:342-395 | arms the timer as the timer law below demands |
| `RtdsScheduler.Scheduler.SelectNext` | core/sched_rtds.c:522-530 | picks the head of the ready queue, else the earliest depleted thread, else idle |
| `RtdsScheduler.Scheduler.TakeNext` | core/sched_rtds.c:522-535 | dequeues the pick, notes its start and arms the timer |
| `RtdsScheduler.Scheduler.RefreshForSelection` | core/sched_rtds.c:508-520 | charges and requeues the current thread and refreshes both queues |
| `RtdsScheduler.Scheduler.ConsumeRequests` | core/schedule.c:501-516 | consumes every pending priority request, in thread order |
| `RtdsScheduler.Scheduler.HonourRequest` | core/sched_rtds.c:572-586 | replenishes the thread if due and moves it to its place unless it is current |
| `RtdsScheduler.Scheduler.Schedule` | core/schedule.c:487-551 | is the model's schedule() and leaves a scheduled state: invariant, earliest-deadline choice, fresh deadlines, timer armed, flag cleared |
| `RtdsScheduler.Scheduler.Dispatch` | core/schedule.c:517-545 | switches to the pick, booking time, and clears the reschedule flag |
| `RtdsScheduler.Scheduler.SleepThread` | core/schedule.c:553-571 | is the model's sleep_thread and keeps the invariant and the books |
| `RtdsScheduler.Scheduler.StopServer` | core/sched_rtds.c:540-548 | charges a running thread, dequeues it and reprograms the local timer |
| `RtdsScheduler.Scheduler.WakeThread` | core/schedule.c:581-601 | is the model's wake_thread and keeps the invariant and the books |
| `RtdsScheduler.Scheduler.StartServer` | core/sched_rtds.c:550-570 | replenishes, queues by budget and reprograms the local timer |
| `RtdsScheduler.Scheduler.RequestPriority` | core/schedule.c:603-616 | notes the request, keeps the invariant |
| `RtdsScheduler.Scheduler.TimerHandler` | core/sched_rtds.c:439-460 | brings all budgets up to the reading, asks for a reschedule, and keeps the invariant even for a stale reading |
| `RtdsScheduler.Scheduler.CreateThread` | core/sched_rtds.c:483-501 | a new thread starts blocked with a full budget; the invariant is kept |
| `RtdsScheduler.Scheduler.ClearRescheduleIfCurrentOnly` | core/schedule.c:455-485 | clears the flag exactly when only the current thread competes, and then schedule() would have switched nothing |
| `RtdsInvariant.ReadyOrder` | core/sched_rtds.c:182-207 | inserting puts a queue that was sorted but for the thread back in deadline order |
| `RtdsInvariant.ReplenishOk` | core/sched_rtds.c:252-271 | replenishing keeps the server sound, never moves a deadline back, and leaves it after `now` |
| `RtdsInvariant.AccountCore` | core/sched_rtds.c:227-250 | charging keeps the invariant and moves no deadline |
| `RtdsInvariant.AccountBook` | core/sched_rtds.c:227-250 | after charging, time charged in the period plus remaining budget is still the budget |
| `RtdsInvariant.RefreshKeeps` | core/sched_rtds.c:273-293 | refreshing a thread keeps the invariant and leaves it in the queue its budget asks for |
| `RtdsInvariant.ReadyAllKeeps` | core/sched_rtds.c:424-431 | refreshing a ready queue keeps the invariant, leaves no deadline behind `now`, moves nobody to another queue |
| `RtdsInvariant.DepletedAllKeeps` | core/sched_rtds.c:433-436 | refreshing a depleted queue keeps the invariant and leaves no deadline behind `now` |
| `RtdsInvariant.RefreshQueuesKeeps` | core/sched_rtds.c:412-437 | after the refresh every queued deadline lies after `now` |
| `RtdsInvariant.RefreshedKeeps` | core/sched_rtds.c:508-520 | the queues the pick looks at are sorted, settled and fresh, even if a request left the current thread out of place |
| `RtdsWalk.WalkStep` | core/sched_rtds.c:424-431 | one step of the ready walk: a refreshed thread lands behind every expired one |
| `RtdsWalk.DepletedStep` | core/sched_rtds.c:433-436 | one step of the depleted walk: a refreshed thread leaves the queue or goes to its end |
| `RtdsSteps.NextDepletedIsLeast` | core/sched_rtds.c:295-311 | the result is a deadline of the queue and no deadline of the queue is smaller |
| `RtdsSteps.TimerArms` | core/sched_rtds.c:342-395 | the timer is set for the earliest of the moments that matter (the running thread out of budget, its deadline, a depleted deadline) and is off only if there is none |
| `RtdsSteps.ChosenIsBest` | core/sched_rtds.c:522-530 | the pick has the earliest deadline among active threads with budget, or if none has any among all active ones, and idle only if none is active |
| `RtdsSteps.ReplenishTwice` | core/sched_rtds.c:252-271 | replenishing at two moments is replenishing at the later one |
| `RtdsSteps.PrioritizeKeeps` | core/sched_rtds.c:572-586 | honouring a request keeps the loop invariant |
| `RtdsSteps.PrioritizeAllKeeps` | core/schedule.c:501-516 | consuming any number of requests keeps it |
| `RtdsSteps.DispatchKeeps` | core/schedule.c:517-545 | after the switch the invariant holds and the running thread is the earliest-deadline choice among those that compete |
| `RtdsSteps.DispatchTimer` | core/sched_rtds.c:532-535 | after the switch the timer covers the next event |
| `RtdsSteps.DispatchFresh` | core/sched_rtds.c:503-538 | after the switch every competing deadline lies after the reading |
| `RtdsSteps.ScheduleKeeps` | core/schedule.c:487-551 | schedule() from any invariant state yields a scheduled state |
| `RtdsRuns.SleepKeeps` | core/schedule.c:553-571 | sleeping keeps the invariant |
| `RtdsRuns.SleepSupply` | core/sched_rtds.c:540-548 | the running thread is charged up to now, any other keeps its budget, no deadline moves; the running thread is marked, any other is blocked |
| `RtdsRuns.WakeKeeps` | core/schedule.c:581-601 | waking keeps the invariant |
| `RtdsRuns.WakeSupply` | core/sched_rtds.c:550-570 | the deadline is the current period's; the budget is full exactly when the old deadline had passed, otherwise what it was; the queue fits the budget |
| `RtdsRuns.RequestKeeps` | core/schedule.c:603-616 | a request keeps the invariant |
| `RtdsRuns.TimerKeeps` | core/sched_rtds.c:439-460 | a tick keeps the invariant and leaves no deadline behind its reading |
| `RtdsRuns.CreateKeeps` | core/sched_rtds.c:483-501 | a new thread keeps the invariant |
| `RtdsRuns.ScheduleConsumes` | core/schedule.c:501-516 | schedule() leaves no priority request pending: each is honoured at most once |
| `RtdsRuns.SkipRefinesSchedule` | core/schedule.c:427-485 | when only the current thread competes, schedule() changes no thread's state, switches nothing and clears the flag |
| `RtdsRuns.SkipTimer` | core/schedule.c:455-485 | then nobody else is queued, and the timer that the skip leaves alone is right if and only if it is set for the current thread's own limit |
| `RtdsRuns.OrderMatters` | core/sched_rtds.c:572-586 | replenishing before charging differs from charging first if and only if a boundary lies between the deadline and the request, none after it, and there is time to charge |
| `RtdsRuns.PrioritizeDue` | core/schedule.c:501-516 | requests leave a competing thread due what it was due, if and only if they do not refill it early |
| `RtdsRuns.ScheduleSupply` | core/schedule.c:487-551 | schedule() gives a competing thread the budget and deadline that charging and then replenishing it alone would, if and only if it is not refilled early |
| `RtdsRuns.EarlyRefillCost` | core/sched_rtds.c:572-586 | after an early refill the thread has its budget less the running time since the last charge, though all of it was due |
| `RtdsRuns.EarlyRefillFollows` | core/sched_rtds.c:572-586 | after every dispatch, a priority request and a schedule() at the deadline make an early refill |
| `RtdsRuns.EarlyRefillHappens` | core/sched_rtds.c:572-586 | there is a state in which four ticks of the old period leave one tick of a new budget of five |
| `RtdsRuns.ScheduleBooked` | core/schedule.c:523-545 | schedule() books the time up to its switch |
| `RtdsRuns.StepSound` | core/schedule.c:487-616 | every operation, in any order, keeps invariant and books; schedule() yields a scheduled state |
| `RtdsRuns.RunSound` | core/schedule.c:487-616 | so does every run, at every point of it |
| `RtdsRuns.RunBudget` | core/sched_rtds.c:227-271 | in every run no thread is charged more than its budget in any period, and the threads' CPU times add up to the time elapsed |
| `RtdsGuarantee.FullBudget` | core/sched_rtds.c:227-271 | in every run from a schedule() in a period to a charge at its end or later, with any operations in between: if the budgets, the ticks before the opening and those that steps leave uncharged while the thread is short add up to at most the period, a thread that competes all along is charged its whole budget in it |
| `RtdsGuarantee.StepWithin` | core/schedule.c:487-616 | within a period every operation, late or not, keeps the account: the thread has been served, or every tick so far was charged to somebody or counted as lost |
| `RtdsGuarantee.PeriodBegins` | core/sched_rtds.c:503-538 | schedule() anywhere in a period opens the account, with the ticks before it lost |
| `RtdsGuarantee.PeriodEnds` | core/sched_rtds.c:412-460 | schedule() or a tick at the end or later closes it, with the thread served |
| `RtdsGuarantee.ScheduleSpends` | core/sched_rtds.c:503-520 | what schedule() charges and loses is the time up to its reading, early refills included |
| `RtdsGuarantee.ScheduleCharges` | core/sched_rtds.c:503-520 | schedule() charges the running thread, as its priority request left it, and nobody else |
| `RtdsGuarantee.TickCharges` | core/sched_rtds.c:439-460 | so does a tick |
| `RtdsGuarantee.SleepCharges` | core/sched_rtds.c:540-548 | sleeping charges only a running thread |
| `RtdsGuarantee.ChargeTakes` | core/sched_rtds.c:227-250 | a charge takes all the time since the last but what exceeds the budget |
| `RtdsGuarantee.AllSpent` | core/sched_rtds.c:227-250 | when as much was charged as all budgets together, each thread was charged its whole budget |
| `RtdsTimely.TimerDriven` | core/sched_rtds.c:342-395 | from any sound state, schedule() called at the beginning of a period and at each expiry of the timer goes through the period and loses nothing; if the budgets fit, with slack or without, a competing thread is charged its whole budget |
| `RtdsTimely.TimerSoon` | core/sched_rtds.c:342-395 | after schedule() the timer goes off later in the period or at its end, and before the running thread overruns its budget if a competing thread has any left |
| `RtdsTimely.LateCall` | core/sched_rtds.c:342-395 | while a thread is short, a schedule() late after the timer loses at most the ticks it is late, and those by which the timer was read too late |
| `RtdsTimely.Drive` | core/sched_rtds.c:342-395 | calls at the expiry of the timer reach the end of the period |
| `BvtScheduler.FindPlace` | core/sched_bvt.c:248-262 | the loop finds the first place before a larger EVT |
| `BvtScheduler.Scheduler.constructor` | core/sched_bvt.c:320-334 | a scheduler with only the idle thread satisfies the invariant |
| `BvtScheduler.Scheduler.AddToRunqueue` | core/sched_bvt.c:234-263 | inserts the thread at its place by EVT |
| `BvtScheduler.Scheduler.UpdateVirtualTime` | core/sched_bvt.c:424-446 | charges the current thread and re-inserts it if it is queued |
| `BvtScheduler.Scheduler.ChargeShare` | core/sched_bvt.c:424-446 | computes the charged share, residue and warp window included |
| `BvtScheduler.Scheduler.AlignSvt` | core/sched_bvt.c:216-226 | SVT is the AVT of the first queued thread, unchanged if there is none |
| `BvtScheduler.Scheduler.Boost` | core/sched_bvt.c:530-534 | starts a warp if allowed and re-inserts the thread |
| `BvtScheduler.Scheduler.ConsumeRequests` | core/schedule.c:501-516 | consumes every pending priority request, in thread order |
| `BvtScheduler.Scheduler.ChargeCurrent` | core/sched_bvt.c:461-465 | charges the current thread and realigns SVT |
| `BvtScheduler.Scheduler.SelectAndSwitch` | core/sched_bvt.c:467-500 | picks the first thread, sets the countdown and switches |
| `BvtScheduler.Scheduler.Schedule` | core/schedule.c:487-551 | is the model's schedule() and leaves a scheduled state |
| `BvtScheduler.Scheduler.SleepThread` | core/schedule.c:553-571 | is the model's sleep_thread and keeps invariant and books |
| `BvtScheduler.Scheduler.WakeThread` | core/schedule.c:581-601 | is the model's wake_thread and keeps invariant and books |
| `BvtScheduler.Scheduler.WakeShare` | core/sched_bvt.c:508-526 | computes the share of a woken thread |
| `BvtScheduler.Scheduler.RequestPriority` | core/schedule.c:603-616 | notes the request, keeps invariant and books |
| `BvtScheduler.Scheduler.TickHandler` | core/sched_bvt.c:292-315 | asks for a reschedule unless the CPU idles with nothing queued, keeps invariant and books |
| `BvtScheduler.Scheduler.CreateThread` | core/sched_bvt.c:342-363 | a new blocked thread keeps invariant and books |
| `BvtScheduler.Scheduler.ClearRescheduleIfCurrentOnly` | core/schedule.c:455-485 | clears the flag exactly when only the current thread competes, and then schedule() would have switched nothing |
| `BvtInvariant.ChargeLedger` | core/sched_bvt.c:424-446 | virtual units gained, times the unit, plus the new residue is the time charged times the ratio plus the old residue: nothing is lost to division |
| `BvtInvariant.ChargeOk` | core/sched_bvt.c:193-211 | charging consumes the warp window by the units gained and ends the warp exactly when it is used up, noting when |
| `BvtInvariant.StartWarpOk` | core/sched_bvt.c:171-191 | a warp moves EVT forward by the warp value and leaves AVT alone |
| `BvtInvariant.WarpIsBounded` | core/sched_bvt.c:155-191 | a warp opens the configured window, an open one is not extended, and none begins before the cooldown has passed |
| `BvtInvariant.PrioritizeAllKeeps` | core/schedule.c:501-516 | consuming requests keeps the invariant and who is queued |
| `BvtInvariant.ChargedKeeps` | core/sched_bvt.c:461-465 | charging keeps the invariant and who is queued, and SVT is the first thread's AVT |
| `BvtInvariant.DispatchKeeps` | core/sched_bvt.c:469-500 | after the switch the running thread has the least EVT of all that compete |
| `BvtInvariant.DispatchTimer` | core/sched_bvt.c:467-495 | the countdown reaches exactly as far as the second thread allows, and no timer is set when there is none |
| `BvtInvariant.ScheduleKeeps` | core/schedule.c:487-551 | schedule() from any invariant state yields a scheduled state |
| `BvtInvariant.SleepKeeps` | core/sched_bvt.c:503-506 | sleeping keeps the invariant |
| `BvtInvariant.WakeKeeps` | core/sched_bvt.c:508-528 | a woken thread is queued with an AVT above SVT less the switch allowance, raised only if it was below |
| `BvtInvariant.CreateKeeps` | core/sched_bvt.c:342-363 | a new thread keeps the invariant |
| `BvtInvariant.SvtBound` | core/sched_bvt.c:216-226 | SVT exceeds no competing AVT by more than the warp of the first thread |
| `BvtInvariant.SvtIsLeast` | core/sched_bvt.c:216-226 | if the first thread is not warped, SVT is the least competing AVT |
| `BvtInvariant.SvtNotLeast` | core/sched_bvt.c:216-226 | for every warp value there is a state in which SVT is not the least AVT |
| `BvtInvariant.SkipRefinesSchedule` | core/schedule.c:427-485 | when only the current thread competes, schedule() switches nothing and clears the flag |
| `BvtInvariant.ScheduleSound` | core/schedule.c:487-551 | schedule() keeps invariant and books |
| `BvtInvariant.SleepSound` | core/schedule.c:553-571 | so does sleep_thread |
| `BvtInvariant.WakeSound` | core/schedule.c:581-601 | so does wake_thread, also of a thread that is awake |
| `BvtInvariant.RequestSound` | core/schedule.c:603-616 | so does a priority request |
| `BvtInvariant.CreateSound` | core/schedule.c:286-310 | so does a new thread |
| `BvtRuns.StepSound` | core/schedule.c:487-616 | every operation, in any order, keeps invariant and books; schedule() yields a scheduled state |
| `BvtRuns.RunSound` | core/schedule.c:487-616 | so does every run, at every point of it; the threads' CPU times add up to the time elapsed |
| `BvtFairness.ChargeBalance` | core/sched_bvt.c:424-446 | charging keeps virtual time minus weighted service constant |
| `BvtFairness.ScheduleBalance` | core/sched_bvt.c:448-501 | so does schedule(), for every thread |
| `BvtFairness.ChargeBound` | core/sched_bvt.c:424-495 | a charge within the countdown plus x units gains at most the gap plus x ratios |
| `BvtFairness.RunnerLag` | core/sched_bvt.c:469-495 | a thread charged in time leads no other by more than its own allowance |
| `BvtFairness.LagStep` | core/sched_bvt.c:448-501 | one timely schedule() keeps every pair of AVTs within the allowance |
| `BvtFairness.RunLag` | core/sched_bvt.c:448-501 | so does every run, at every point of it |
| `BvtFairness.ProportionalShare` | core/sched_bvt.c:424-501 | over every run the weighted service of two queued threads differs by less than a constant fixed by their ratios |
| `EventProtocol.ActionKeeps` | core/event.c:54-99 | every step of waiter, signaller, reset, scheduler, or of a thread that puts the waiter to sleep, in any order, keeps the protocol's invariant |
| `EventProtocol.RunKeeps` | core/event.c:54-99 | so does every run: once the event is set and no signaller is mid-way, a registered waiter is awake unless somebody else put it to sleep |
| `EventProtocol.ReturnConsumes` | core/event.c:78-86 | a wait returns only with the event set or after a reset, and leaves it reset |
| `RtdsEvents.ScheduleCompetes` | core/schedule.c:487-551 | schedule() neither adds nor drops a competitor and leaves nobody about to block |
| `RtdsEvents.StepEffect` | core/schedule.c:487-616 | every operation of the RTDS scheduler has on a waiter an effect that the protocol allows |
| `RtdsEvents.NoRunLosesWakeup` | core/event.c:54-99 | in every interleaving with the RTDS scheduler a signalled waiter that nobody else put to sleep competes for the CPU, and waits return no more often than signals and resets allow |
| `RtdsEvents.SignalKeepsCpuBusy` | core/event.c:89-99 | with a signal outstanding, the next schedule() does not idle |
| `BvtEvents.ScheduleCompetes` | core/schedule.c:487-551 | the same of BVT: schedule() neither adds nor drops a competitor and leaves nobody about to block |
| `BvtEvents.StepEffect` | core/schedule.c:487-616 | every operation of the BVT scheduler has on a waiter an effect that the protocol allows |
| `BvtEvents.NoRunLosesWakeup` | core/event.c:54-99 | in every interleaving with the BVT scheduler a signalled waiter that nobody else put to sleep competes for the CPU, and waits return no more often than signals and resets allow |
| `BvtEvents.SignalKeepsCpuBusy` | core/event.c:89-99 | with a signal outstanding, the next schedule() does not idle |
| `TimerModel.AdvancedIsNext` | core/timer.c:88-103 | the next timeout keeps the phase, lies after now and at most one period after |
| `TimerModel.InsertValid` | core/timer.c:122-142 | insertion keeps the list sorted and without repetition |
| `TimerModel.ServeEnds` | core/timer.c:230-276 | the softirq keeps the list valid, serves at most its limit, and stopping below the limit leaves no expired timer |
| `TimerModel.ServeFate` | core/timer.c:230-276 | each timer is untouched, or stopped and off the list if one-shot, or moved on by a whole number of periods and still listed if periodic; timers not listed are untouched |
| `TimerModel.ServesExpired` | core/timer.c:247-272 | a timer that was touched had expired by the last reading |
| `TimerModel.RequeuedInTime` | core/timer.c:251-265 | a served periodic timer is queued again within one period after the reading |
| `TimerModel.ProgramCovers` | arch/arm64/timer.c:73-85 | programming the head's timeout, past or future, covers the head |
| `TimerModel.LaterHeadCovered` | core/timer.c:211-220 | a comparator that covers a list covers any list with a later head: deletion needs no reprogramming |
| `TimerModel.NeverLate` | core/timer.c:105-117 | with no softirq pending and the comparator not due, no queued timer has expired |
| `TimerQueue.FindPlace` | core/timer.c:129-137 | the loop finds the first timer not before the new one |
| `TimerQueue.AdvancePeriodic` | core/timer.c:88-103 | computes what adding periods one at a time reaches first after now; at most one period after now if the timer had expired |
| `TimerQueue.CpuTimers.constructor` | core/timer.c:222-228 | an empty list is covered |
| `TimerQueue.CpuTimers.LocalAdd` | core/timer.c:122-142 | inserts at the place and tells whether it is the head |
| `TimerQueue.CpuTimers.AddTimer` | core/timer.c:144-176 | refuses exactly a timer without function or timeout; otherwise raises a short period to the minimum, inserts, and keeps the list covered |
| `TimerQueue.CpuTimers.DelTimer` | core/timer.c:211-220 | removes the timer and keeps the list covered |
| `TimerQueue.CpuTimers.UpdateTimer` | core/timer.c:197-209 | replaces timeout and period of an idle timer |
| `TimerQueue.CpuTimers.UpdateArchitectureTimer` | core/timer.c:105-117 | programs the head; leaves the comparator alone when the list is empty |
| `TimerQueue.CpuTimers.TimerInterrupt` | arch/arm64/timer.c:28-32 | turns the comparator off and leaves a softirq pending, so the list stays covered |
| `TimerQueue.CpuTimers.Service` | core/timer.c:248-268 | serves the head and re-reads the clock |
| `TimerQueue.CpuTimers.TimerSoftirq` | core/timer.c:230-276 | the list walk is the model's service loop, and the list is covered again at the end |
| `E820Model.MergeAllMeaning` | arch/x86/e820.c:129-194 | a byte has a kind in the merged table if and only if some descriptor gives it that kind |
| `E820Model.MergeAllInOrder` | arch/x86/e820.c:177-190 | sorted descriptors that do not overlap yield a table in address order without overlap |
| `E820Model.MergeAllCoalesced` | arch/x86/e820.c:177-190 | no two neighbours of the merged table can be merged |
| `E820Model.ReserveAllMeaning` | arch/x86/e820.c:237-266 | reserving removes exactly the RAM bytes of the region, and nothing else |
| `E820Model.ReserveAllDisjoint` | arch/x86/e820.c:237-266 | reserving keeps the table disjoint |
| `E820Model.TakeMeaning` | arch/x86/e820.c:58-87 | taking memory from an entry turns its tail from RAM to reserved, byte for byte |
| `E820Model.TakeClaims` | arch/x86/e820.c:58-87 | the memory taken was RAM before and is not after, and no RAM appears |
| `E820Model.SearchAllocates` | arch/x86/e820.c:43-106 | a successful search returns page-aligned memory below the limit that was RAM and no longer is; the table stays disjoint and no RAM appears |
| `E820Model.SearchFails` | arch/x86/e820.c:43-106 | the search fails if no entry is usable, and only then unless an entry would be given out at 2^52, the address that means failure |
| `E820Model.NoTwoOverlap` | arch/x86/e820.c:43-106 | over any number of allocations no byte is given out twice |
| `E820Model.TrimmedMeaning` | arch/x86/e820.c:295-309 | trimming keeps exactly the bytes whose whole page lies in their entry |
| `E820Model.TrimmedAligned` | arch/x86/e820.c:295-309 | trimmed entries are whole pages and not empty |
| `E820Model.TrimmedDisjoint` | arch/x86/e820.c:295-309 | trimming keeps the table disjoint |
| `E820Model.RoundingBounds` | include/common/pgtable.h:66-74 | rounding moves to the nearest page boundary in its direction |
| `E820Table.SortDescs` | core/efi_mmap.c:16-31 | sorts the first n descriptors by address: ordered, a permutation, the rest untouched, and without overlap if there was none |
| `E820Table.BubblePass` | core/efi_mmap.c:23-29 | one pass carries the largest of the unsorted part to its end |
| `E820Table.PermutationMeaning` | core/efi_mmap.c:16-31 | permuting descriptors changes the kind of no byte |
| `E820Table.MemoryMap.constructor` | arch/x86/e820.c:124-129 | the table starts empty |
| `E820Table.MemoryMap.InitFromEfi` | arch/x86/e820.c:124-196 | the table is the merge of the descriptors read, and all are read unless it fills up |
| `E820Table.MemoryMap.InitFromFirmware` | arch/x86/e820.c:124-196 | every byte has a kind only if some firmware descriptor gives it that kind, and also if, unless the table fills up; neighbours are merged; if descriptors do not overlap, the table is in order and disjoint |
| `E820Table.MemoryMap.StoreMerged` | arch/x86/e820.c:177-190 | extends the last entry or appends a new one |
| `E820Table.MemoryMap.InsertEntry` | arch/x86/e820.c:108-122 | inserts in place, shifting the rest, exactly when there is room |
| `E820Table.MemoryMap.ReserveRegion` | arch/x86/e820.c:237-266 | succeeds if and only if no RAM entry is cut at a boundary and the result fits; then the table is the model's, and disjoint if it was |
| `E820Table.MemoryMap.SplitEntry` | arch/x86/e820.c:251-260 | replaces one entry by what is left of it |
| `E820Table.MemoryMap.AllocMemory` | arch/x86/e820.c:43-106 | is the model's search on any table, with its guarantees on a disjoint one |
| `E820Table.MemoryMap.TryEntry` | arch/x86/e820.c:51-92 | takes from the entry exactly when it is usable |
| `E820Table.MemoryMap.TrimEntries` | arch/x86/e820.c:295-309 | the in-place compaction is the model's trimming |
| `E820Table.MemoryMap.ReserveModules` | arch/x86/e820.c:285-293 | succeeds if and only if, module by module, no RAM entry is cut and the table does not overflow; afterwards the RAM is what it was minus the modules, byte for byte, and disjoint if it was |
| `E820Table.ModulesFit` | arch/x86/e820.c:285-293 | that is so of modules that lie apart, each inside one RAM entry or outside RAM, if there is an entry left for each |
| `E820Table.ReserveCount` | arch/x86/e820.c:237-266 | reserving a region in a disjoint table adds at most one entry |
| `E820Table.MemoryMap.AllocModules` | arch/x86/e820.c:278-310 | succeeds on the same condition; afterwards a byte has a kind if and only if its whole page lies in one entry of what was left without the modules; all entries are whole pages; disjoint if it was |
| `E820Table.MemoryMap.AllocAll` | arch/x86/e820.c:43-106 | on a disjoint table any sequence of allocations returns aligned memory below the limit that was RAM, no two overlapping, and RAM only shrinks; it stops short only in a table where the search fails |
| `E820Table.MemoryMap.Init` | arch/x86/e820.c:313-328 | init_e820 succeeds if and only if image and modules can be reserved in turn in the table made from firmware's descriptors; then what the table holds firmware reported, its RAM lies outside image and modules, and it is disjoint if the descriptors are |
| `E820Table.MemoryMap.Boot` | arch/x86/e820.c:313-328 | after init_e820 from firmware descriptors that do not overlap, whatever is allocated is aligned, below the limit, pairwise disjoint, and lies in write-back conventional or loader memory that firmware reported, outside the image and every module; boot fails and allocations stop only as said above |
| `SbiIpi.FindFirst` | arch/riscv/sbi.c:138-140 | finds the lowest set bit |
| `SbiIpi.RebaseKeeps` | arch/riscv/sbi.c:156-163 | shifting the mask to a lower base names the same harts |
| `SbiIpi.CollectNames` | arch/riscv/sbi.c:142-172 | collecting a hart adds it to the call, or issues the call and begins one with it, and nothing else changes |
| `SbiIpi.CollectProgress` | arch/riscv/sbi.c:138-174 | the calls issued and the one being built name exactly the harts seen so far |
| `SbiIpi.CollectOnce` | arch/riscv/sbi.c:138-174 | no hart is named twice if CPUs have distinct harts |
| `SbiIpi.CollectHart` | arch/riscv/sbi.c:142-172 | the branches of the source are the model's step |
| `SbiIpi.SendDestIpiMask` | arch/riscv/sbi.c:131-183 | the calls name exactly the harts of the CPUs in the mask, each once if CPUs have distinct harts, with non-empty 64-bit masks in the form of section 3.1 of the RISC-V SBI specification |

## Left out

- PageTableEngine.PageTables.AddMap: requires attribute bits only in `prot`, and frames that a descriptor can name: make_pgentry would put higher address bits into the attributes. With the pool exhausted it stops, as the source panics on arm64 and RISC-V; the shared dummy page with which the EPT tables of x86 go on is not modelled.
- PageTableEngine.PageTables.ModifyOrDeleteMap: requires the level-3 entries of the range to be present, as the source does (it asserts, or follows an absent entry), and an attribute change that survives a split; `ModifyKeepsNormal` gives the exact condition, and without it a later split alters attributes (`SplitRoundTrip`).
- PageTableEngine.PageTables.EditTable: requires what `ModifyOrDeleteMap` requires, for the part of the range in its block.
- PageTableEngine.PageTables.EditRange: likewise.
- PageTableEngine.PageTables.EditSlot: likewise.
- PageTableEngine.PageTables.EditLeaf: likewise.
- PageTableRuns.Run: requires each operation to be one that `AddMap` or `ModifyOrDeleteMap` accepts; that a run's needs fit the pool is sufficient for it to complete, not necessary, since freed tables are not credited.
- Arm64HostMap.QemuFits: reserved regions that straddle a gigabyte may need one table more each than is counted here.
- Arm64HostMap.Rk356xFits: likewise.
- RtdsModel: all threads share one period, as `sched_rtds_init_data` gives them; time between sleep_thread of the current thread and the schedule() that follows is not charged, as in the source.
- BvtFairness.ProportionalShare: for a fixed set of queued threads without priority requests, each charged within its countdown plus x units; waking adds the bounded credit stated by `WakeKeeps`.
- BvtModel: virtual times are unbounded integers; the 64-bit wrap of AVT and EVT is not modelled (tick arithmetic is bounded where the source compares it).
- E820Model.SearchFails: with an entry that would be given out at 2^52, which lies beyond x86 physical memory, says only that the search may fail.
- E820Model: 64-bit wrap of base plus length is not modelled; `init_e820_from_mmap` and the RAM size only copy and add.
- E820Table.SortDescs: requires at least one descriptor; with none the unsigned loop bound of the source wraps.
- E820Table.MemoryMap.Boot: requires at least one descriptor, as `SortDescs` does, and says nothing of grants when descriptors overlap.
- E820Table.MemoryMap.Init: requires at least one descriptor, as `SortDescs` does.
- E820Table.MemoryMap.InitFromFirmware: requires at least one descriptor; when the table fills up, says only that what it holds firmware reported, and what `InitFromEfi` says of the descriptors read.
- EventProtocol: one waiter per event, as the source asserts.
- RtdsGuarantee.FullBudget: every step of the run but the last is over before the period is; a charge counts for the period whose deadline the thread has, so an early refill at the opening charges time from before it (`EarlyRefillCost`).
- TimerQueue: callbacks do not touch the list, as the source's documentation asks; timers on other CPUs have their own list.
- Scheduler statistics (wait latency, switch and tick counters), scheduler selection, affinity, and the no-op, priority and IORR schedulers: would add easy members only.
- Threads of other CPUs in the global thread list: every scan skips them.
- TLB and cache maintenance, spinlocks and memory ordering: a lock-protected section is one step.
- x86 and RISC-V page-table hooks and the non-zero sanitized entry of x86: the walker is proved for any lawful hooks, arm64 is the instance shown.
- Stage-2 construction of a virtual machine (`arch/arm64/guest/vm.c`): further sequences of the page-table operations above.
- Guest CPU state, virtual interrupt controllers, device emulation, device-tree parsing and the shell are not part of this model.
