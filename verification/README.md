# Verified models of the kernel's memory, processes, heap and disk

This project models the four stateful cores of an AArch64 kernel for the
Raspberry Pi 3 and proves what they promise:

- **Copy-on-write virtual memory** (`src/memory/mmu.c`). `Paging*.dfy` is the
  machine of page tables, bind counters and the stack of free frames; fork
  shares pages read-only and the write fault privatises them. Sharing is proved
  indistinguishable from copying the whole address space at each fork.
  `Mmu*.dfy` is the same code as a class that changes tables in place.
  `PageDescriptors.dfy`, `PageWalk.dfy` and `PageBinding.dfy` are the level
  below: 64-bit descriptors, the two-level walk, and `bind_address` on words of
  memory; `PageRefinement.dfy` proves that these words do what the class's rows
  do.
- **Processes, IPC and the scheduler** (`src/proc/proc.c`,
  `src/interrupt/timer.c`). `Proc*.dfy` is the table as a transition system of
  traps, system calls and dispatches, with what each call does case by case
  (`ProcOutcomes.dfy`), the lottery of the scheduler (`ProcSchedule.dfy`), what
  every run keeps and where every message and reply comes from; `Ring.dfy`, `KernelRings.dfy` and
  `KernelTable.dfy` are the intrusive rings and the class whose methods change
  them. `Sampling.dfy` is `random_law`.
- **The heap** (`src/memory/alloc.c`). `Heap*.dfy` is the block list, the bytes
  its headers lie in and what every run keeps; `KernelHeap.dfy` is the
  allocator over byte memory.
- **The block filesystem** (`src/libk/filesystem.c`). `DiskModel.dfy`,
  `FreeChain.dfy` and `FileModel.dfy` are blocks, the free chain and files;
  `Volume.dfy` is the mounted image.

In each of them the code that updates state step by step is a class (or a
method with a loop) proved equal to a function on values, and the laws over
whole runs are proved of those functions. `dafny verify dfyconfig.toml` checks
everything.

## Where the code does not keep a promise

- A bind counter is documented as the number of mappings of its frame
  (`src/memory/mmu.h:151-153`). `handle_shared_page_write` binds the frame it
  hands out twice and unbinds it never, so in runs whose exits release their
  tables a counter is the number of mappings, and one more exactly for the
  frames that write faults have handed out
  (`PagingCounters.DisciplinedRunsExact`). Such a frame is never given back: a
  released frame returns to the stack if and only if its last mapping went and
  it is none of these (`PagingCounters.ReleaseReturnsIff`), and once leaked it
  stays so (`PagingCounters.LeakedForever`). `PagingWitness.WriteFaultLeaks` is
  a run from boot.
- Counters are bytes and `syscall_exit` never calls `process_exit`: 255
  abandoned forks wrap a counter (`PagingCounters.AbandonedForksWrap`). A fork
  is safe exactly when no shared counter is at 255 (`PagingFork.ForkKeepsIff`).
  On a run from boot that wraps, one process's write shows up in another's
  memory (`PagingWitness.WrapBreaksRefinement`). In any state, wrapped or not,
  in which the next free frame is unmapped, a write that changes a byte of a
  forked page stays private exactly when the counter is above 1 or no other
  live mapping shares the frame (`PagingWrites.WriteIsPrivateIff`).
- The stack of free frames holds one peripheral, `GPIO_BASE + 0x1000`, because
  two adjacent peripherals are skipped as one
  (`PagingBoot.OnePeripheralIsNotSkipped`).
- The cache configuration is cut to one bit when an entry is encoded, against
  the three-bit field of the format
  (`PageDescriptors.CacheConfigurationSurvives`).
- `bind_address` documents error 3 for a level-2 table that is not aligned to
  21 bits and tests 17; the code agrees with its documentation exactly when an
  earlier error applies, or the low 17 bits are not all clear, or all 21 are
  (`PageBinding.CodeAsDocumentedIff`, `PageBinding.MisalignedTableIsAccepted`).
  The bind itself is right for every table the code accepts.
- The last level-2 entry has no table behind it and nothing stops a bind from
  going through it. While it is zero, `bind_address` leaves the memory outside
  the table zone alone exactly when the level-2 index is below 511, or the
  first page of memory happens to hold the words it would write there
  (`PageBinding.BindStaysInZoneIff`). `PageBinding.LastRowWritesOutside` is a
  memory on which a bind of 0x3FE00000 stores its entry at address 0.
- `bind_address` says of its own re-entry that it should not loop
  (`src/memory/mmu.c:262`). It does not exactly when the level-2 entry lies
  outside the page whose address it holds (`PageBinding.ReentersOnceIff`), as
  in every populated zone.
- The assertion at `src/proc/proc.c:569` can fire: `acknowledged` is never set
  back, so a second acknowledge after the client has sent elsewhere reaches it
  (`ProcStaleAck.StaleAckPanics`). It fires exactly when the caller owes no
  acknowledgement and the process it last received from is blocked in a send
  (`ProcDebts.AckOutcome`); an owed one never trips it, whatever all other
  processes do (`ProcDebts.OwedAckIsSafe`).
- `syscall_exit` reparents children without putting them in init's ring. A
  zombie can be found by a wait exactly while its parent has not exited
  (`ProcOrphans.FindableIffNotLost`); an exit loses exactly the zombies in the
  ring of its caller, and the caller itself when its own parent has exited and
  init does not happen to wait (`ProcOrphans.ExitLosesIff`); nothing else loses
  one (`ProcOrphans.OnlyExitLoses`), so in every run a zombie is lost exactly
  when some earlier exit lost it (`ProcOrphans.LostIff`), and stays unreaped
  (`ProcOrphans.LostForever`). `ProcWitness.ExitLosesChild` is a run from boot.
- A receive with too little room for the first sender that waits gives that
  sender its error return and leaves it blocked, and blocks the caller too:
  exactly then, or when nobody waits (`ProcTooLarge.ReceiveOutcome`). The
  sender is blocked until its target receives with room for it while it is the
  first that waits, and only that ends its wait (`ProcTooLarge.StepWaitsIff`).
  `ProcTooLarge.TooLargeHalts` is a run from boot after which both wait for
  each other and the kernel halts.
- A sender is never answered once the process it is blocked on has received
  again or exited, and exactly then (`ProcAck.StrandedIff`): it stays blocked
  for the rest of the run (`ProcAck.StrandedForever`).
  `ProcWitness.ReceiveStrandsClient` is a run from boot. With one acknowledge
  per receive nobody is stranded (`ProcAck.DisciplineStrandsNobody`).
- `next_power_of_2` smears 32 bits of a 64-bit `size_t`; it is the least power
  of two exactly without a run of 32 zero bits below the top bit of n - 1
  (`HeapSizes.NextPowerOfTwoExactly`), in particular for every n up to 2^32.
- `read` compares each chunk with the whole length instead of what is left, so a
  read that crosses a block boundary moves the cursor, and writes the caller's
  buffer, too far; the cursor is exact exactly when the read ends in its first
  block or on a boundary (`FileModel.CursorExactIff`, `Volume.ReadOvershoots`).

## Model

| member | source | states |
|---|---|---|
| `PagingSafety.NewPageKeeps` | src/memory/mmu.c:687-706 | handing out a frame keeps the frame-safety invariant: counters at least the mappings, free frames distinct with counter 0, a writable mapping is its frame's only one |
| `PagingSafety.FreshIsUnmapped` | src/memory/mmu.c:687-691 | no frame on the free stack is mapped by anybody |
| `PagingSafety.ReleaseKeeps` | src/memory/mmu.c:708-732 | releasing a mapping, with the frame going back at counter 0, keeps the invariant |
| `PagingSafety.Alone` | src/memory/mmu.c:806-846 | a frame whose counter is at most 1 has at most one mapping, so making it writable in place is safe |
| `PagingSafety.PrivatiseSharedKeeps` | src/memory/mmu.c:806-846 | the write fault on a shared page keeps the invariant |
| `PagingSafety.PrivatiseAloneKeeps` | src/memory/mmu.c:806-846 | so does the write fault of a process alone on its page |
| `PagingSafety.StoreKeeps` | src/memory/mmu.h:151-155 | a store to a mapped page keeps the invariant |
| `PagingSafety.RoomToRelease` | src/memory/mmu.c:708-713 | while a page is mapped the free stack is not full, so the assertion head > 0 holds |
| `PagingFork.ForkKeepsIff` | src/memory/mmu.c:495-640 | a fork keeps the invariant if and only if no counter of a page to be shared is at 255 |
| `PagingFork.WrapBreaks` | src/memory/mmu.c:235-239 | a shared counter at 255 wraps to 0 while two processes map the frame |
| `PagingRuns.StepKeeps` | src/memory/mmu.c:495-893 | every fork, fault, write, free and exit keeps the invariant |
| `PagingRuns.PrivatiseInvisible` | src/memory/mmu.c:806-846 | privatising a page changes what no process reads |
| `PagingRuns.StepRefines` | src/memory/mmu.c:495-893 | one step of the machine is one step of eager copying on what each process reads |
| `PagingRuns.CopyOnWriteRefinesEagerCopy` | src/memory/mmu.c:495-893 | over every run without a wrap the invariant holds and every process reads exactly what it would had each fork copied the whole address space |
| `PagingOutcomes.ForkPages` | src/memory/mmu.c:558-641 | after a fork both processes map the same pages: the same frame read-only on both sides, except on the stack, where the parent keeps its entry and the child has another frame with the same bytes that EL0 may write; no other table changes and two frames are gone from the stack |
| `PagingOutcomes.FaultPage` | src/memory/mmu.c:760-796 | a heap fault maps the first free frame at that page and nothing else, writable from EL0 if and only if EL0 faulted |
| `PagingOutcomes.WritePage` | src/memory/mmu.c:806-846 | after a write the byte is there and EL0 may write the page, so the retried store does not fault; a writable page stays where it is, a forked one keeps its frame at counter 1 and else moves to the first free frame |
| `PagingOutcomes.ExitPages` | src/memory/mmu.c:871-893 | process_exit leaves an empty table and every other table as it was |
| `PagingBoot.InitPhysicalMemoryMap` | src/memory/mmu.c:433-458 | the initial stack is increasing and holds exactly the frames above the identity zone but three peripherals |
| `PagingBoot.OnePeripheralIsNotSkipped` | src/memory/mmu.c:446-457 | the one peripheral on it is `GPIO_BASE + 0x1000`, at a position behind all RAM |
| `PagingBoot.BootIsFourPages` | src/memory/mmu.c:643-684 | the boot state is what two get_new_page calls each for the kernel and for init make of empty tables and the initial stack |
| `PagingBoot.BootKeeps` | src/memory/mmu.c:643-684 | the state after boot satisfies the invariant, and every counter is the number of mappings |
| `PagingBoot.EveryRunFromBoot` | src/memory/mmu.c:495-893 | invariant and refinement for every run from boot |
| `PagingCounters.StepExact` | src/memory/mmu.c:806-846 | every operation of a run whose exits release keeps: a counter is the number of mappings, and one more exactly for the frames write faults handed out; no fork wraps |
| `PagingCounters.DisciplinedRunsExact` | src/memory/mmu.h:151-153 | so at every point of every such run, and no counter passes 33 |
| `PagingCounters.ReleaseReturnsIff` | src/memory/mmu.c:708-732 | a released frame goes back to the stack if and only if its last mapping went and no write fault handed it out; otherwise its last release leaks it |
| `PagingCounters.LeakedForever` | src/memory/mmu.c:708-721 | a leaked frame stays unmapped, counted and off the stack for the rest of every run |
| `PagingWitness.WriteFaultLeaks` | src/memory/mmu.c:806-846 | a run from boot: fork, write, free; counter 2 with one mapping, then counter 1 with none |
| `PagingWitness.WrapBreaksRefinement` | src/memory/mmu.c:235-239 | a run from boot on which a counter wraps and a write by one process shows up in the memory of another, against eager copying |
| `PagingWrites.WriteIsEagerIff` | src/memory/mmu.c:806-846 | in any state, a write that faults is one to a copy of its own if and only if every other live mapping of the frame it ends in reads those bytes already |
| `PagingWrites.WriteIsPrivateIff` | src/memory/mmu.c:810-846 | so, if the next free frame is unmapped and the write changes a byte: if and only if the counter is above 1 or no other live mapping shares the frame |
| `PagingCounters.ForkExitConserves` | src/memory/mmu.c:495-640 | fork and then process_exit of the child restores every counter and the free stack in order |
| `PagingCounters.AbandonedForksWrap` | src/proc/proc.c:464-482 | without process_exit, 255 - c forks lead to a fork that wraps a counter at c |
| `MmuAlgebra.CopyForked` | src/memory/mmu.c:495-556 | the copy through the kernel's two reserved pages is a private copy of the stack page and leaves nothing else changed |
| `MmuAlgebra.WriteFault` | src/memory/mmu.c:812-835 | the copy through the reserved page of the faulting process is the privatised state |
| `MmuAlgebra.SharedAll` | src/memory/mmu.c:558-640 | the page-by-page loops of the fork add up to the sharing of the whole user range |
| `MmuTables.RevalidatedSame` | src/memory/mmu.c:201-211 | re-validating a table of stale entries makes no page valid |
| `MmuOperations.Mmu.InitNewLvl3Table` | src/memory/mmu.c:201-211 | the table becomes valid, its 512 entries lose their valid bit and keep the rest, no mapping changes |
| `MmuOperations.Mmu.BindAddress` | src/memory/mmu.c:246-267 | the page maps to the frame with the permission; the counter of a frame above the identity zone is incremented with 8-bit wrap; nothing else changes |
| `MmuOperations.Mmu.SetInvalidPage` | src/memory/mmu.c:87-94 | exactly that page is unmapped |
| `MmuOperations.Mmu.GetNewPage` | src/memory/mmu.c:699-706 | the top frame is taken and bound |
| `MmuOperations.Mmu.CopyForkedPage` | src/memory/mmu.c:495-556 | the child's stack page becomes a private copy |
| `MmuOperations.Mmu.HandleSharedPageWrite` | src/memory/mmu.c:806-846 | the page is privatised as in the model |
| `MmuOperations.Mmu.FreeVirtualPage` | src/memory/mmu.c:723-758 | the page is released as in the model |
| `MmuOperations.Mmu.ProcessExit` | src/memory/mmu.c:871-893 | all user pages are released in address order, each frame pushed when its counter reaches 0 |
| `MmuOperations.Mmu.ProcessInitCopyAndWrite` | src/memory/mmu.c:558-641 | the nested loops and stack copies are the model's fork, and the assertion cnt == 2 never fires |
| `MmuOperations.Mmu.Write` | src/memory/mmu.c:848-862 | an EL0 store to a read-only page faults first and then lands as in the model |
| `MmuOperations.Mmu.TranslationFault` | src/memory/mmu.c:760-796 | inside the heap a new page is bound, outside it the assertion fails and nothing changes |
| `PageDescriptors.PageEntryIs` | src/memory/mmu.c:42-63 | a page entry depends only on the low 36 bits of the frame's address and the attributes, not on what the entry held |
| `PageDescriptors.CutIsFrame` | src/memory/mmu.c:42-46 | the address survives that cut if and only if it is below 2^36 |
| `PageDescriptors.PageEntryReadsBack` | src/memory/mmu.c:139-146 | it is valid, and its frame and permission read back |
| `PageDescriptors.PageEntryFields` | src/memory/mmu.c:18-63 | each field of a page entry, at its place in the descriptor format, is what the permission configuration asks for |
| `PageDescriptors.TableEntryFields` | src/memory/mmu.c:105-131 | and the attributes of a table entry |
| `PageDescriptors.TableEntryReadsBack` | src/memory/mmu.c:120-142 | a table entry is a table entry and its address reads back |
| `PageDescriptors.IdentifierKeepsAddress` | src/memory/mmu.c:79-85 | identifying or invalidating an entry keeps its address |
| `PageDescriptors.CacheConfigurationSurvives` | src/memory/mmu.c:37-60 | the cache configuration is found in the entry if and only if it is below 2 |
| `PageWalk.WalkIs` | src/memory/mmu.c:155-199 | in a populated zone the walk goes through the page's own level-2 and level-3 entries, error 5 exactly without a table |
| `PageWalk.AddressParts` | src/memory/mmu.c:155-199 | an address is its level-2 index times 2 MB, its level-3 index times 4 KB and its offset |
| `PageWalk.SamePageIff` | src/memory/mmu.c:188-199 | two addresses go through the same entries if and only if they agree above the offset |
| `PageWalk.OffsetStays` | src/memory/mmu.c:269-275 | translation replaces the page and keeps the offset |
| `PageWalk.Distinct` | src/memory/mmu.c:304-312 | different entries of the zone lie at different addresses |
| `PageWalk.RedirectsOnePage` | src/memory/mmu.c:246-275 | writing the entry of a page redirects all addresses of that page and no other page |
| `PageWalk.RevalidationIsSilent` | src/memory/mmu.c:201-211 | re-validating a table with stale entries changes the translation of no address |
| `PageBinding.PageTables.PopulateLvl2Table` | src/memory/mmu.c:304-312 | all 511 entries become tables with the addresses of their own pages; nothing outside the level-2 table changes |
| `PageWalk.RevalidatedEntries` | src/memory/mmu.c:201-211 | in a populated zone init_new_lvl3_table identifies its own level-2 entry, invalidates its own row and leaves every other entry |
| `PageBinding.PageTables.InitNewLvl3Table` | src/memory/mmu.c:201-211 | on any level-2 entry: it is identified, exactly the 512 words of the page it names lose their valid bit, itself included when it lies there |
| `PageBinding.ReentersOnceIff` | src/memory/mmu.c:258-263 | after that the entry is a table entry, so that bind_address ends, if and only if it lies outside the page it names |
| `PageBinding.CodeAsDocumentedIff` | src/memory/mmu.h:113-121 | the returned code is the documented one if and only if an earlier error applies, or the table's low 17 bits are not all clear, or all 21 are |
| `PageBinding.MisalignedTableIsAccepted` | src/memory/mmu.c:179-180 | a table at 0x20000 gets code 0 where the documentation says 3 |
| `PageBinding.PageTables.BindAddress` | src/memory/mmu.c:246-267 | the code for all arguments and, on 0, every word it leaves behind, whatever the tables; it re-enters itself once exactly when the table was invalid; in a populated zone the page translates to the frame (cut to 36 bits) plus offset, no other page changes, no word outside the zone changes |
| `PageBinding.PageTables.SetInvalidPage` | src/memory/mmu.c:87-94 | that page faults, every other page translates as before, and no word but its entry changes |
| `PageBinding.LastRowLeavesZone` | src/memory/mmu.c:188-199 | the walk through the unpopulated last entry ends at the bottom of memory, outside the zone |
| `PageBinding.BindStaysInZoneIff` | src/memory/mmu.c:246-267 | with a zero last entry, bind_address changes no word outside the zone if and only if the level-2 index is below 511 or the first page of memory holds the words it would leave there already |
| `PageBinding.LastRowWritesOutside` | src/memory/mmu.c:246-267 | from zeroed memory, populating the tables at 2 MB and binding 0x3FE00000 stores the entry at address 0, outside the zone |
| `PageRefinement.EntryTellsPermission` | src/memory/mmu.h:24-34 | the entry of a frame with a permission of the paging model tells which one, and allows EL0 writes if and only if the model does |
| `PageRefinement.TranslateRefines` | src/memory/mmu.c:188-275 | where words stand for rows, the walk translates a user page if and only if the table of the paging model maps it, to that frame and with that permission |
| `PageRefinement.BindRefines` | src/memory/mmu.c:246-267 | bind_address on the words is the bind on the rows that `MmuOperations.Mmu.BindAddress` makes |
| `PageRefinement.UnbindRefines` | src/memory/mmu.c:87-94 | set_invalid_page likewise |
| `Sampling.RandomLaw` | src/interrupt/timer.c:171-182 | returns the index whose interval of the running sum holds the draw, never one of weight 0; the fallback is not reached |
| `Sampling.SelectedOnce` | src/interrupt/timer.c:175-179 | a draw selects one index |
| `Sampling.EveryDrawSelects` | src/interrupt/timer.c:175-179 | every draw below the total selects an index |
| `Sampling.SamplesExactly` | src/interrupt/timer.c:171-182 | exactly law[i] of the draws below the total select i |
| `ProcQueues.ChangeStateKeepsQueues` | src/proc/proc.c:329-357 | each run queue holds exactly the runnable processes of its priority, once each, after any change of state |
| `ProcQueues.ServeQueues` | src/proc/proc.c:384-599 | so after every system call |
| `ProcFamily.WaitReaps` | src/proc/proc.c:436-462 | wait reaps the first zombie in ring order and keeps rings, waiters and history |
| `ProcErrors.ErrorIsHeld` | src/libk/errno.h:39-44 | the 16 bytes of an error read back as its number at offset 0 (32 bits), zeros, and its data at offset 8 (64 bits) |
| `ProcFamily.WaitDelivers` | src/proc/proc.c:416-462 | the parent gets the pid and, at the address it gave, bytes that read as the error that child gave to exit; every exit of it is then reaped, once |
| `ProcFamily.WaitBlocks` | src/proc/proc.c:436-462 | blocking in wait means children, none of them a zombie |
| `ProcFamily.ExitDelivers` | src/proc/proc.c:464-482 | a waiting parent is handed the pid and bytes that read as the error at once, otherwise the zombie keeps the error |
| `ProcFamily.ExitFamily` | src/proc/proc.c:464-482 | exit keeps: rings are exactly the unreaped, never reparented children, no waiter has a zombie child, exits are reaped at most once |
| `ProcChannels.RefusedProcs` | src/proc/proc.c:484-492 | a connection that is too large changes the error and the return value of the sender and nothing else: neither side changes its state |
| `ProcChannels.ConnectTooLarge` | src/proc/proc.c:484-492 | and keeps the rendezvous and delivery invariants |
| `ProcChannels.ReceiveChannels` | src/proc/proc.c:543-557 | receive keeps: the lowest-numbered sender blocked on a listener is too large for it |
| `ProcTooLarge.ReceiveOutcome` | src/proc/proc.c:543-557 | a receive leaves its caller listening if and only if every first waiter is too large; such a waiter is refused with SEND_DATA_TOO_LARGE and -1 and waits on, one that fits is met and its bytes are pending |
| `ProcTooLarge.StepWaitsIff` | src/proc/proc.c:484-557 | over one step of a run, a sender that waits for a listener waits on if and only if the step is no receive of that process with room for it while it is the first that waits |
| `ProcTooLarge.TooLargeHalts` | src/proc/proc.c:484-557 | a run from boot: fork, a send of one byte, a receive without room; sender and receiver are blocked and the kernel has halted |
| `ProcOutcomes.TrapCases` | src/proc/proc.c:229-290 | a trap records the first argument, the errno and, of a send or an acknowledge with a data pointer, the bytes there, and changes nothing else |
| `ProcOutcomes.ForkCases` | src/proc/proc.c:384-414 | fork fails with MAX_PROC_REACHED if and only if no slot from 2 up is free, else with TOO_HIGH_CHILD_PRIORITY if and only if the priority exceeds the caller's, changing only errno and return value; otherwise the child is in the least free slot, the caller gets its pid, the child gets 0, heads the caller's ring and the queue of its priority, and nobody else changes |
| `ProcOutcomes.SendCases` | src/proc/proc.c:511-541 | which send fails with which error, which blocks and which is received at once, as exclusive cases over target, its state, wait and the sizes, with the whole state after each |
| `ProcOutcomes.WaitCases` | src/proc/proc.c:416-462 | NO_CHILD if and only if the ring is empty; otherwise the first zombie is reaped with its pid and error, or the caller waits; the whole state after each |
| `ProcOutcomes.ExitCases` | src/proc/proc.c:464-482 | the hand-over to a waiting parent, or the zombie; the children reparented, nobody else changed |
| `ProcOutcomes.ReceiveCases` | src/proc/proc.c:543-557 | nobody waits, the first that waits is too large, or it is met and the bytes of its send are pending; the whole state after each |
| `ProcOutcomes.AckCases` | src/proc/proc.c:559-599 | too large, nothing to acknowledge, or answered with the code and the prefix asked for; the whole state after each |
| `ProcSchedule.LotteryLaw` | src/proc/proc.c:704-714 | with priority 15 empty and a process between 1 and 14, of any consecutive clock readings, as many as there are tickets, exactly i * i + n_i dispatch the head of queue i |
| `ProcSchedule.LotteryDispatches` | src/proc/proc.c:704-714 | and every reading dispatches the head of a non-empty queue from 1 to 14 and nobody else |
| `ProcSchedule.HighestFirst` | src/proc/proc.c:699-700 | with a process of priority 15 every reading dispatches the head of that queue |
| `ProcSchedule.IdleLast` | src/proc/proc.c:701-703 | with processes of priority 0 only every reading dispatches the head of that queue |
| `ProcSchedule.DispatchCases` | src/proc/proc.c:680-715 | without a runnable process nothing changes; otherwise the dispatched process runs with its pending bytes handed over and goes to the back of its queue, in which everybody else moves up by one |
| `ProcRuns.ServeKeeps` | src/proc/proc.c:384-599 | every system call keeps every invariant |
| `ProcRuns.TrapKeeps` | src/proc/proc.c:229-290 | so does trapping |
| `ProcRuns.ResumeKeeps` | src/proc/proc.c:240-314 | and resuming, after which the process runs with an empty buffer |
| `ProcRuns.RotateKeeps` | src/proc/proc.c:680-688 | and the rotation of a dispatched queue |
| `ProcRuns.PickExists` | src/proc/proc.c:690-715 | with a runnable process the draw has a positive total and picks a queue |
| `ProcRuns.DispatchSafe` | src/proc/proc.c:292-310 | whatever the clock, the picked queue has a head that is a runnable initialized process with pid > 0 |
| `ProcRuns.HaltIffNoneRunnable` | src/proc/proc.c:690-715 | the scheduler halts if and only if no process is runnable |
| `ProcRuns.Progress` | src/proc/proc.c:606-661 | a running process can always trap, unless the assertion at 569 fires |
| `ProcRuns.BootKeeps` | src/proc/proc.c:165-197 | the state after init_proc satisfies every invariant; init runs with the highest priority and every slot from 2 up is free |
| `ProcRuns.EveryRun` | src/proc/proc.c:165-715 | every state of every run from boot satisfies every invariant, and a process runs or none is runnable |
| `ProcPayload.SendWasTrapped` | src/proc/proc.c:511-541 | a process recorded as sending trapped with that send and has not trapped since |
| `ProcPayload.EndToEndPayload` | src/proc/proc.c:229-257 | in every run, what is pending for a receiver is the bytes at the data pointer of its sender's send trap |
| `ProcPayload.PendingUntilDispatch` | src/proc/proc.c:240-257 | whatever other system calls run in between, it is still that when the receiver resumes |
| `ProcReplies.EndToEndReply` | src/proc/proc.c:559-599 | in every run, the reply a process finds is the prefix it asked for in its send of what the server of that send captured at its acknowledge trap, and it has not run since its send |
| `ProcPayload.AckAnswers` | src/proc/proc.c:559-599 | acknowledge hands the sender the code and the prefix of length min(ack_size, server size) |
| `ProcAck.ServeStrandsIff` | src/proc/proc.c:464-599 | a system call leaves a blocked sender without a live process that has it as source if and only if it was so before, or the call is a receive or an exit of the process it is blocked on |
| `ProcAck.StrandedIff` | src/proc/proc.c:464-599 | in every run a sender is in that state if and only if such a call was made before |
| `ProcAck.StrandedForever` | src/proc/proc.c:559-585 | and then stays blocked to the end of every run |
| `ProcAck.DisciplineStrandsNobody` | src/proc/proc.c:559-599 | with one acknowledge per receive nobody is ever in that state |
| `ProcWitness.ReceiveStrandsClient` | src/proc/proc.c:543-557 | a run from boot that leaves a client so |
| `ProcAck.DisciplinedRunsMatch` | src/proc/proc.c:559-599 | with one acknowledge per receive, blocked senders and owing receivers correspond one to one at every point, and the assertion at 569 does not fire |
| `ProcDebts.EveryRunDebts` | src/proc/proc.c:484-599 | in every run, disciplined or not, a process owes an acknowledgement if and only if the process it last received from is blocked in its send to it |
| `ProcDebts.AckOutcome` | src/proc/proc.c:559-599 | an owed acknowledge always reaches the sender; one not owed fails with an error while the process last received from is in no send, and trips the assertion at 569 while it is |
| `ProcDebts.OwedAckIsSafe` | src/proc/proc.c:568-569 | an owed acknowledge never trips the assertion, whatever all other processes have done |
| `ProcOrphans.FindableIffNotLost` | src/proc/proc.c:436-475 | a zombie is in the ring of some process if and only if it is not lost: its parent has not exited |
| `ProcOrphans.ExitLosesIff` | src/proc/proc.c:464-482 | after an exit a zombie is lost if and only if it was before, or it is in the ring of the caller, or it is the caller, whose parent has exited, and init is not waiting |
| `ProcOrphans.OnlyExitLoses` | src/proc/proc.c:384-599 | no other system call loses a zombie or finds a lost one |
| `ProcOrphans.LostIff` | src/proc/proc.c:464-482 | in every run a zombie is lost if and only if some exit before has lost it |
| `ProcOrphans.LostForever` | src/proc/proc.c:469-475 | a lost zombie stays unreaped for the rest of every run |
| `ProcWitness.ExitLosesChild` | src/proc/proc.c:464-482 | a run from boot: two forks, exit of the grandchild, exit of the child; the grandchild is lost |
| `ProcStaleAck.StaleAckPanics` | src/proc/proc.c:559-585 | a run from boot that makes it fire |
| `Ring.PushKeeps` | src/proc/proc.c:343-356 | the link writes in front of the head give the cyclic list with the new head |
| `Ring.UnlinkKeeps` | src/proc/proc.c:331-342 | unlinking any member gives the cyclic list without it |
| `Ring.RotateKeeps` | src/proc/proc.c:680-688 | moving the head pointer on rotates the list |
| `KernelRings.LeaveKeeps` | src/proc/proc.c:329-357 | leaving a queue: links, head, length and total are those of the queues without the process |
| `KernelRings.JoinKeeps` | src/proc/proc.c:329-357 | joining a queue likewise |
| `KernelRings.AddChildKeeps` | src/proc/proc.c:359-372 | the sibling links are those of the ring with the child in front |
| `KernelRings.RemoveChildKeeps` | src/proc/proc.c:374-382 | and of the ring without the child |
| `KernelRings.RemoveOrphanKeeps` | src/proc/proc.c:374-382 | removing a reparented child, which is in no headed ring, damages no ring |
| `KernelRings.AbandonKeeps` | src/proc/proc.c:464-482 | the children of an exiting process stay linked as orphans |
| `KernelTable.Table.InitProc` | src/proc/proc.c:165-197 | from the zeroed static table to the boot state of the model |
| `KernelTable.Table.ChangeState` | src/proc/proc.c:329-357 | one link cycle per priority is exactly the model's queue, with its length and the total |
| `KernelTable.Table.SyscallFork` | src/proc/proc.c:384-414 | descriptors, queues and rings become those of the model's fork, errors included (`ProcOutcomes.ForkCases`) |
| `KernelTable.Table.HandleZombieChild` | src/proc/proc.c:416-434 | the child is freed and unlinked and the parent's buffer holds its error |
| `KernelTable.Table.SyscallWait` | src/proc/proc.c:436-462 | the do-while search of the ring is the model's wait (`ProcOutcomes.WaitCases`) |
| `KernelTable.Table.SyscallExit` | src/proc/proc.c:464-482 | the do-while reparenting and the hand-over are the model's exit (`ProcOutcomes.ExitCases`) |
| `KernelTable.Table.HandleChannelConnection` | src/proc/proc.c:484-509 | the buffer copy is the model's delivery; the assertions at 496 and 497 hold |
| `KernelTable.Table.SyscallSend` | src/proc/proc.c:511-541 | is the model's send (`ProcOutcomes.SendCases`) |
| `KernelTable.Table.SyscallReceive` | src/proc/proc.c:543-557 | is the model's receive (`ProcOutcomes.ReceiveCases`) |
| `KernelTable.Table.SyscallAcknowledge` | src/proc/proc.c:559-599 | is the model's acknowledge, or the failed assertion at 569 exactly where the model says; the assertion at 573 holds |
| `KernelTable.Table.SaveContext` | src/proc/proc.c:229-290 | the buffer holds the captured bytes |
| `KernelTable.Table.RunProcess` | src/proc/proc.c:240-314 | the bytes written for the process are those pending for it, and its buffer is empty after |
| `KernelTable.Table.RunPriority` | src/proc/proc.c:680-688 | dispatches the head and rotates |
| `KernelTable.Table.PickPriority` | src/proc/proc.c:690-712 | the queue picked is the one the model allows for the draw (`ProcSchedule.LotteryLaw`) |
| `KernelTable.Table.Schedule` | src/proc/proc.c:690-715 | halts exactly without a runnable process and otherwise dispatches as the model does for that clock reading (`ProcSchedule.LotteryLaw`, `ProcSchedule.DispatchCases`), delivering what was pending |
| `KernelTable.Table.ServeCall` | src/proc/proc.c:606-661 | dispatches a trap to its system call, the failed assertion at 569 included |
| `HeapSizes.NextPowerOfTwoExactly` | src/memory/alloc.c:75-85 | least power of two at least n if and only if it fits 64 bits and n - 1 has no 32 zero bits in a row below its top bit |
| `HeapSizes.NextPowerOfTwoIsLeast` | src/memory/alloc.c:75-85 | so for every n from 1 to 2^32 |
| `HeapSizes.FirstWrongRounding` | src/memory/alloc.c:77-85 | and not for 2^32 + 1 |
| `HeapSizes.SmearBits` | src/memory/alloc.c:79-83 | the five shifts set a bit when one of the 32 from it upwards was set |
| `HeapBlocks.RoundedSize` | src/memory/alloc.c:178-182 | the rounded size holds the request, is a multiple of 64 with its header, is 0 only for 0, and rounding is idempotent |
| `HeapBlocks.SplitTiles` | src/memory/alloc.c:106-125 | in whole granules a larger block is always split, and the tiling stays exact |
| `HeapBlocks.ReleaseShape` | src/memory/alloc.c:212-225 | the two merges of kfree leave no two free neighbours |
| `HeapBlocks.Disjoint` | src/memory/alloc.c:87-92 | two blocks never overlap |
| `HeapRuns.MallocKeeps` | src/memory/alloc.c:178-210 | kmalloc keeps the shape; NULL exactly for 0, overflow exactly when nothing fits and the heap cannot grow; otherwise one block of exactly the rounded size, disjoint from all in use, joins them |
| `HeapRuns.MallocIsFirstFit` | src/memory/alloc.c:137-150 | no fitting free block lies below the one used |
| `HeapRuns.FreeKeeps` | src/memory/alloc.c:212-225 | kfree takes exactly that block out of use and keeps the shape |
| `HeapRuns.ReallocKeeps` | src/memory/alloc.c:227-248 | the pointer stays if and only if the block, or with the free block behind it, is large enough; it fails if and only if neither is, no free block fits the rounded size and the heap cannot grow; the result is large enough for request and old contents and no other block in use changes |
| `HeapRuns.EveryRun` | src/memory/alloc.c:106-248 | after every run the blocks tile the heap exactly in address order, no two neighbours are free, blocks in use are disjoint |
| `HeapRuns.FreeingEverything` | src/memory/alloc.c:212-225 | freeing all blocks in any order leaves one free block over the whole heap |
| `HeapMemory.SetSizeHeader` | src/memory/alloc.c:87-92 | a header field stored in memory reads back, the other fields and all bytes outside the header stay |
| `HeapLinks.SplitStores` | src/memory/alloc.c:106-125 | the stores of split_block, in their order, turn the linked list in memory into the split list and touch no other payload |
| `HeapLinks.MergeStores` | src/memory/alloc.c:128-135 | the stores of merge_block likewise, touching no payload; its assertions hold |
| `HeapLinks.ExtendStores` | src/memory/alloc.c:152-172 | the stores of extend_heap append a used block |
| `KernelHeap.Allocator.SplitBlock` | src/memory/alloc.c:106-125 | the list in memory is the split list |
| `KernelHeap.Allocator.MergeBlock` | src/memory/alloc.c:128-135 | the list in memory is the merged list, payloads unchanged |
| `KernelHeap.Allocator.FindFreeBlock` | src/memory/alloc.c:137-150 | returns the first fitting block and its predecessor |
| `KernelHeap.Allocator.KSbrk` | src/memory/alloc.c:27-42 | grows the heap below HEAP_MAX without int overflow, or fails |
| `KernelHeap.Allocator.ExtendHeap` | src/memory/alloc.c:152-172 | a used block behind the last; the assertions hold |
| `KernelHeap.Allocator.KMalloc` | src/memory/alloc.c:178-210 | outcome and list of the model, and no byte of a block in use changes |
| `KernelHeap.Allocator.KFree` | src/memory/alloc.c:212-225 | list of the model, and no byte of another block in use changes |
| `KernelHeap.Allocator.KRealloc` | src/memory/alloc.c:227-248 | outcome and list of the model, the old contents are the start of the new block, no byte of another block changes |
| `KernelHeap.Allocator.WriteByte` | src/memory/alloc.c:178-210 | a caller writing its own block harms neither the list nor another block |
| `DiskModel.SwitchTwice` | src/libk/filesystem.c:70-77 | switch_endianness is its own inverse on 32-bit words |
| `DiskModel.WordIsBigEndian` | src/libk/filesystem.c:70-77 | read_big_endian_int of a loaded word is the big-endian number of its bytes |
| `DiskModel.SetWord` | src/libk/filesystem.c:117-117 | storing a switched word changes that word and no other |
| `FreeChain.PopTakesFirst` | src/libk/filesystem.c:102-122 | alloc_block takes the first block of the order: last entry first, the emptied index block itself last |
| `FreeChain.PopKeeps` | src/libk/filesystem.c:102-122 | the chain stays well formed and loses exactly the block returned |
| `FreeChain.EveryBlockOnce` | src/libk/filesystem.c:102-122 | any number of calls up to exhaustion returns every free block once, and the chain is exhausted exactly after all |
| `FreeChain.ChainedElsewhere` | src/libk/filesystem.c:95-100 | writing a block that is no index block keeps the chain |
| `FileModel.PatchedFile` | src/libk/filesystem.c:259-268 | one pass of write splices exactly its chunk into the file |
| `FileModel.ContentsAreBlocks` | src/libk/filesystem.c:226-245 | the bytes of a file are those of its blocks, one after another in the order of its table |
| `FileModel.SpliceOfContents` | src/libk/filesystem.c:251-270 | a write splices the buffer into the contents: the bytes before, the buffer, the bytes after |
| `FileModel.ReadBack` | src/libk/filesystem.c:226-270 | a read at the position of a write returns first what was written |
| `FileModel.CursorExactIff` | src/libk/filesystem.c:226-245 | read moves the cursor by the length it returns if and only if it ends in its first block or on a block boundary, never by less |
| `Volume.ReadOvershoots` | src/libk/filesystem.c:226-245 | on a file in blocks of 512, a read of 4 bytes at position 510 returns 4, stores 6 and moves the cursor by 6 |
| `Volume.FileSystem.ReadBlock` | src/libk/filesystem.c:85-93 | a terminated copy of the block |
| `Volume.FileSystem.WriteBlock` | src/libk/filesystem.c:95-100 | that block becomes the buffer, no other block changes |
| `Volume.FileSystem.AllocBlock` | src/libk/filesystem.c:102-122 | block, chain and disk of the model |
| `Volume.FileSystem.AllocBlocks` | src/libk/filesystem.c:102-122 | n calls return n different blocks, none of them free afterwards |
| `Volume.FileSystem.Write` | src/libk/filesystem.c:251-270 | within the file: contents spliced, cursor moved by the length, no block but the file's changes |
| `Volume.FileSystem.Read` | src/libk/filesystem.c:226-245 | the count is the clamped length (negative past the end), the bytes stored are the file's from the old cursor to the new one |
| `Volume.FileSystem.FSeek` | src/libk/filesystem.c:203-223 | the three modes in 32-bit arithmetic; from a position in the file the cursor moves to the position asked for, counted from the start, the cursor or the end, if that lies in the file, and otherwise an assertion fails; no other descriptor changes |
| `Volume.SeekStaysInFile` | src/libk/filesystem.c:203-223 | from a position in the file the target is accepted if and only if the position asked for lies in the file, and then is that position |
| `Volume.FileSystem.WriteSeekRead` | src/libk/filesystem.c:203-270 | writing, seeking back and reading returns the bytes written |

## Left out

- Assembly, exception vectors, TLB and cache maintenance, barriers and system registers: hardware effects without checkable semantics here.
- Identity-mapped pages, peripheral pages and the timer page with its counter, in fork and in process_exit, and the memory manager's table-zone remap: shared by design, so isolation is stated for user pages only.
- EL1 writes to forked pages: the permission fault is taken at EL0 only, so the kernel must not write them, and a write operation of the model excludes them.
- The write fault is served with the faulting process's table active, which permission_fault_handler relies on and does not set.
- Running out of frames: operations that need a frame require one, as the source asserts nothing useful then.
- process_exit is an operation of its own, because syscall_exit does not call it.
- Bind counters at the level of words: PageBinding follows tables only, the counters are in MmuOperations.
- PageBinding.PageTables.BindAddress: requires, where no error applies and the table is not valid, that the level-2 entry does not lie in the page it names; bind_address enters itself for ever there.
- PageRefinement.BindRefines: follows the entries of user pages; of identity-mapped and peripheral pages only whether they are valid.
- KernelTable.Table.SyscallFork: requires a non-negative priority; the source does not check it and then indexes its queues out of bounds.
- Registers other than x0, the program counter, errno save and restore beyond the error record, the pid field (it is the index), time slices and preemption (always off).
- random_law's two deterministic variants, and the distribution of random itself: the draw is an arbitrary value below the bound.
- ksbrk with a negative increment, which the allocator never makes, and requests above 2^30 bytes, which its int cannot carry; on the failed HEAP_MAX assertion the model leaves the state as it was, since the kernel stops there.
- kcalloc, the allocator's accessors and its printing.
- KernelHeap.Allocator.KFree: requires a live pointer, as the source does.
- Volume.FileSystem.Write: requires the write to end within the file, because growth in extend_file is unfinished in the source.
- free_block and move (empty in the source), path lookup, directories and opening of inodes.
- Volume.FileSystem.AllocBlock: requires a chain that is not exhausted; the source then takes block 0 for an index block.
- The UART, logging, shell and the io, fs and memory managers: plumbing over the IPC modelled here.
- String helpers: memcpy and memmove are copies of sequences or loops over bytes.
