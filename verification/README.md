# RetroOS: memory backends, parser, host file protocol and monitor in Dafny

RetroOS runs the same kernel on two memory backends behind one contract (`arch-abi/src/arch.rs`):
`arch-metal` edits the page tables of a real processor through a recursive window, `arch-interp`
keeps page tables in the memory of an emulated guest. Both fork by copy-on-write, page in on demand,
alias, swap and tear down pages by editing shared tables in place. The contract they serve is much
simpler: each address space is its own array of pages. This project models both backends step by
step and proves what they keep of that contract over whole runs, and exactly where they leave it.
It also models MicroCalc's LR parser, HostFS framing, the sensitive-instruction monitor and the
metal clock.

`dafny verify dfyconfig.toml` checks all of it.

## How it is laid out

| files | what they hold |
|---|---|
| `Outcomes`, `ArchContract` | results, pages, and the contract: arrays of pages and what each call does to them |
| `PhysMm` | the metal frame allocator with its one-byte counts |
| `MetalMemory`, `MetalOps` | nodes of entries, the walk, every metal operation as a function; a `Panic` is the machine stopping |
| `MetalCounts` ... `MetalExchange` | one file for each operation: counts, tables, views, faults, stores, fork, maps, aliases, free, swap |
| `MetalExposure` | aliased stores: the exact set of pages that see the new byte |
| `MetalRuns`, `MetalImages`, `MetalTheorems` | runs, the contract's images, the theorems over runs |
| `MetalRetry`, `MetalKernel`, `MetalWindow` | the fault loop, the imperative code, the recursive window |
| `MetalGuard` | forks from any state, with no assumption on aliases |
| `MetalRoom`, `MetalProgress`, `MetalHalts`, `InterpHalts` | when an operation halts the machine, and when it cannot |
| `MetalWitness`, `InterpWitness` | concrete machines, booted, and the runs on them that break a law |
| `MetalClock` | PIT time and 64-bit fixed-point arithmetic |
| `InterpPhys` ... `InterpHistory` | the interpreter: allocator, guest memory, operations, books, runs |
| `InterpCells` | the contract with aliasing, followed by every run that keeps the books |
| `InterpSteady`, `InterpTwin`, `InterpHost` | the long-mode twin and its cache |
| `InterpRedirect`, `InterpKernel` | redirected aliases; the imperative code |
| `Backends` | both backends show the same pages |
| `Mc*` | grammar, automaton, parser, soundness, completeness, the imperative parser |
| `HostFs*` | the checksum and its polynomial, frames, stream and handshake |
| `Monitor*` | virtual flags, stack and INT/IRET |

Metal memory is a sequence of nodes. Nodes below `|refs|` are physical frames, the rest are roots of
spaces, live or parked. The tree has any depth of at least two, so legacy, PAE and compat paging are
instances; `MetalWindow` proves that the window's index arithmetic is this tree. `held` counts the
references in the kernel's own hands, so `Exact` is an equation. A guest store is the whole retry: the
faults it takes, outermost first, then the write.

## Findings

Laws that the code does not meet, each with the exact condition under which it does and a run or
input that shows the failure.

- Metal, alias after fork (`arch-metal/src/paging2.rs:1932-1944`). `copy_page_entries` reads the source
  entry before the store into the destination takes its faults. When the source table is still shared
  from a fork, the entry read has its write bit, and the copy carries it to a private slot. A store
  there then shows in the other space. `CopyIsolatesIff` gives the condition, `CopyAfterForkLeaks` the run.
- Metal, swap after fork (`arch-metal/src/paging2.rs:2036-2050`): the same, for either page.
  `SwapIsolatesIff`, `UnsafeSwapLeaks`, `SwapAfterForkLeaks`.
- Metal, aliases across a fork. Right after a fork a store parts a page from its aliases
  (`ForkSeparates`); once the other space has freed its memory the aliases hold again. What a space
  sees at an aliased page therefore depends on another space's life (`AliasOutlivesFork`). The
  interpreter always parts them (`SpacesAreSheets`).
- Both backends, aliased stores. A store shows at an alias exactly when it is served in place:
  `StepRefinesIff` on either side, with `AliasOutlivesFork` and `AliasStoreDeparts` as runs. On metal
  none happens in a forked space or its child until somebody copies, swaps or frees (`ForksAreEager`).
- Interpreter, a page copied onto itself (`arch-interp/src/paging.rs:708-739`). The frame is given up
  before it is retained, so it is on the free list while mapped. `CopyBooksIff` gives the condition;
  `SelfCopyLeaks` is a run in which another space is then handed the frame.
- Interpreter, device windows and null guard. A fork drops the child's windows, a clean keeps them, a
  copy from a window unmaps; a store below page 16 that is not mapped is refused; a copy of a COW page
  is read-only. `StepRefinesIff` names these as exactly the departures from the plain contract,
  `NullGuardDeparts`, `WindowsDepart` and `CowCopyDeparts` show each at a guest reached from boot, and
  `SpacesAreSheets` says what happens instead.
- Allocator (`arch-metal/src/phys_mm.rs:170-193`). With no free frame the scan ends exactly when it
  began above frame 256 (`ScanExits`); every allocation keeps the hint there.
- Monitor (`arch-abi/src/monitor.rs:125-129`). `push16` adds the new stack pointer to the base before
  cutting it to 16 bits, so an interrupt frame that wraps below zero is written outside the segment and
  IRET reads it inside. And a handler in code segment 0x33 is taken for 64-bit code
  (`arch-abi/src/lib.rs:519-527`). `ComesBackIff` proves these the only two obstacles.

Where comment and code disagree the model follows the code: the comment in `fork_generic` says legacy
paging is unshared eagerly as well, the test is for PAE only (`arch-metal/src/paging2.rs:1511-1527`).

## Model

| member | source | states |
|---|---|---|
| `PhysMm.ScanExits` | arch-metal/src/phys_mm.rs:170-193 | with no free frame, the wrapping scan meets its exit test if and only if it began above frame 256 |
| `PhysMm.FrameAllocator.Alloc` | arch-metal/src/phys_mm.rs:170-193 | the scanning loop halts, finds the next free frame at or after the hint, else the first before it, none exactly when none is free, and changes only that count and the hint |
| `PhysMm.FrameAllocator.Free` | arch-metal/src/phys_mm.rs:197-210 | a count of 1 to 254 goes down by one and no other count changes; halts exactly on a frame out of range or already free; the zero page and reserved frames stay |
| `PhysMm.FrameAllocator.Share` | arch-metal/src/phys_mm.rs:214-232 | a count of 1 to 253 goes up by one and no other count changes; halts exactly at a count of 254; the zero page, free and reserved frames stay |
| `MetalStore.StoreCorrect` | arch-metal/src/traps.rs:856-891 | a store, through all its faults, is invisible in every other space, changes its byte at its page, and elsewhere in its own space at most at pages that were the same storage; where the page is a trap, sealed or a device, no page changes |
| `MetalExposure.PrepProgress` | arch-metal/src/paging2.rs:1563-1624 | the faults of a store leave an unshared path as it is, and end any other path in a copied table no entry of which can be written without another copy |
| `MetalExposure.StoreExact` | arch-metal/src/traps.rs:856-891 | what every page of the space shows after a store: an alias sees the byte if and only if the page was writable in place over unshared tables |
| `MetalFork.ForkCorrect` | arch-metal/src/paging2.rs:1478-1556 | fork, in every paging mode, keeps counts exact and spaces isolated; parent and child map what the parent mapped, others are unchanged |
| `MetalMaps.LoadCorrect` | arch-metal/src/traps.rs:908-923 | a load, whatever it pages in, changes nothing any space observes, puts at most the read-only zero page in, and leaves the page present if and only if it is not a device trap |
| `MetalAlias.UnmapCorrect` | arch-metal/src/paging2.rs:2053-2067 | storing an entry that owns nothing drops exactly the old reference and moves no other leaf |
| `MetalAlias.CopyIsolatesIff` | arch-metal/src/paging2.rs:1932-1944 | aliasing one page keeps the spaces isolated if and only if the source entry is not a writable one whose frame another space maps |
| `MetalAlias.UnsafeCopyLeaks` | arch-metal/src/paging2.rs:1932-1944 | after any other copy, a store at the destination takes no fault and shows in another space |
| `MetalExchange.SwapCorrect` | arch-metal/src/paging2.rs:2036-2050 | a swap exchanges what two pages map, whatever faults its four accesses take, moves no other leaf of any space and keeps counts exact |
| `MetalExchange.SwapIsolatesIff` | arch-metal/src/paging2.rs:2036-2050 | a swap keeps the spaces isolated if and only if aliasing either page would |
| `MetalExchange.UnsafeSwapLeaks` | arch-metal/src/paging2.rs:2036-2050 | after any other swap, a store at one of the two pages shows in another space |
| `MetalFree.FreeCorrect` | arch-metal/src/paging2.rs:1631-1685 | teardown empties the space, drops one reference for each owning entry it removes, recursing only into tables of its own, and is invisible elsewhere |
| `MetalRuns.StepAccounted` | arch-metal/src/paging2.rs:372-396 | every operation keeps every count equal to the owning entries plus the kernel's own references |
| `MetalHalts.StepHalts` | arch-metal/src/paging2.rs:1478-1685 | an operation halts only if fewer frames are free than it may need (none for a teardown or a new space, a frame a level for a store), or if some frame can reach 255 references in this step |
| `MetalHalts.FewReferences` | arch-metal/src/phys_mm.rs:170-232 | so with four frames a level free and no count above 50, no operation halts |
| `MetalHalts.ForkHalts` | arch-metal/src/paging2.rs:1506-1556 | without PAE a fork halts if and only if the entries of the root take some frame to 255 references |
| `MetalTheorems.StepIsolatesIff` | arch-metal/src/paging2.rs:1932-2050 | an operation keeps the spaces isolated if and only if it is safe; only copy and swap ask for anything |
| `MetalTheorems.StepRefines` | arch-abi/src/arch.rs:267-303 | one step does to the pages of every space what the contract says |
| `MetalTheorems.StepRefinesIff` | arch-abi/src/arch.rs:267-303 | whatever a store writes, a step conforms to the contract if and only if no store is served in place on a page mapped twice |
| `MetalTheorems.StepPrivate` | arch-metal/src/traps.rs:856-891 | an isolated step of one space changes no page of another, aliased stores and unsafe copies included |
| `MetalTheorems.RunAccounted` | arch-metal/src/paging2.rs:372-396 | over every run, safe or not, counts are exact |
| `MetalTheorems.RunIsolated` | arch-metal/src/paging2.rs:1478-1624 | over every run of safe operations a frame writable without a fault is reached by one space only |
| `MetalTheorems.RunPrivate` | arch-abi/src/arch.rs:267-303 | a space that does not edit its own memory keeps seeing it, whatever the others do |
| `MetalTheorems.RunRefines` | arch-abi/src/arch.rs:267-303 | over every safe run without in-place stores on aliases, lazy sharing shows what eager copying would |
| `MetalTheorems.ZeroPageSafe` | arch-metal/src/traps.rs:908-923 | from boot, in every run, no entry maps the zero page hardware-writable, and it stays zero |
| `MetalTheorems.LazyForkIsEager` | arch-metal/src/paging2.rs:1478-1624 | from boot, any interleaving of new spaces, forks, loads, stores, unmappings and teardowns in any spaces shows every space what eager copying would |
| `MetalTheorems.ForkMakesCopyUnsafe` | arch-metal/src/paging2.rs:1506-1556 | without PAE, after a fork every aliasing of a page that was writable is unsafe |
| `MetalTheorems.ForkHidesPages` | arch-metal/src/paging2.rs:1506-1556 | right after a fork no page of parent or child is written in place |
| `MetalTheorems.ForkSeparates` | arch-metal/src/paging2.rs:1506-1624 | right after a fork a store of either space parts its page from every alias |
| `MetalGuard.StepGuarded` | arch-metal/src/paging2.rs:1506-1624 | every operation but copy, swap and free keeps each writable page that has an alias in a table another space reads too, for all spaces created or forked so far |
| `MetalGuard.GuardedSolo` | arch-metal/src/traps.rs:856-891 | so no store in such a space is served in place on an aliased page |
| `MetalGuard.ForksAreEager` | arch-metal/src/paging2.rs:1478-1624 | from any isolated state, whatever its aliases: over every interleaving of new spaces, forks, loads, unmappings, and stores in spaces created or forked on the way, lazy sharing shows what eager copying would |
| `MetalWitness.BootIsBooted` | arch-metal/src/phys_mm.rs:33-80 | a machine that meets the boot condition |
| `MetalWitness.CopyAfterForkLeaks` | arch-metal/src/paging2.rs:1932-1944 | on it: new space, store, fork, copy, store, and the child sees the parent's byte |
| `MetalWitness.SwapAfterForkLeaks` | arch-metal/src/paging2.rs:2036-2050 | the same with a swap |
| `MetalWitness.AliasOutlivesFork` | arch-metal/src/paging2.rs:1661-1685 | on it: two aliased pages part on a store while the child lives, and share the store once the child has freed its pages |
| `MetalRetry.FaultProgress` | arch-metal/src/traps.rs:868-888 | each protection fault of a store serves the outermost read-only entry, changes nothing observable, moves the next one strictly deeper and is a step of the one preparation |
| `MetalRetry.PageInProgress` | arch-metal/src/traps.rs:783-853 | paging in a missing page is the beginning of the same preparation |
| `MetalKernel.ShareAndCopy` | arch-metal/src/paging2.rs:1538-1556 | the loop over two arrays leaves both with the read-only row, and one more reference for each owning entry; halts exactly when `ShareRow` does, which `ForkHalts` gives in numbers |
| `MetalKernel.Paging.Fork` | arch-metal/src/paging2.rs:1506-1530 | the imperative fork is `MetalOps.Fork`, halting exactly when that does (`StepHalts`, `ForkHalts`) |
| `MetalKernel.Paging.FreeSubtree` | arch-metal/src/paging2.rs:1661-1685 | the recursive teardown loop is `FreeSlot` |
| `MetalKernel.Paging.FreeUserPages` | arch-metal/src/paging2.rs:1631-1654 | the loop over the root is `FreeSpace` |
| `MetalKernel.PathIsPage` | arch-metal/src/paging2.rs:1448-1458 | the path of a page number is the one user path whose entry stands at that number in the recursive window, in all three modes |
| `MetalKernel.Paging.CopyPageEntries` | arch-metal/src/paging2.rs:1932-1944 | the range is a run of single copies, or halts at the first that halts |
| `MetalKernel.Paging.SwapPageEntries` | arch-metal/src/paging2.rs:2036-2050 | the range is a run of single swaps, or halts at the first that halts |
| `MetalKernel.Paging.UnmapRange` | arch-metal/src/paging2.rs:2053-2067 | the range is a run of single unmappings, or halts at the first that halts |
| `MetalKernel.Paging.HandleProtectionFault` | arch-metal/src/traps.rs:856-891 | the upward walk serves exactly the outermost read-only entry, and nothing if the page is sealed or no entry is read-only |
| `MetalKernel.Paging.Retry` | arch-metal/src/traps.rs:783-891 | a permitted store is let through after at most as many faults as the tree has levels, with exactly the effect of the preparation |
| `MetalWindow.RecursiveIndex` | arch-metal/src/paging2.rs:656-665 | the loop returns the one fixed point of `parent_index`, in all three modes |
| `MetalWindow.UpwardWalkEnds` | arch-metal/src/paging2.rs:1456-1458 | from every index below 2^20 the upward walk reaches that fixed point within the depth |
| `MetalWindow.ClimbFollowsPath` | arch-metal/src/paging2.rs:1456-1458 | from a page's own entry it visits the entries of the page's path, innermost first, and no other user entry |
| `MetalWindow.WindowIsTheTree` | arch-metal/src/paging2.rs:1563-1685 | different pages have different entries, and the children computed for an entry are the entries one step further down |
| `MetalClock.MulShr32Exact` | arch-metal/src/irq.rs:1105-1114 | the four partial products add up to the product shifted right by 32, modulo 2^64 |
| `MetalClock.MulU64U64Shr32` | arch-metal/src/irq.rs:1105-1114 | the 64-bit code computes it; no partial product overflows |
| `MetalClock.NanosMonotone` | arch-metal/src/irq.rs:1083-1099 | more ticks never give fewer nanoseconds, until the range of 64 bits is reached |
| `MetalClock.LagBound` | arch-metal/src/irq.rs:381-408 | the clock never runs ahead of ideal time and lags it by less than ticks/2^32 + 1 nanoseconds |
| `MetalClock.PitDifference` | arch-metal/src/irq.rs:1083-1099 | the 16-bit difference of two readings is the true time between them if that is under one turn |
| `MetalClock.PitClock.Now` | arch-metal/src/irq.rs:1083-1099 | the accumulated count is the true elapsed count and the clock never goes back |
| `InterpPhys.TakeExact` | arch-interp/src/phys.rs:98-107 | an allocation changes the state of exactly the frame it hands out, which was not in use |
| `InterpPhys.DropExact` | arch-interp/src/phys.rs:136-163 | giving up a reference reclaims a frame if and only if it was the last, and touches no other |
| `InterpPhys.ShareExact` | arch-interp/src/phys.rs:122-124 | one more reference on one frame, none elsewhere |
| `InterpPhys.Allocator.AllocFrames` | arch-interp/src/phys.rs:98-107 | a single frame comes off the free list first, runs are always new, exhaustion halts |
| `InterpPhys.Allocator.IncRef` | arch-interp/src/phys.rs:122-124 | one more reference on the frame, none on any other, no frame changes hands, and the pool stays in order |
| `InterpPhys.Allocator.IsShared` | arch-interp/src/phys.rs:128-130 | true if and only if the frame has more than one reference; then giving one up reclaims nothing |
| `InterpPhys.Allocator.FreeFrames` | arch-interp/src/phys.rs:136-163 | the loop is one `Drop` for each frame of the range |
| `InterpSteps.CowFaultStep` | arch-interp/src/paging.rs:585-612 | a COW fault gives the page a writable frame that nothing else maps, with the same contents, and keeps the books |
| `InterpSteps.StoreViews` | arch-interp/src/paging.rs:585-612 | what every page of every space shows after a store: an alias sees it if and only if the entry was writable before |
| `InterpEdits.CopyBooksIff` | arch-interp/src/paging.rs:708-739 | a copy keeps counts and free list right if and only if it does not copy an unshared page onto itself |
| `InterpEdits.SwapEdit` | arch-interp/src/paging.rs:798-814 | a swap exchanges two leaves, even when one missing table serves both, and moves nothing else |
| `InterpEdits.ClearEdit` | arch-interp/src/paging.rs:829-844 | teardown drops exactly the present leaves of one space; other spaces keep seeing theirs |
| `InterpFork.ForkBooks` | arch-interp/src/paging.rs:527-579 | every leaf of parent, child and the other spaces after a fork, and exact counts |
| `InterpFork.ForkApart` | arch-interp/src/paging.rs:527-579 | fork leaves no frame writable in one space and mapped in another |
| `InterpRuns.StepBooksIff` | arch-interp/src/paging.rs:441-871 | every operation keeps each count equal to mappings plus leaked references if and only if it is not such a self-copy |
| `InterpHalts.StepHalts` | arch-interp/src/phys.rs:98-107 | a step halts if and only if it takes more frames than the pool has left; the frames are counted from the tables before the step |
| `InterpHalts.ForkGoes` | arch-interp/src/paging.rs:527-565 | for a fork they are a directory and one table for each directory slot in which a window or a page of the parent lies |
| `InterpRuns.StepApart` | arch-interp/src/paging.rs:527-739 | and keeps writable frames in one space |
| `InterpTheorems.StepRefines` | arch-abi/src/arch.rs:267-303 | a faithful step does what the contract says, and any step but a store that does is faithful |
| `InterpTheorems.StepRefinesIff` | arch-abi/src/arch.rs:267-303 | whatever a store writes, a step conforms if and only if it is faithful |
| `InterpHistory.RunSound` | arch-interp/src/paging.rs:441-871 | books, windows and separation over every run without a self-copy |
| `InterpHistory.FreshFrames` | arch-interp/src/phys.rs:98-163 | a free frame is mapped nowhere, and the frame handed out next reads as zeros |
| `InterpHistory.RunPrivate` | arch-abi/src/arch.rs:267-303 | a space that does not edit its memory keeps seeing it |
| `InterpHistory.RunRefines` | arch-abi/src/arch.rs:267-303 | over every faithful run the pages are those of eager copying |
| `InterpHistory.LazyForkIsEager` | arch-interp/src/paging.rs:527-612 | from boot, for every interleaving of ordinary operations |
| `InterpCells.StepDepicts` | arch-interp/src/paging.rs:441-871 | every step but a self-copy does to each space's own sheet of cells what the contract with aliasing says |
| `InterpCells.RunDepicts` | arch-interp/src/paging.rs:441-871 | so does every run: aliased stores, device windows, null guard and COW copies included |
| `InterpCells.SpacesAreSheets` | arch-interp/src/paging.rs:441-871 | from boot, what a space sees at a page is what its own sheet shows, computed from the operations alone |
| `InterpTwin.BuildTwinStep` | arch-interp/src/paging.rs:926-971 | the twin is built from unused frames, disturbs no leaf, and mirrors every entry of the space |
| `InterpHost.TwinIsExact` | arch-interp/src/paging.rs:976-1014 | cached or rebuilt, the tree handed out translates every page of the active space as the two-level tree does, entries alike bit for bit, and no leaf of any space changes |
| `InterpHost.HostStepOk` | arch-interp/src/paging.rs:849-996 | edits, switches, entries and teardowns keep every cached twin right if its generation is current, and its frames its own |
| `InterpHost.RunActive` | arch-interp/src/paging.rs:454-456 | the active space after a run is the one of the last switch, or space 0 if that one was torn down since |
| `InterpHost.DestroyClears` | arch-interp/src/paging.rs:849-871 | tearing a space down unmaps its program pages, forgets its twin and moves no other leaf |
| `InterpHost.TwinNeverStale` | arch-interp/src/paging.rs:976-1014 | from boot, after any run, the next 64-bit entry gets a tree that agrees with the space the commands made active |
| `InterpRedirect.EntryComesBackIff` | arch-interp/src/paging.rs:744-794 | an untagged entry comes back if and only if no earlier shadow page is on the same frame |
| `InterpRedirect.RedirectMoves` | arch-interp/src/paging.rs:744-794 | a page outside the shadow on a frame whose shadow is present gets the frame of that shadow and the tag; every other leaf of every space stands |
| `InterpRedirect.NoneLeft` | arch-interp/src/paging.rs:744-794 | if no frame of a shadow page has a shadow itself, no page outside the shadow is left on a frame that has one |
| `InterpRedirect.RedirectRestoreCancel` | arch-interp/src/paging.rs:744-794 | redirecting all aliases of a range and restoring gives back every leaf and every count |
| `InterpKernel.Spaces.Fork` | arch-interp/src/paging.rs:527-565 | the nested loops, which skip missing tables, are `ForkSpace` |
| `InterpKernel.Spaces.FreeUserFrames` | arch-interp/src/paging.rs:829-844 | the nested loops are `ClearSpace` |
| `InterpKernel.Spaces.BuildLongTwin` | arch-interp/src/paging.rs:926-971 | the nested loops are `BuildTwin` |
| `InterpWitness.BootIsBooted` | arch-interp/src/paging.rs:415-426 | a guest that meets the boot condition |
| `InterpWitness.HostStarts` | arch-interp/src/paging.rs:415-451 | and a host on it that meets the premise of `TwinNeverStale` |
| `InterpWitness.SelfCopyBreaksBooks` | arch-interp/src/paging.rs:708-739 | a reachable self-copy that breaks the books |
| `InterpWitness.SelfCopyLeaks` | arch-interp/src/paging.rs:708-739 | and the run after it in which another space is handed the frame and its store shows |
| `InterpWitness.NullGuardDeparts` | arch-interp/src/paging.rs:687-704 | from boot: a store into the null guard that is not what the contract says |
| `InterpWitness.AliasStoreDeparts` | arch-interp/src/paging.rs:708-739 | from boot: a store that shows on an alias |
| `InterpWitness.WindowsDepart` | arch-interp/src/paging.rs:527-565 | from boot: a fork that drops a device window, a clean that keeps it and a copy that unmaps it |
| `InterpWitness.CowCopyDeparts` | arch-interp/src/paging.rs:708-739 | from boot: a copy of a copy-on-write page that comes out read-only |
| `Backends.BackendsAgree` | arch-abi/src/arch.rs:267-303 | from boot, after the same ordinary acts, every page looks the same to its space on metal (legacy paging, two levels throughout) and on the interpreter |
| `McParser.StepSafe` | apps-boot/tc/MCPARSER.C:156-172 | every turn of the loop stays within the 20-entry stack, pops only what is there and reads the right union member |
| `McParser.StepDecreases` | apps-boot/tc/MCPARSER.C:436-589 | every turn reads a token, shortens the stack or lowers the rank of its top |
| `McSoundness.AcceptSound` | apps-boot/tc/MCPARSER.C:280-601 | at acceptance the input is used up and the stack holds one expression of the grammar that spells it, with its value |
| `McSoundness.RangeIsTotal` | apps-boot/tc/MCPARSER.C:326-353 | a range is worth the left-to-right sum, from zero, of all its cells, both corners included |
| `McSoundness.ReducedIsSem` | apps-boot/tc/MCPARSER.C:280-416 | what each reduction computes is what its production means |
| `McCompleteness.AcceptsIff` | apps-boot/tc/MCPARSER.C:280-601 | the parser accepts if and only if some expression that fits the stack, with valid ranges, spells the tokens; its result is the value of every such expression |
| `McCalc.Parser.Push` | apps-boot/tc/MCPARSER.C:156-166 | pushes, or sets the error flag when the stack is full |
| `McCalc.Parser.Reduce` | apps-boot/tc/MCPARSER.C:280-416 | pops the right-hand side, computes, and pushes with the goto state, as the automaton's step does (its value: `ReducedIsSem`) |
| `McCalc.Parser.Loop` | apps-boot/tc/MCPARSER.C:436-589 | the do-while loop ends in the state of the automaton's run |
| `McCalc.Parser.Parse` | apps-boot/tc/MCPARSER.C:418-601 | text if no fitting expression spells the input, else its value, and a formula exactly if a cell is mentioned |
| `HostFsPoly.Crc16` | hostfs.py:111-117 | the bit loop computes the checksum: the remainder of a division over GF(2) by x^16 + x^12 + x^5 + 1 |
| `HostFsPoly.CrcIff` | hostfs.py:111-117 | a word is the checksum if and only if it is the remainder of that division, of the message with sixteen ones added to its first bits and sixteen zeros behind it |
| `HostFsPoly.OwnChecksum` | hostfs.py:111-117 | a message followed by its checksum, high byte first, has checksum 0 |
| `HostFsPoly.CheckValue` | hostfs.py:111-117 | the digits 123456789 have checksum 0x29b1 |
| `HostFsCrc.OneByteDetected` | hostfs.py:111-117 | contents that differ in one byte have different checksums |
| `HostFsCrc.BurstDetected` | hostfs.py:111-117 | so have contents that differ within two neighbouring bytes |
| `HostFsFrames.EncodeFrame` | hostfs.py:120-131 | the loop computes the byte-stuffed encoding (section 4.2 of RFC 1662) |
| `HostFsFrames.FrameParser.FeedBytes` | hostfs.py:142-182 | the incremental parser is the automaton `Feed` |
| `HostFsFrames.RoundTripIff` | hostfs.py:120-182 | from any parser state, an encoded frame comes out, behind at most what its first flag closes, if and only if its payload fits |
| `HostFsFrames.StreamRoundTrip` | hostfs.py:120-182 | encoded one after another, frames come out one after another, from any state |
| `HostFsFrames.ChunkingIsInvisible` | hostfs.py:142-182 | the same frames come out however the stream is cut |
| `HostFsFrames.Resynchronises` | hostfs.py:134-182 | after any garbage, in any chunks, exactly the frames that were sent follow what the garbage amounted to |
| `HostFsFrames.FeedBounded` | hostfs.py:175-181 | the body never exceeds its limit, nor does any frame delivered |
| `HostFsFrames.CorruptByteRejected` | hostfs.py:146-153 | a body with one wrong byte, checksum included, is rejected |
| `HostFsStream.AfterHelloCuts` | hostfs.py:545-563 | the handshake cuts right behind the first valid HELLO |
| `HostFsStream.FrameStream.RecvFrames` | hostfs.py:192-200 | what is delivered plus what remains is what remained; nothing is delivered only at the end of the stream |
| `HostFsStream.WaitForHandshake` | hostfs.py:545-563 | returns the first valid HELLO's token and leaves exactly the frames behind it |
| `HostFsStream.AnswersIff` | hostfs.py:430-478 | each of the eight commands is carried out with its own kind and payload, only a four-byte HELLO resets, everything else is passed over |
| `HostFsStream.Dispatch` | hostfs.py:450-491 | the actions taken are those the remaining frames call for by their kind, in order |
| `HostFsStream.Serve` | hostfs.py:566-579 | a whole connection handles exactly the frames after the first valid HELLO, however the stream was cut |
| `MonitorFlags.StepKeeps` | arch-interp/src/sysdesc.rs:38-51 | no entry, exit, reflection or monitor step changes VM or the virtual IOPL, the virtual interrupt flag changes exactly as CLI, STI, POPF, IRET and reflections say, and the arithmetic flags survive every step but the guest's own, POPF and IRET |
| `MonitorFlags.RunKeeps` | arch-interp/src/cpu.rs:710-850 | over every run, in VM86 and 32-bit mode, the flags are what those instructions, in order, made of them |
| `MonitorFlags.PushPop` | arch-abi/src/monitor.rs:54-70 | flags pushed and popped back give the low word, the virtual flag and VM again |
| `MonitorStack.ReflectEnters` | arch-abi/src/monitor.rs:160-179 | an interrupt goes to the address in its vector, low bytes first, with TF and VIF clear and every other flag kept |
| `MonitorStack.IretUndoesInt` | arch-abi/src/monitor.rs:160-179 | for every vector, IRET on an untouched frame restores CS, IP, SP, the low flags, the virtual interrupt flag and the mode |
| `MonitorStack.NoRoom` | arch-abi/src/monitor.rs:125-137 | with less than six bytes below the stack pointer, some memory makes the round trip fail |
| `MonitorStack.MistakenMode` | arch-abi/src/lib.rs:519-527 | with a handler in code segment 0x33, some memory and descriptors make it fail |
| `MonitorStack.ComesBackIff` | arch-abi/src/monitor.rs:295-320 | it works for all memories and descriptors if and only if there is room and the segment is not 0x33 |
| `MonitorStack.Vcpu.ReflectInt` | arch-abi/src/monitor.rs:160-179 | the imperative reflection is `Reflect`; IP and CS are the vector's words as they stood before the pushes, TF and VIF are clear, every other flag is as before |
| `MonitorStack.Vcpu.Iret` | arch-abi/src/monitor.rs:311-320 | the imperative IRET is `Iret16` |

## Left out

- Metal `set_page_flags`, which sets a write bit without looking at sharing (`arch-metal/src/traps.rs:894-905`), `map_fresh_range`, and the redirect of physical aliases on metal; the interpreter's redirect is modelled.
- Metal TLB, mode toggling, the boot-time tables, PAT, NX and the hardware copy of the PDPT: taken as flushed and in step with the tables.
- Metal page-tree hashing and diff printing: diagnostics.
- MetalKernel.Paging.FreeSubtree: the stores into a sole-owned table may first give its ancestors their write bits back; the entries concerned are cleared before the call ends, and the model clears them directly.
- MetalHalts.StepHalts: one way only except for a plain fork (`ForkHalts`), because how many frames a store or copy takes depends on which of its tables are shared; the interpreter's is an equivalence.
- MetalKernel.Paging.Retry: stores only; the faults of a load are modelled as one call.
- MetalRetry.PageInProgress: outside legacy mode user faults in the first and last 64 KB are refused (`arch-metal/src/traps.rs:793-799`); the metal loads and stores here, and every theorem about them, speak of legacy mode, of supervisor accesses, or of pages elsewhere.
- The interpreter's `map_phys`, `set_writable`, host-side resolves, which ignore write and COW bits (`arch-interp/src/paging.rs:671-681`), and the registration of kernel windows after boot: separation is stated for guest stores.
- InterpEdits.SwapEdit: the table that is made twice and orphaned is counted as leaked, its bytes are not followed.
- Backends.BackendsAgree: ordinary operations only, because the two backends differ on aliased pages after a fork (see Findings); metal in legacy mode, which has the interpreter's page numbers.
- MetalTheorems.RunRefines: stores served in place on aliases are excluded, because what they show depends on other spaces; `MetalExposure.StoreExact` says what one such store shows, and `MetalGuard.ForksAreEager` needs no such condition after a fork.
- The HPET and TSC branches of the clock and its calibration: the same arithmetic on other counters.
- The monitor's prefix parsing, 32-bit stack forms and port instructions: they would add cases, no new law.
- MicroCalc's lexer and floating point: tokens are given, values are of an abstract type with uninterpreted operators.
- HostFS file operations, the pause key, serial and socket code: host input and output.
- ext4, devices, screendump, boot loader and image tools.
