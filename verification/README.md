# Verified model of the hello-os memory subsystem

hello-os manages physical memory in 4 KiB pages and 2 MiB superpages of 512 pages. One metadata array
holds a state word, a superpage counter and next/prev links per page; two free lists are threaded
through it by index. Superpages are split on demand and merged back when the counter on their head
page reaches 512. The array and the two list heads sit behind spin mutexes that disable interrupts.
At boot the available areas of the Multiboot2 memory map are carved into superpages and single pages,
and a global allocator maps layouts to one page of either size.

This project models that code in Dafny and proves what it keeps over every sequence of calls and, for
the locking, over every interleaving. `dafny verify dfyconfig.toml` checks all of it.

## How the model is built

- `PageModel` holds the abstract heap: states, counters, the two lists as sequences, and two things the
  code keeps only implicitly, the owner of each page and the set of blocks that were ever whole
  (`tracked`). Operations are composed of steps cut where the code takes or drops a lock. `Inv(a, f)` is
  the structural invariant with `f` in the hands of the holder of `page_array`; `Settled` adds that no
  broken block is ready to merge.
- `HeapSteps`, `Sequential`, `Runs`, `RunTheorems`: each step keeps the invariant, then whole calls,
  then runs in which every free matches an earlier allocation by address and size.
- `Traces`, `Reachability`, `CounterRuns`, `StaleFrees`: runs as the sequence of worlds they pass
  through, runs that reach the states on which the edge cases turn, the superpage counter over whole
  runs, and second frees at any later time.
- `Links`, `Refinement`, `Allocator` (PageAllocator.dfy): the array with its links, changed in place by
  a class whose methods take and drop the mutexes where the source does. Each method is proved to do to
  the array what the abstract operation does to the heap.
- `Carve`, `BootTheorems`, `Bits`: the boot carve, stated in addresses, and the mask rounding it uses.
- `Mutexes`, `MutexProtocol`: the mutex as one CPU uses it, and as interleaved steps of many CPUs.
- `Interleaving`, `InterleavingSafety`, `InterleavingRuns`: allocator calls of many CPUs interleaved at
  every lock acquisition, built from the same steps. `InterleavingLinks` runs them on the words alone,
  with the next/prev links and the list heads in place of the sequences, and `InterleavingCleanLinks` adds
  that pages on neither list carry no links.
- `InterleavingCalls`: the course of one call in any interleaving, counted in steps of its own thread.
- `InterleavingReach`, `InterleavingCoalescing`, `InterleavingOrphans`, `InterleavingProgress`: sequential
  runs inside the interleaved machine, which schedules merge everything back, and which deadlock.
- `Multiboot2`, `GlobalAlloc`: the tag walk and memory map iterator, the global allocator, memory set-up.

## Where the code and its promises differ

For each: the input on which the promise fails, and the condition under which it holds.

- The mutex is documented to keep interrupts off while it is held. `alloc_4kb` and `split_2mb` drop the
  first guard they took while `page_array` is still held, and that guard carries the restore bit, so
  interrupts are on again under `page_array` (`EarlyDropOpensWindow`). Dropping one of several guards
  does this if and only if that guard carries the bit (`DropWindow`). So the promise holds throughout a
  run if and only if the guard with the bit is never dropped while another is held
  (`OffIffBitDroppedLast`), as with nested release (`NestedKeepsInterruptsOff`); with any release order
  the flag is restored once all guards are gone (`FlagAfterRun`).
- The check that is to stop a double free of a 4 KiB page looks at the page's state word. A second free
  at any later time, with the page not handed out singly in between, is ignored if and only if the page
  does not head a superpage, free or handed out whole, at that time (`SecondFreeLater`). If it follows
  at once, it is ignored exactly if the page is not the head of a block that the first free completed
  (`SecondFree4`). From every state with a superpage in reserve, matched calls reach a page for which an
  immediate second free is not ignored (`SecondFreeReachable`, `SecondFreeAfterBoot`), and one for which
  it would have been ignored at once but later is not (`LateSecondFree`).
- The counter is documented as the number of free 4 KiB pages. For blocks that were ever whole it is
  (`CounterMeaning`). A block carved as single pages starts at 0 (`BootCounterExactIff`), and after any
  run its counter is too small by exactly the least number of its pages that were free at any point of
  that run; so it is exact if and only if at some point none was (`DeficitLaw`, `DeficitAfterBoot`).
- The start of an area is rounded down, so marking stays inside an area if and only if it starts on a
  page boundary, its rounded first page lies below the kernel end, or nothing is marked
  (`MarkingStaysInside`). For disjoint areas every page of every allocation of every run lies in an
  available area if and only if this is so for each of them (`PagesAvailableIff`); `UncleanAreaHandedOut`
  is a map and a run on which a page that no area holds is handed out.
- Each page of an allocation then lies in one available area (`RunAddresses`); a superpage need not. All
  superpages of all runs lie in one area each if and only if the map has no aligned block whose pages are
  all available without one area holding it (`SuperpagesInOneArea`); those that do are the ones carved
  whole at boot (`OneAreaIffCarved`, a corollary of the carve). `AdjacentAreasMerge` is a map of two areas
  and a run that allocates a superpage across both.
- A fully free superpage is always merged back by sequential calls (`RunCoalesced`), but interleaved
  calls can leave one broken (`CoalescingNeedsSequentialCalls`), from every start with two superpages in
  reserve (`UncoalescedReachable`). A run that ends with all threads idle does so if and only if some
  `alloc_4kb` ended with a page of another block as the last thread to mind a block that was ready to
  merge, and nobody took a page of that block or merged it afterwards (`UnsettledIffAbandoned`).
- `alloc_4kb` and `free_4kb` take the same two locks in opposite orders. Some call in progress can go on
  unless one thread holds `page_array` and waits for a list whose holder waits for `page_array`
  (`MovesUnlessDeadlock`). Two such threads never move again, and whatever others do, nothing is ever
  allocated or freed again (`DeadlockForever`); two free pages and two threads suffice to get there
  (`DeadlockReachable`).
- Requests above 2 MiB receive one 2 MiB page. The layouts whose objects never run into the next object
  are exactly those of at most 2 MiB (`KeptApartIffFits`); `OversizedOverlap` has two requests whose
  objects overlap, on the map of `TwoBlocksAtBoot`.
- The alignment of a layout is ignored. The layouts whose objects are always aligned as requested are
  exactly those whose alignment divides the size of the page they get (`AlignedIffDivides`);
  `SinglesUnaligned` has two requests of which one is not.
- Every entry the memory map iterator reads lies inside its tag if and only if there is none, or the entry
  size is at least 24 and the last entry is not cut short (`InsideIff`). With entry size 0 and anything to
  read the iteration never ends (`EndsIff`), and a tag of size 0 would stop the tag walk from advancing
  (`NextTag`).

## Model

| member | source | states |
|---|---|---|
| `HeapSteps.TakeFree4Keeps` | src/memory/page_allocator.rs:232-254 | handing out the head of the 4 KiB list keeps every clause: lists, owners, states, counters |
| `HeapSteps.TakeFree2Keeps` | src/memory/page_allocator.rs:270-288 | the same for a superpage, whose 512 pages change owner together |
| `HeapSteps.DetachFree2Keeps` | src/memory/page_allocator.rs:290-303 | after the first half of a split the superpage is in the hands of the lock holder and nothing else changed |
| `HeapSteps.ScatterKeeps` | src/memory/page_allocator.rs:305-323 | the second half puts all 512 pages on the 4 KiB list with an exact counter |
| `HeapSteps.MarkFreedKeeps` | src/memory/page_allocator.rs:343-360 | a freed page is counted before it is linked, and the counter still tells the truth |
| `HeapSteps.PushFreedKeeps` | src/memory/page_allocator.rs:362-374 | linking it restores the invariant |
| `HeapSteps.MarkFreed2Keeps` | src/memory/page_allocator.rs:389-395 | a freed superpage is whole and off both lists |
| `HeapSteps.PushBlockKeeps` | src/memory/page_allocator.rs:397-405 | pushing a whole block onto the 2 MiB list restores the invariant |
| `HeapSteps.ScanIsSafe` | src/memory/page_allocator.rs:412-417 | whenever the re-scan passes, all 512 pages are on the 4 KiB list, so no allocated page is absorbed |
| `HeapSteps.UnlinkPageKeeps` | src/memory/page_allocator.rs:419-437 | each iteration of the unlink loop finds its page on the list and keeps the invariant |
| `HeapSteps.MarkMergedKeeps` | src/memory/page_allocator.rs:439-441 | the unlinked block becomes one superpage although only its head changes state |
| `HeapSteps.CountFull` | src/memory/page_allocator.rs:351-360 | a count of 512 means all pages are free, and conversely |
| `Sequential.FullCounterMeansFree` | src/memory/page_allocator.rs:353-360 | a counter of 512 is never wrong, so sequentially the re-scan always succeeds |
| `Sequential.UnlinkUpToKeeps` | src/memory/page_allocator.rs:419-437 | the loop invariant of the unlink loop for every number of iterations |
| `Sequential.TryMergeKeeps` | src/memory/page_allocator.rs:407-451 | try_merge keeps the invariant from any state, whether or not it merges |
| `Sequential.Alloc4Keeps` | src/memory/page_allocator.rs:229-268 | fails exactly when both lists are empty and then changes nothing; otherwise hands out a page that was free and leaves no block ready to merge |
| `Sequential.Alloc2Keeps` | src/memory/page_allocator.rs:270-288 | fails exactly when the 2 MiB list is empty; otherwise hands out a whole aligned free block |
| `Sequential.Free4Keeps` | src/memory/page_allocator.rs:334-380 | keeps invariant and settledness, including out-of-range, already free and merging frees |
| `Sequential.Free2Keeps` | src/memory/page_allocator.rs:382-405 | the same for superpages |
| `Sequential.Alloc4RoundTrip` | src/memory/page_allocator.rs:229-380 | freeing the page just allocated gives back the heap word for word, lists and owners included, except that a counter saturated at 0 now reads 1 or, if a superpage was split and merged back, its tail pages are marked Free4KB |
| `Sequential.Alloc2RoundTrip` | src/memory/page_allocator.rs:270-405 | the same for a superpage, restoring the whole heap |
| `Sequential.SecondFree4` | src/memory/page_allocator.rs:343-346 | a second free that follows at once is ignored if and only if the page is not the head of a block the first free completed |
| `PageModel.CounterIsWord` | src/memory/page_allocator.rs:32 | the counter moves as a 16-bit word does and stays put where that word would wrap |
| `Runs.NextKeeps` | src/memory/page_allocator.rs:222-332 | one matched call keeps the caller's map of live allocations in step with the heap, and reserved memory untouched |
| `Runs.FreeByAnyAddress` | src/memory/page_allocator.rs:326-332 | any address inside a page or superpage frees it as its first address does |
| `RunTheorems.RunKeeps` | src/memory/page_allocator.rs:222-451 | the invariant after runs of any length |
| `RunTheorems.RunPartition` | src/memory/page_allocator.rs:222-451 | free and live frames stay disjoint and together are exactly the frames managed at the start |
| `RunTheorems.Partition` | src/memory/page_allocator.rs:222-451 | the same in one state, and the two lists do not overlap |
| `RunTheorems.LiveDisjoint` | src/memory/page_allocator.rs:222-288 | two live allocations of any sizes share no byte |
| `RunTheorems.FreshAllocation` | src/memory/page_allocator.rs:222-288 | what is handed out was free, is aligned to its size and is managed memory; failure exactly on empty lists |
| `RunTheorems.ListsByState` | src/memory/page_allocator.rs:190-451 | the 2 MiB list is exactly the Free2MB pages, all block heads; the 4 KiB list exactly the Free4KB pages of broken blocks |
| `RunTheorems.SplitKeepsFreeFrames` | src/memory/page_allocator.rs:290-324 | splitting changes no frame between free and allocated |
| `RunTheorems.MergeKeepsFreeFrames` | src/memory/page_allocator.rs:407-451 | nor does merging |
| `RunTheorems.Coalesced` | src/memory/page_allocator.rs:334-451 | every known superpage is on its list, handed out whole, or has a live 4 KiB page |
| `RunTheorems.RunCoalesced` | src/memory/page_allocator.rs:290-451 | so after any run; once everything is freed every superpage and every frame is back |
| `RunTheorems.CounterMeaning` | src/memory/page_allocator.rs:248-252 | the counter of a broken block is at most, and for blocks ever whole exactly, the number of its pages on the list, and below 512 |
| `RunTheorems.SplitBlocksNeverSaturate` | src/memory/page_allocator.rs:351-357 | saturation never occurs in blocks ever whole |
| `RunTheorems.CountIsCardinality` | src/memory/page_allocator.rs:32 | the count by state words is the number of list members in the block |
| `CounterRuns.NextDeficit` | src/memory/page_allocator.rs:248-357 | what the counter of a block of single pages lacks is changed by no free, and lowered, by one, exactly by an allocation whose decrement saturates |
| `CounterRuns.DeficitLaw` | src/memory/page_allocator.rs:248-357 | after any number of calls it is the smaller of its start value and the least number of the block's pages that were ever on the 4 KiB list |
| `CounterRuns.DeficitFromZero` | src/memory/page_allocator.rs:248-357 | from a counter of 0 the counter is exact if and only if at some point none of the block's pages was free |
| `CounterRuns.DeficitAfterBoot` | src/memory/page_allocator.rs:184-357 | the same for every run after boot and every block that never was a superpage |
| `Traces.WorldsAreRun` | src/memory/page_allocator.rs:222-332 | a sequence of worlds joined by matched calls is a run and ends where the run ends |
| `Traces.RunHasWorlds` | src/memory/page_allocator.rs:222-332 | every run passes through such a sequence |
| `Reachability.Taken` | src/memory/page_allocator.rs:229-255 | n allocations hand out the first n pages of the 4 KiB list and nothing else |
| `Reachability.TakenWhole` | src/memory/page_allocator.rs:229-324 | on an empty list 512 allocations split the first superpage and hand out all of it |
| `Reachability.Given` | src/memory/page_allocator.rs:334-380 | giving back lent pages of a block from its end counts exactly these pages and merges nothing before the last |
| `Reachability.SecondFreeReachable` | src/memory/page_allocator.rs:334-346 | from every state with a superpage in reserve a run of matched calls defeats the guard against a second free |
| `Reachability.BlockOfSingles` | src/memory/page_allocator.rs:334-451 | single free pages that fill an aligned block are handed out as one superpage by some run |
| `Reachability.ListedIsHandedOut` | src/memory/page_allocator.rs:229-288 | whatever is on a list is handed out by some run |
| `StaleFrees.ReleaseStale` | src/memory/page_allocator.rs:334-380 | a matched free leaves its page free or part of a superpage, and nobody's single page |
| `StaleFrees.NextStale` | src/memory/page_allocator.rs:222-451 | every matched call keeps it so unless it hands the page out singly |
| `StaleFrees.IgnoredIff` | src/memory/page_allocator.rs:343-346 | free_4kb ignores such a page if and only if it does not head a superpage that is free or handed out whole |
| `StaleFrees.SecondFreeLater` | src/memory/page_allocator.rs:334-451 | the same for a second free at any later point of any run |
| `StaleFrees.LateSecondFree` | src/memory/page_allocator.rs:334-451 | from every state with a superpage in reserve: a page whose second free would be ignored at once, and is not once its block has merged, nor once that block is handed out whole |
| `Links.LinksInverse` | src/memory/page_allocator.rs:26-33 | next and prev are inverse, and prev is None exactly at the head |
| `Links.PushFrontLinked` | src/memory/page_allocator.rs:364-372 | pushing writes turn a list for s into one for [p] + s |
| `Links.PopFrontLinked` | src/memory/page_allocator.rs:236-240 | popping writes turn it into one for the tail |
| `Links.UnlinkLinked` | src/memory/page_allocator.rs:420-437 | unlinking at any position removes exactly that element, the head included |
| `Refinement.Take4Refines` | src/memory/page_allocator.rs:236-252 | the words alloc_4kb writes stand for the abstract step; the other list is untouched |
| `Refinement.Take2Refines` | src/memory/page_allocator.rs:277-285 | the same for alloc_2mb and the first half of split_2mb |
| `Refinement.MarkFreedRefines` | src/memory/page_allocator.rs:348-357 | the same for the first half of free_4kb |
| `Refinement.Push4Refines` | src/memory/page_allocator.rs:362-372 | the same for its push |
| `Refinement.Push2Refines` | src/memory/page_allocator.rs:397-404 | the same for a push on the 2 MiB list |
| `Refinement.ScatterStepRefines` | src/memory/page_allocator.rs:311-321 | one iteration of the split loop |
| `Refinement.UnlinkRefines` | src/memory/page_allocator.rs:420-437 | one iteration of the unlink loop; the head moves exactly when prev is None |
| `Allocator.PageAllocator.Init` | src/memory/page_allocator.rs:85-143 | for any areas, leaves lists, array and kernel end as the carve prescribes and no links on pages off the lists; ready for calls if the available areas are disjoint |
| `Allocator.PageAllocator.MarkAvailable` | src/memory/page_allocator.rs:164-188 | carves one area exactly and touches nothing outside it |
| `Allocator.PageAllocator.BuildLists` | src/memory/page_allocator.rs:190-220 | threads both lists, highest frame first, over exactly the free pages of whatever array it finds, and writes no link of any other page |
| `Allocator.PageAllocator.Alloc4KB` | src/memory/page_allocator.rs:229-268 | equals the abstract allocation; recurses at most once; requests no mutex it holds; restores the interrupt flag |
| `Allocator.PageAllocator.TakeHead4KB` | src/memory/page_allocator.rs:232-255 | the critical section, with the list guard dropped before the counter update |
| `Allocator.PageAllocator.Alloc2MB` | src/memory/page_allocator.rs:270-288 | equals the abstract allocation, with the same lock and flag guarantees |
| `Allocator.PageAllocator.Split2MB` | src/memory/page_allocator.rs:290-324 | equals the abstract split |
| `Allocator.PageAllocator.ScatterLoop` | src/memory/page_allocator.rs:311-321 | 512 pushes leave the block in descending order in front of the list |
| `Allocator.PageAllocator.Free4KBPage` | src/memory/page_allocator.rs:334-380 | equals the abstract free, guards and merge included |
| `Allocator.PageAllocator.Free2MBPage` | src/memory/page_allocator.rs:382-405 | equals the abstract free of a superpage |
| `Allocator.PageAllocator.TryMergeBlock` | src/memory/page_allocator.rs:407-451 | equals the abstract merge |
| `Allocator.PageAllocator.UnlinkBlock` | src/memory/page_allocator.rs:419-437 | the 4 KiB list becomes itself without the block's pages, order kept, wherever they were |
| `Allocator.PageAllocator.UnlinkInPlace` | src/memory/page_allocator.rs:421-436 | one unlink, locking the head only when it moves |
| `Allocator.ScanBlock` | src/memory/page_allocator.rs:412-417 | true exactly when all 512 pages are Free4KB |
| `Allocator.PageAllocator.AllocatePage` | src/memory/page_allocator.rs:222-227 | equals the abstract call; ready for the next one, all mutexes free, interrupt flag as before |
| `Allocator.PageAllocator.FreePage` | src/memory/page_allocator.rs:326-332 | the same for frees |
| `Allocator.BootSizes` | src/memory/page_allocator.rs:100-131 | the array length, whole superpages that reach the end of every area of type 1, and a final kernel end that leaves room for length times entry size behind the image |
| `Allocator.MaxAddress` | src/memory/page_allocator.rs:90-98 | no area of type 1 ends above the result, and one of them ends there unless it is 0 |
| `Allocator.CarveInPlace` | src/memory/page_allocator.rs:171-187 | the marking loop carves exactly its range |
| `Bits.MaskIsRoundUp` | src/memory/page_allocator.rs:101 | for powers of two the mask expression rounds up |
| `Bits.RoundUpIsLeast` | src/memory/page_allocator.rs:100-101 | rounding up yields the least multiple at or above its argument |
| `Carve.CarveOne` | src/memory/page_allocator.rs:135-140 | a page covered by an area is carved as that area alone prescribes: no area overwrites another |
| `Carve.CarveNone` | src/memory/page_allocator.rs:119-140 | a page no area covers stays unavailable |
| `Carve.CarveAllCarved` | src/memory/page_allocator.rs:135-140 | carving disjoint areas leaves whole superpages and single pages only |
| `Carve.BootHeapQuiet` | src/memory/page_allocator.rs:142-143 | the state after build_lists satisfies everything later calls rely on |
| `Carve.BootCounterExactIff` | src/memory/page_allocator.rs:176-186 | right after boot the counter of a block that is no superpage is exact if and only if the block has no free page |
| `Carve.TotalCovers` | src/memory/page_allocator.rs:88-102 | the array has whole superpages only and covers every available area |
| `Carve.MaxIsSomeEnd` | src/memory/page_allocator.rs:90-98 | the maximum is 0 or the end of some area of type 1 |
| `Carve.TotalIsLeast` | src/memory/page_allocator.rs:88-102 | the array length is the least multiple of 512 that reaches the end of every area of type 1 |
| `Carve.KernelBelow` | src/memory/page_allocator.rs:106-131 | the array of total times entry size bytes starts at the first page boundary behind the image, and the final kernel end is the first page boundary behind the array |
| `Carve.OtherTypesIgnored` | src/memory/page_allocator.rs:91-140 | areas of any type but 1 change nothing: array length, kernel end and the whole carved array equal those of the map without them |
| `Carve.DescWhereFalls` | src/memory/page_allocator.rs:196-216 | a list threaded over the array falls strictly from the highest frame |
| `BootTheorems.BootFrame` | src/memory/page_allocator.rs:164-188 | what each frame becomes, from the memory map alone |
| `BootTheorems.BootExact` | src/memory/page_allocator.rs:85-220 | the managed pages are exactly those at or above the final kernel end inside one area of type 1; exactly the aligned 512-page runs inside one area are superpages, the rest single pages with counter 0; the image and one entry per page lie below |
| `BootTheorems.MarkingStaysInside` | src/memory/page_allocator.rs:167-171 | marking an area stays inside it if and only if its start is clean or nothing is marked |
| `BootTheorems.BootWorldOk` | src/memory/page_allocator.rs:85-220 | for disjoint areas, however they start, init leaves a state on which calls can begin |
| `BootTheorems.PagesAvailableIff` | src/memory/page_allocator.rs:164-451 | for disjoint areas every page of every allocation of every run is available if and only if each area starts clean or marks nothing |
| `BootTheorems.UncleanHandedOut` | src/memory/page_allocator.rs:164-288 | the page in which an unclean area starts belongs to no area and is handed out by some run |
| `BootTheorems.UncleanAreaHandedOut` | src/memory/page_allocator.rs:164-288 | a map of one area that starts in mid-page: that page boots as the head of a superpage and is handed out |
| `BootTheorems.RunAddresses` | src/memory/page_allocator.rs:222-451 | in every later run each page of each allocation lies between the base and the end of an area of type 1, at or above the final kernel end, and each allocation is aligned to its size |
| `BootTheorems.AboveMetadata` | src/memory/page_allocator.rs:106-451 | for disjoint areas, however they start, no page of any allocation of any run meets the kernel image or the array of one entry per page behind it |
| `BootTheorems.BootFalls` | src/memory/page_allocator.rs:190-220 | after init both lists fall strictly |
| `BootTheorems.FirstAfterBoot` | src/memory/page_allocator.rs:190-268 | from the memory map: the first superpage handed out is the highest block that one area holds; the first page the highest single page, or the last page of that block if there is no single one; None exactly if there is none |
| `BootTheorems.OneAreaIffCarved` | src/memory/page_allocator.rs:164-451 | corollary of the carve: a live superpage lies in one available area if and only if it was carved whole at boot |
| `BootTheorems.SuperpagesInOneArea` | src/memory/page_allocator.rs:164-451 | all superpages of all runs lie in one area each if and only if no aligned block is fully available without one area holding it |
| `BootTheorems.PatchworkMerges` | src/memory/page_allocator.rs:229-451 | the run that pieces such a block together and allocates it as a superpage |
| `BootTheorems.AdjacentAreasMerge` | src/memory/page_allocator.rs:164-451 | a map of two adjacent 1 MiB areas and a run after which a live superpage spans both |
| `BootTheorems.SecondFreeAfterBoot` | src/memory/page_allocator.rs:334-346 | a map with room for one superpage is enough for a run that defeats the guard against a second free |
| `Mutexes.Mutex.Lock` | src/memory/mutex.rs:30-50 | takes the lock with interrupts off and remembers the flag; the lock must not be held already |
| `Mutexes.Mutex.TryLock` | src/memory/mutex.rs:53-74 | succeeds exactly on a free lock; failure leaves the flag unchanged |
| `Mutexes.Mutex.Release` | src/memory/mutex.rs:83-93 | frees the lock and switches interrupts on only if the guard says so |
| `MutexProtocol.StepExclusive` | src/memory/mutex.rs:30-93 | every step keeps: the lock word is true exactly when one guard exists or is being built |
| `MutexProtocol.StepConservesFlag` | src/memory/mutex.rs:30-93 | every step conserves the enable bit: in the flag, in one guard, or in hand |
| `MutexProtocol.RunOk` | src/memory/mutex.rs:30-93 | both, after any interleaving of any CPUs and mutexes |
| `MutexProtocol.MutualExclusion` | src/memory/mutex.rs:30-93 | two guards for one mutex never coexist |
| `MutexProtocol.FlagAfterRun` | src/memory/mutex.rs:83-93 | under any release order at most one guard carries the restore bit, interrupts are off exactly when one does, and the flag is back when all guards are gone |
| `MutexProtocol.NestedKeepsInterruptsOff` | src/memory/mutex.rs:1-10 | with nested release interrupts are off whenever a guard is held |
| `MutexProtocol.TryRun` | src/memory/mutex.rs:53-74 | try_lock ends after four steps: on a free mutex with the guard, on a held one with lock words, guards and interrupt flag as before |
| `MutexProtocol.LockEndsWithGuard` | src/memory/mutex.rs:30-50 | in any run, however often its exchange fails, a call of lock is still under way or has ended with its guard |
| `MutexProtocol.DropWindow` | src/memory/mutex.rs:83-93 | after any run, dropping one of several guards while interrupts are off switches them on under the others if and only if that guard carries the restore bit |
| `MutexProtocol.OffIffBitDroppedLast` | src/memory/mutex.rs:1-93 | on a CPU started with interrupts on, they are off at every point of a run with a guard held if and only if the guard with the restore bit is never dropped while another is held |
| `MutexProtocol.EarlyDropOpensWindow` | src/memory/page_allocator.rs:230-246 | the locking of alloc_4kb reaches a state with page_array held and interrupts on |
| `InterleavingSafety.StepInBounds` | src/memory/page_allocator.rs:229-451 | every page and block index a thread is about to use is in range; links are covered by InterleavingLinks.StepSimulated |
| `InterleavingSafety.StepKeeps` | src/memory/page_allocator.rs:229-451 | any step of any thread keeps heap invariant, locks, claims and what threads have read |
| `InterleavingSafety.WritesAreLocked` | src/memory/page_allocator.rs:229-451 | metadata and list heads change only under page_array, and a head only under its own lock |
| `InterleavingSafety.ReadsList2Locked` | src/memory/page_allocator.rs:257-303 | a step depends in nothing on a 2 MiB list that another thread holds: with any other list in its place it does the same |
| `InterleavingSafety.ReadsPagesLocked` | src/memory/page_allocator.rs:229-451 | nor on the page words while another thread holds page_array |
| `InterleavingSafety.ReadsList4Locked` | src/memory/page_allocator.rs:229-437 | nor on a 4 KiB list that another thread holds, beyond its head, which try_merge compares with the page it unlinks |
| `InterleavingSafety.HeadsUnclaimed` | src/memory/page_allocator.rs:232-285 | what a list offers next is in nobody's hands |
| `InterleavingRuns.RunSafe` | src/memory/page_allocator.rs:229-451 | the invariant over every interleaving of any number of threads |
| `InterleavingRuns.ClaimsChange` | src/memory/page_allocator.rs:372-451 | a page stops being allocated only through the thread told to free it; no merge, split or allocation of another thread takes it |
| `InterleavingRuns.QuiescentPartition` | src/memory/page_allocator.rs:372-451 | whenever page_array is free every managed frame is on exactly one list or in exactly one caller's hands |
| `InterleavingRuns.InterleavedPartition` | src/memory/page_allocator.rs:229-451 | the same at any such point of any interleaved run from boot |
| `InterleavingRuns.SoloAlloc4` | src/memory/page_allocator.rs:229-268 | an undisturbed call in the interleaved machine does what the sequential specification says |
| `InterleavingRuns.SoloAlloc2` | src/memory/page_allocator.rs:270-288 | the same for alloc_2mb |
| `InterleavingRuns.SoloFree4` | src/memory/page_allocator.rs:334-451 | the same for free_4kb with its merge |
| `InterleavingRuns.SoloFree2` | src/memory/page_allocator.rs:382-405 | the same for free_2mb |
| `InterleavingRuns.CoalescingNeedsSequentialCalls` | src/memory/page_allocator.rs:257-267 | two threads can leave a superpage broken with all its pages free and nothing pending |
| `InterleavingReach.RunEmbeds` | src/memory/page_allocator.rs:222-451 | every matched sequential run is a run of the interleaved machine in which one thread moves |
| `InterleavingReach.UncoalescedReachable` | src/memory/page_allocator.rs:257-267 | from every start with two superpages in reserve some schedule of two threads ends idle with a superpage left broken though all its pages are free |
| `InterleavingLinks.SameEnabled` | src/memory/page_allocator.rs:419-430 | on the words alone a thread waits for exactly the locks it waits for in the abstract machine, the list head in the unlink loop included |
| `InterleavingLinks.StepSimulated` | src/memory/page_allocator.rs:229-451 | every index and every link a step follows is in range, and the words it writes stand for the abstract step |
| `InterleavingLinks.RunSimulated` | src/memory/page_allocator.rs:229-451 | the two machines have the same schedules, and after each the links spell out both free lists forwards and backwards |
| `InterleavingLinks.MachineSafe` | src/memory/page_allocator.rs:229-451 | so after every schedule of any number of threads from boot |
| `InterleavingLinks.HeldHeadStays` | src/memory/page_allocator.rs:230-297 | a head read under its list lock stays the head, without predecessor, whatever the holder of page_array unlinks meanwhile |
| `InterleavingCleanLinks.StepClean` | src/memory/page_allocator.rs:236-437 | every step of every thread leaves pages on neither list without links, but for the head of a superpage being split |
| `InterleavingCleanLinks.RunClean` | src/memory/page_allocator.rs:229-451 | so after every schedule |
| `InterleavingCleanLinks.HandedOutWithoutLinks` | src/memory/page_allocator.rs:242-288 | no page in a caller's hands carries a link, after any schedule from boot |
| `InterleavingCalls.CallStep` | src/memory/page_allocator.rs:229-451 | a step of a call ends it exactly on the findings on which the source returns, and otherwise takes it one position further, back to the start only after a split |
| `InterleavingCalls.ArrivesAtLock4` | src/memory/page_allocator.rs:229-268 | a thread comes to the lock of the 4 KiB list only by calling alloc_4kb or by having just put 512 pages of a superpage on that list |
| `InterleavingCalls.CallClock` | src/memory/page_allocator.rs:229-451 | at every point of every interleaving a call has taken five steps of its own per superpage it split and as many more as its position says |
| `InterleavingCalls.CallEnds` | src/memory/page_allocator.rs:229-451 | and when it ends it had found what makes the source return |
| `InterleavingCalls.Alloc4Ends` | src/memory/page_allocator.rs:229-324 | an alloc_4kb with k splits ends after 5k + 2 or 5k + 3 steps of its own; without a page if and only if it last found the 2 MiB list empty, and otherwise with the page it took, which nobody had |
| `InterleavingCalls.OthersEnd` | src/memory/page_allocator.rs:270-451 | alloc_2mb ends after at most 2 steps, free_2mb after 2, free_4kb after 2, 3 or 517 |
| `InterleavingCoalescing.StepCovered` | src/memory/page_allocator.rs:257-451 | every step but the end of an alloc_4kb leaves each block that is ready to merge in the care of some thread |
| `InterleavingCoalescing.TakeCoveredIff` | src/memory/page_allocator.rs:232-267 | the end of an alloc_4kb does so if and only if the blocks other than the page's own are minded by another thread |
| `InterleavingCoalescing.RunSettled` | src/memory/page_allocator.rs:257-451 | if every alloc_4kb of an interleaved run ends that way, no block waits to be merged once all threads are idle |
| `InterleavingOrphans.OrphanStep` | src/memory/page_allocator.rs:232-267 | only the end of an alloc_4kb with a page of another block leaves a block that is ready to merge without a thread minding it |
| `InterleavingOrphans.StaysReady` | src/memory/page_allocator.rs:229-451 | a block that is ready to merge stays so until one of its pages is taken or it is merged |
| `InterleavingOrphans.UnsettledIffAbandoned` | src/memory/page_allocator.rs:229-451 | a run that ends idle leaves a block unmerged if and only if some alloc_4kb abandoned it and nobody touched it afterwards |
| `InterleavingCoalescing.SettledCoalesced` | src/memory/page_allocator.rs:290-451 | then every known superpage is on its list, handed out whole, or has an allocated 4 KiB page |
| `InterleavingProgress.MovesUnlessDeadlock` | src/memory/page_allocator.rs:229-451 | some call in progress can go on unless two threads block each other on page_array and a list |
| `InterleavingProgress.LockOrder` | src/memory/page_allocator.rs:229-451 | no thread holds two locks across a wait: the holder of a list waits for page_array only and does not hold the other list |
| `InterleavingProgress.DeadlockForever` | src/memory/page_allocator.rs:229-451 | two such threads move in no continuation, and the heap never changes again |
| `InterleavingProgress.DeadlockReachable` | src/memory/page_allocator.rs:230-363 | from two free pages two threads can get there: one in alloc_4kb, one in free_4kb |
| `Multiboot2.FindTag` | src/memory/multiboot2.rs:34-52 | terminates, visits true tag starts only, returns the first tag of the wanted type or None |
| `Multiboot2.NextTag` | src/memory/multiboot2.rs:49-50 | the step lands on the next 8-byte boundary and stands still only for size 0 |
| `Multiboot2.SerialisedIsLaid` | src/memory/multiboot2.rs:34-60 | any list of tags serialised with padding and an end tag is what the walk expects |
| `Multiboot2.MemoryAreaIter.Next` | src/memory/multiboot2.rs:107-116 | ends exactly at the end of the table; otherwise yields the entry it stands at and advances by the entry size, also if that is 0 |
| `Multiboot2.EndsIff` | src/memory/multiboot2.rs:107-116 | the iteration ends if and only if there is nothing to read or the entry size is not 0 |
| `Multiboot2.CollectAreas` | src/memory/multiboot2.rs:81-117 | draining the iterator, whenever that ends, yields all entries in order |
| `Multiboot2.AreaReadBack` | src/memory/multiboot2.rs:71-79 | an encoded entry is read back field by field |
| `Multiboot2.MapReadBack` | src/memory/multiboot2.rs:81-117 | a tag of size 16 + n * entry_size yields exactly its n areas in order |
| `Multiboot2.SampleRead` | src/memory/multiboot2.rs:28-117 | a structure of 72 given bytes, laid out as in section 3.6 of the Multiboot2 Specification: which tag is the memory map, and its one area with base, length and type |
| `Multiboot2.InsideIff` | src/memory/multiboot2.rs:107-116 | for every entry size above 0, every entry read lies inside the tag if and only if there is none, or the size is at least 24 and the last one is not cut short |
| `Multiboot2.MemoryMap` | src/memory/multiboot2.rs:28-31 | the areas of the memory map come back exactly; None exactly if there is no tag of type 6 |
| `GlobalAlloc.SimpleAllocator.Alloc` | src/memory/mod.rs:43-72 | sizes 1 to 4096 get what alloc_4kb gives, larger ones what alloc_2mb gives; null if and only if the size is 0 or no list can serve it, as long as page zero is not managed |
| `GlobalAlloc.ClassIsSmallest` | src/memory/mod.rs:49-71 | the page is the smallest that holds the object; what no page holds gets a superpage |
| `GlobalAlloc.NullIffExhausted` | src/memory/mod.rs:45-71 | the same for one state of the allocator |
| `GlobalAlloc.NullAfterBoot` | src/memory/mod.rs:45-71 | and for every run of allocations and deallocations after boot, where page zero lies below the kernel |
| `GlobalAlloc.SimpleAllocator.Dealloc` | src/memory/mod.rs:74-88 | sizes 1 to 4096 free the page of the pointer, larger ones its superpage, size 0 nothing |
| `GlobalAlloc.MemoryInit` | src/memory/mod.rs:20-31 | both failures, and otherwise an allocator set up from the encoded memory map |
| `GlobalAlloc.DeallocMatches` | src/memory/mod.rs:74-88 | dealloc frees exactly the page and size alloc took |
| `GlobalAlloc.NextObjectsOk` | src/memory/mod.rs:43-88 | objects and live frames stay in correspondence over every call |
| `GlobalAlloc.RunObjectsOk` | src/memory/mod.rs:43-88 | the same over runs of any length, which also keep reserved memory untouched |
| `GlobalAlloc.ObjectsApart` | src/memory/mod.rs:43-88 | after any run an object of at most 2 MiB ends before the next one begins, and every alignment dividing the object's page size is honoured |
| `GlobalAlloc.KeptApartIffFits` | src/memory/mod.rs:56-71 | the layouts whose objects never run into the next object are exactly those of at most 2 MiB |
| `GlobalAlloc.AlignedIffDivides` | src/memory/mod.rs:43-72 | the layouts whose objects are always aligned as requested are exactly those whose alignment divides the size of their page |
| `GlobalAlloc.SinglesUnaligned` | src/memory/mod.rs:49-55 | two requests that split a superpage get adjacent pages, not both aligned to anything that does not divide 4096 |
| `GlobalAlloc.OversizedOverlap` | src/memory/mod.rs:65-71 | out of a reserve of two adjacent superpages two requests above 2 MiB get objects that overlap |
| `GlobalAlloc.TwoBlocksAtBoot` | src/memory/page_allocator.rs:164-188 | a memory map of one 4 MiB area leaves exactly such a reserve |

## Left out

- Allocator.PageAllocator.FreePage: frees that match no allocation and are not caught by the guards (a page of another size, a page never handed out) are outside the contract; the source corrupts its lists there.
- Allocator.PageAllocator.Free4KBPage: the same restriction; out-of-range and already free pages are covered.
- Allocator.PageAllocator.Free2MBPage: the same restriction; an already free superpage is covered, an index past the array panics in the source.
- GlobalAlloc.SimpleAllocator.Dealloc: the same restriction, in terms of pointer and layout.
- Allocator.PageAllocator.Init: assumes sums that stay within 64 bits; the address of the linker's end symbol and the size of one metadata entry are parameters, and the array is a Dafny array rather than memory behind the kernel.
- BootTheorems.BootExact: assumes disjoint available areas that start cleanly in the sense of `MarkingStaysInside`; where they overlap, a later area overwrites the marking of an earlier one.
- Allocator.PageAllocator.Init: the final count of free pages for the boot message is not modelled.
- Mutexes.Mutex.Lock: on one CPU a held mutex would spin forever, so it must be free; the spin loop is a repeated step in `MutexProtocol`.
- MutexProtocol.RunOk: interrupt handlers that run on a CPU between two steps of an operation are not modelled.
- Multiboot2.FindTag: assumes well-formed boot information, as the source demands of its caller.
- Multiboot2.CollectAreas: assumes that the iteration ends, in the sense of `EndsIff`, and that the entries lie in memory; with entry size 0 and anything to read the source loops for ever.
- Fairness: which of several threads waiting for a lock gets it is not modelled; `InterleavingCalls` counts the steps of a call that ends, and beyond `MovesUnlessDeadlock` no call is claimed to end under interleaving.
- Within one critical section of `Interleaving` the guard of a list and `page_array` are released in one step, because no other thread can read the metadata in between.
- Memory-ordering details of the atomics: exchange and store are atomic steps of a sequentially consistent model.
- Raw pointers, unsafe casts and console output.
- GDT, IDT, APIC, serial and boot code: device registers, fixed tables and assembly that would add only easy members.
