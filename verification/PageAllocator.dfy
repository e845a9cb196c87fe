/** The allocator as the source has it: one metadata array and two list heads behind mutexes, changed
    in place. Each method is proved to do to the array what its specification does to the abstract
    heap, to request no mutex it already holds, and to leave the interrupt flag as it found it. */
module Allocator {
  import opened PageModel
  import opened HeapSteps
  import opened Sequential
  import Runs
  import opened Links
  import opened Refinement
  import opened Mutexes
  import opened Bits
  import opened Carve
  import opened Multiboot2

  // ----- list surgery in place

  method PushFrontInPlace(pages: array<PageMetadata>, head: Option<nat>, p: nat)
    requires p < pages.Length && (head.Some? ==> head.value < pages.Length)
    modifies pages
    ensures pages[..] == PushFront(old(pages[..]), head, p)
  {
    pages[p] := pages[p].(next := head, prev := None);
    if head.Some? {
      pages[head.value] := pages[head.value].(prev := Some(p));
    }
  }

  method FreeAndPush(pages: array<PageMetadata>, head: Option<nat>, p: nat)
    requires p < pages.Length && (head.Some? ==> head.value < pages.Length)
    modifies pages
    ensures pages[..] == PushFront(SetState(old(pages[..]), p, Free4KB), head, p)
  {
    pages[p] := pages[p].(state := Free4KB);
    assert pages[..] == SetState(old(pages[..]), p, Free4KB);
    PushFrontInPlace(pages, head, p);
  }

  method PopFrontInPlace(pages: array<PageMetadata>, p: nat)
    requires p < pages.Length && NeighboursInRange(pages[..], p)
    modifies pages
    ensures pages[..] == PopFront(old(pages[..]), p)
  {
    if pages[p].next.Some? {
      var next := pages[p].next.value;
      pages[next] := pages[next].(prev := None);
    }
  }

  method GrantInPlace(pages: array<PageMetadata>, p: nat)
    requires p < pages.Length && NeighboursInRange(pages[..], p)
    modifies pages
    ensures pages[..] == Grant(old(pages[..]), p)
  {
    PopFrontInPlace(pages, p);
    pages[p] := pages[p].(state := Allocated);
    pages[p] := pages[p].(next := None);
    pages[p] := pages[p].(prev := None);
  }

  class PageAllocator {
    const cpu: Cpu
    const pageArray: Mutex<array<PageMetadata>>
    const free4: Mutex<Option<nat>>
    const free2: Mutex<Option<nat>>
    const kernelEnd: Mutex<nat>

    ghost var heap: Heap

    ghost predicate Separate() {
      && free4 != free2
      && (pageArray as object) != free4 && (pageArray as object) != free2
      && (kernelEnd as object) != free4 && (kernelEnd as object) != free2 && (kernelEnd as object) != pageArray
    }

    predicate Unlocked()
      reads pageArray, free4, free2, kernelEnd
    {
      !pageArray.locked && !free4.locked && !free2.locked && !kernelEnd.locked
    }

    /** The array and heads stand for `heap`. */
    ghost predicate Represented()
      reads this, pageArray, free4, free2, pageArray.data
    {
      Separate() && Refines(pageArray.data[..], free4.data, free2.data, heap)
    }

    /** The same, for a heap that satisfies the structural invariant. */
    ghost predicate Consistent(f: InFlight)
      reads this, pageArray, free4, free2, pageArray.data
    {
      Represented() && Inv(heap, f)
    }

    /** What holds between sequential calls. */
    ghost predicate Ready()
      reads this, pageArray, free4, free2, kernelEnd, pageArray.data
    {
      Consistent(Nothing) && Settled(heap) && Unlocked()
    }

    /** An allocator that manages nothing yet. */
    constructor (cpu: Cpu)
      ensures Ready() && this.cpu == cpu && heap == Heap([], [], [], [], [], {})
      ensures fresh(pageArray) && fresh(free4) && fresh(free2) && fresh(kernelEnd) && fresh(pageArray.data)
    {
      this.cpu := cpu;
      var none := new PageMetadata[0];
      pageArray := new Mutex(none);
      free4 := new Mutex(None);
      free2 := new Mutex(None);
      kernelEnd := new Mutex(0);
      heap := Heap([], [], [], [], [], {});
    }

    // ----- boot

    /** Sizes the metadata array, carves every available area and threads the lists. The address of
        the linker's end symbol and the size of one array entry are parameters. */
    method Init(areas: seq<MemoryArea>, kernelSymbol: nat, entryBytes: nat)
      requires Separate() && Unlocked() && FitsWord(areas, kernelSymbol, entryBytes)
      modifies this`heap, pageArray, free4, free2, kernelEnd, cpu
      ensures Represented() && Unlocked() && cpu.interrupts == old(cpu.interrupts) && fresh(pageArray.data)
      ensures DisjointAreas(areas) ==> Ready()
      ensures kernelEnd.data == FinalKernelEnd(areas, kernelSymbol, entryBytes)
      ensures heap == BootHeap(BootArray(areas, kernelSymbol, entryBytes))
      ensures ListedOnly(pageArray.data[..], heap.free4, heap.free2)
    {
      var totalPages, finalKernelEnd := BootSizes(areas, kernelSymbol, entryBytes);
      var pages := FreshPages(totalPages);
      var wrapper := pageArray.Lock(cpu);
      pageArray.Store(wrapper, pages);
      pageArray.Release(cpu, wrapper);
      var endGuard := kernelEnd.Lock(cpu);
      kernelEnd.Store(endGuard, finalKernelEnd);
      kernelEnd.Release(cpu, endGuard);
      CarveAndLink(areas);
    }

    /** init from the marking of areas on. */
    method CarveAndLink(areas: seq<MemoryArea>)
      requires Separate() && Unlocked() && pageArray.data.Length % 512 == 0
      requires pageArray.data[..] == seq(pageArray.data.Length, _ => FRESH_PAGE)
      modifies this`heap, pageArray`locked, free4, free2, kernelEnd`locked, cpu, pageArray.data
      ensures Represented() && Unlocked() && cpu.interrupts == old(cpu.interrupts)
      ensures DisjointAreas(areas) ==> Ready()
      ensures pageArray.data == old(pageArray.data)
      ensures heap == BootHeap(CarveAll(pageArray.data.Length, areas, kernelEnd.data / PAGE_SIZE_4KB, |areas|))
      ensures ListedOnly(pageArray.data[..], heap.free4, heap.free2)
    {
      forall p | 0 <= p < pageArray.data.Length
        ensures NoLinks(CarveAll(pageArray.data.Length, areas, kernelEnd.data / PAGE_SIZE_4KB, |areas|)[p])
      {
        CarveNoLinks(pageArray.data.Length, areas, kernelEnd.data / PAGE_SIZE_4KB, |areas|, p);
      }
      if DisjointAreas(areas) { CarveAllCarved(pageArray.data.Length, areas, kernelEnd.data / PAGE_SIZE_4KB); }
      MarkAll(areas);
      BuildLists();
    }

    /** init's second loop over the memory map. */
    method MarkAll(areas: seq<MemoryArea>)
      requires Separate() && Unlocked()
      requires pageArray.data[..] == CarveAll(pageArray.data.Length, areas, kernelEnd.data / PAGE_SIZE_4KB, 0)
      modifies pageArray`locked, kernelEnd`locked, cpu, pageArray.data
      ensures Unlocked() && cpu.interrupts == old(cpu.interrupts)
      ensures pageArray.data == old(pageArray.data)
      ensures pageArray.data[..] ==
              CarveAll(pageArray.data.Length, areas, kernelEnd.data / PAGE_SIZE_4KB, |areas|)
    {
      var i := 0;
      while i < |areas|
        invariant 0 <= i <= |areas| && Unlocked() && cpu.interrupts == old(cpu.interrupts)
        invariant pageArray.data == old(pageArray.data)
        invariant pageArray.data[..] ==
                  CarveAll(pageArray.data.Length, areas, kernelEnd.data / PAGE_SIZE_4KB, i)
      {
        if areas[i].typ == 1 {
          MarkAvailable(areas[i].baseAddr, areas[i].length);
        }
        i := i + 1;
      }
    }

    /** Carves one available area into superpages and single pages. */
    method MarkAvailable(base: nat, length: nat)
      requires Separate() && Unlocked()
      modifies pageArray`locked, kernelEnd`locked, cpu, pageArray.data
      ensures Unlocked() && cpu.interrupts == old(cpu.interrupts)
      ensures pageArray.data == old(pageArray.data)
      ensures var area := MemoryArea(base, length, 1, 0);
              pageArray.data[..] == CarveArea(old(pageArray.data[..]), area, kernelEnd.data / PAGE_SIZE_4KB)
    {
      var pageGuard := pageArray.Lock(cpu);
      var pages := pageArray.data;
      var startPfn := base / PAGE_SIZE_4KB;
      var endPfn := (base + length) / PAGE_SIZE_4KB;
      var kernelGuard := kernelEnd.Lock(cpu);
      var kernelPfn := kernelEnd.data / PAGE_SIZE_4KB;
      kernelEnd.Release(cpu, kernelGuard);
      CarveInPlace(pages, Max(startPfn, kernelPfn), endPfn);
      pageArray.Release(cpu, pageGuard);
    }

    /** Threads both lists through the array, highest frame first. */
    method BuildLists()
      requires Separate() && Unlocked() && pageArray.data.Length % 512 == 0
      modifies this`heap, pageArray`locked, free4, free2, cpu, pageArray.data
      ensures Represented() && Unlocked() && cpu.interrupts == old(cpu.interrupts)
      ensures Carved(old(pageArray.data[..])) ==> Ready()
      ensures pageArray.data == old(pageArray.data)
      ensures heap == BootHeap(old(pageArray.data[..]))
      ensures (forall p :: 0 <= p < pageArray.data.Length ==> NoLinks(old(pageArray.data[..])[p])) ==>
                ListedOnly(pageArray.data[..], heap.free4, heap.free2)
    {
      var pageGuard := pageArray.Lock(cpu);
      var pages := pageArray.data;
      ghost var m := pages[..];
      var head4, head2 := ThreadLists(pages);
      var guard4 := free4.Lock(cpu);
      free4.Store(guard4, head4);
      free4.Release(cpu, guard4);
      var guard2 := free2.Lock(cpu);
      free2.Store(guard2, head2);
      free2.Release(cpu, guard2);
      heap := BootHeap(m);
      if Carved(m) { BootHeapQuiet(m); }
      BootRefines(m, pages[..], head4, head2);
      if forall p :: 0 <= p < |m| ==> NoLinks(m[p]) { UnlistedKept(m, pages[..]); }
      pageArray.Release(cpu, pageGuard);
    }

    // ----- allocation

    method Alloc4KB() returns (r: Option<nat>)
      requires Consistent(Nothing) && Unlocked()
      modifies this`heap, pageArray`locked, free4, free2, cpu, pageArray.data
      ensures Consistent(Nothing) && Unlocked() && cpu.interrupts == old(cpu.interrupts)
      ensures pageArray.data == old(pageArray.data)
      ensures HeadsInRange(old(heap)) && heap == Alloc4(old(heap)).0
      ensures r == Runs.ToAddr(Alloc4(old(heap)).1)
      decreases if heap.free4 == [] then 1 else 0
    {
      HeadsOk(heap, Nothing);
      HeadWord(pageArray.data[..], free4.data, heap.free4);
      HeadWord(pageArray.data[..], free2.data, heap.free2);
      var head := free4.Lock(cpu);
      if free4.data.Some? {
        r := TakeHead4KB(head);
        return;
      }
      free4.Release(cpu, head);
      var check := free2.Lock(cpu);
      var has2MB := free2.data.Some?;
      free2.Release(cpu, check);
      if !has2MB {
        return None;
      }
      var split := Split2MB();
      if split {
        r := Alloc4KB();
      } else {
        r := None;
      }
    }

    /** The rest of alloc_4kb when its list is not empty: takes `head` held, drops it before the
        counter is updated, and so runs its last steps with interrupts as the caller had them. */
    method TakeHead4KB(head: MutexGuard<Option<nat>>) returns (r: Option<nat>)
      requires Consistent(Nothing) && heap.free4 != []
      requires head.mutex == free4 && free4.locked && !cpu.interrupts
      requires !pageArray.locked && !free2.locked && !kernelEnd.locked
      modifies this`heap, pageArray`locked, free4, cpu, pageArray.data
      ensures Consistent(Nothing) && Unlocked() && cpu.interrupts == head.interruptsWereEnabled
      ensures pageArray.data == old(pageArray.data)
      ensures HeadsInRange(old(heap)) && heap == TakeFree4(old(heap))
      ensures r == Some(Runs.Addr(old(heap).free4[0]))
    {
      var pages := pageArray.data;
      ghost var m := pages[..];
      Take4Refines(m, free4.data, free2.data, heap);
      TakeFree4Keeps(heap);
      HeadsOk(heap, Nothing);
      var pfn := free4.data.value;
      var pageGuard := pageArray.Lock(cpu);
      free4.Store(head, pages[pfn].next);
      GrantInPlace(pages, pfn);
      free4.Release(cpu, head);
      assert pageArray.locked && cpu.interrupts == head.interruptsWereEnabled;
      var spHead := (pfn / PAGES_PER_2MB) * PAGES_PER_2MB;
      assert pages[..] == Grant(m, pfn);
      if spHead < pages.Length {
        pages[spHead] := pages[spHead].(counter := SatSub(pages[spHead].counter));
      }
      assert pages[..] == SetCounter(Grant(m, pfn), Head(pfn), SatSub(Grant(m, pfn)[Head(pfn)].counter));
      heap := TakeFree4(heap);
      pageArray.Release(cpu, pageGuard);
      r := Some(pfn * PAGE_SIZE_4KB);
    }

    method Alloc2MB() returns (r: Option<nat>)
      requires Consistent(Nothing) && Unlocked()
      modifies this`heap, pageArray`locked, free2, cpu, pageArray.data
      ensures Consistent(Nothing) && Unlocked() && cpu.interrupts == old(cpu.interrupts)
      ensures pageArray.data == old(pageArray.data)
      ensures HeadsInRange(old(heap)) && heap == Alloc2(old(heap)).0
      ensures r == Runs.ToAddr(Alloc2(old(heap)).1)
    {
      HeadsOk(heap, Nothing);
      HeadWord(pageArray.data[..], free2.data, heap.free2);
      var head := free2.Lock(cpu);
      if free2.data.None? {
        free2.Release(cpu, head);
        return None;
      }
      var pfn := free2.data.value;
      var pageGuard := pageArray.Lock(cpu);
      var pages := pageArray.data;
      Take2Refines(pages[..], free4.data, free2.data, heap);
      TakeFree2Keeps(heap);
      free2.Store(head, pages[pfn].next);
      GrantInPlace(pages, pfn);
      heap := TakeFree2(heap);
      r := Some(pfn * PAGE_SIZE_4KB);
      pageArray.Release(cpu, pageGuard);
      free2.Release(cpu, head);
    }

    /** Breaks the head of the 2 MiB list into 512 pages, pushed in ascending order. */
    method Split2MB() returns (split: bool)
      requires Consistent(Nothing) && Unlocked()
      modifies this`heap, pageArray`locked, free4, free2, cpu, pageArray.data
      ensures Consistent(Nothing) && Unlocked() && cpu.interrupts == old(cpu.interrupts)
      ensures pageArray.data == old(pageArray.data)
      ensures HeadsInRange(old(heap)) && split == (old(heap).free2 != [])
      ensures heap == if split then Split(old(heap)) else old(heap)
    {
      HeadsOk(heap, Nothing);
      HeadWord(pageArray.data[..], free2.data, heap.free2);
      var head := free2.Lock(cpu);
      if free2.data.None? {
        free2.Release(cpu, head);
        return false;
      }
      var pfn := free2.data.value;
      var pageGuard := pageArray.Lock(cpu);
      var pages := pageArray.data;
      Take2Refines(pages[..], free4.data, free2.data, heap);
      DetachFree2Keeps(heap);
      free2.Store(head, pages[pfn].next);
      PopFrontInPlace(pages, pfn);
      heap := DetachFree2(heap);
      free2.Release(cpu, head);
      var head4 := free4.Lock(cpu);
      ScatterInPlace(pages, head4, pfn);
      free4.Release(cpu, head4);
      pageArray.Release(cpu, pageGuard);
      split := true;
    }

    /** split_2mb once both `page_array` and the 4 KiB list are held. */
    method ScatterInPlace(pages: array<PageMetadata>, head4: MutexGuard<Option<nat>>, pfn: nat)
      requires pageArray.data == pages && pageArray.locked && free4.locked && head4.mutex == free4
      requires Consistent(WholeBlock(pfn))
      modifies this`heap, free4`data, pages
      ensures Consistent(Nothing) && heap == Scatter(old(heap), pfn)
    {
      ScatterKeeps(heap, pfn);
      ScatterBeginRefines(pages[..], free4.data, free2.data, heap, pfn);
      pages[pfn] := pages[pfn].(counter := PAGES_PER_2MB);
      assert pages[..] == SetCounter(old(pages[..]), pfn, 512);
      ScatterLoop(pages, head4, pfn);
      heap := Scatter(heap, pfn);
    }

    method ScatterLoop(pages: array<PageMetadata>, head4: MutexGuard<Option<nat>>, pfn: nat)
      requires free4.locked && head4.mutex == free4 && free4 != free2
      requires Inv(heap, WholeBlock(pfn))
      requires Refines(pages[..], free4.data, free2.data, ScatterUpTo(heap, pfn, 0))
      modifies free4`data, pages
      ensures Refines(pages[..], free4.data, free2.data, ScatterUpTo(heap, pfn, 512))
    {
      var i := 0;
      while i < PAGES_PER_2MB
        invariant 0 <= i <= PAGES_PER_2MB
        invariant Refines(pages[..], free4.data, free2.data, ScatterUpTo(heap, pfn, i))
      {
        ScatterPage(pages, head4, pfn, i);
        i := i + 1;
      }
    }

    /** One iteration of that loop. */
    method ScatterPage(pages: array<PageMetadata>, head4: MutexGuard<Option<nat>>, pfn: nat, i: nat)
      requires free4.locked && head4.mutex == free4 && free4 != free2
      requires Inv(heap, WholeBlock(pfn)) && i < 512
      requires Refines(pages[..], free4.data, free2.data, ScatterUpTo(heap, pfn, i))
      modifies free4`data, pages
      ensures Refines(pages[..], free4.data, free2.data, ScatterUpTo(heap, pfn, i + 1))
    {
      var p := pfn + i;
      ScatterStepRefines(pages[..], free4.data, free2.data, heap, pfn, i);
      FreeAndPush(pages, free4.data, p);
      free4.Store(head4, Some(p));
    }

    // ----- release

    method Free4KBPage(pfn: nat)
      requires Consistent(Nothing) && Unlocked() && CanFree4(heap, pfn)
      modifies this`heap, pageArray`locked, free4, free2, cpu, pageArray.data
      ensures Consistent(Nothing) && Unlocked() && cpu.interrupts == old(cpu.interrupts)
      ensures pageArray.data == old(pageArray.data)
      ensures heap == Free4(old(heap), pfn)
    {
      var pageGuard := pageArray.Lock(cpu);
      var pages := pageArray.data;
      if pfn >= pages.Length || pages[pfn].state == Free4KB {
        pageArray.Release(cpu, pageGuard);
        return;
      }
      ghost var m := pages[..];
      MarkFreedRefines(m, free4.data, free2.data, heap, pfn);
      MarkFreedKeeps(heap, pfn);
      pages[pfn] := pages[pfn].(state := Free4KB);
      var spHead := (pfn / PAGES_PER_2MB) * PAGES_PER_2MB;
      var canMerge := false;
      if spHead < pages.Length {
        pages[spHead] := pages[spHead].(counter := SatAdd(pages[spHead].counter));
        canMerge := pages[spHead].counter == PAGES_PER_2MB;
      }
      assert pages[..] == SetCounter(SetState(m, pfn, Free4KB), Head(pfn), SatAdd(m[Head(pfn)].counter));
      heap := MarkFreed(heap, pfn);
      PushFreed4KB(pages, pfn);
      assert canMerge == (heap.counter[Head(pfn)] == 512);
      pageArray.Release(cpu, pageGuard);
      if canMerge {
        TryMergeBlock(pfn);
      }
    }

    /** The push of free_4kb, with `page_array` held. */
    method PushFreed4KB(pages: array<PageMetadata>, pfn: nat)
      requires pageArray.data == pages && pageArray.locked && !free4.locked && !cpu.interrupts
      requires Consistent(OnePage(pfn))
      modifies this`heap, free4, cpu, pages
      ensures Consistent(Nothing) && heap == PushFreed(old(heap), pfn)
      ensures pageArray.locked && !free4.locked && !cpu.interrupts
    {
      assert Flying(OnePage(pfn), pfn);
      ListsDisjoint(heap, OnePage(pfn));
      PushFreedKeeps(heap, pfn);
      Push4Refines(pages[..], free4.data, free2.data, heap, PushFreed(heap, pfn), pfn);
      var head := free4.Lock(cpu);
      PushFrontInPlace(pages, free4.data, pfn);
      free4.Store(head, Some(pfn));
      free4.Release(cpu, head);
      heap := PushFreed(heap, pfn);
    }

    method Free2MBPage(pfn: nat)
      requires Consistent(Nothing) && Unlocked() && CanFree2(heap, pfn)
      modifies this`heap, pageArray`locked, free2, cpu, pageArray.data
      ensures Consistent(Nothing) && Unlocked() && cpu.interrupts == old(cpu.interrupts)
      ensures pageArray.data == old(pageArray.data)
      ensures heap == Free2(old(heap), pfn)
    {
      var aligned := (pfn / PAGES_PER_2MB) * PAGES_PER_2MB;
      var pageGuard := pageArray.Lock(cpu);
      var pages := pageArray.data;
      if pages[aligned].state == Free2MB {
        pageArray.Release(cpu, pageGuard);
        return;
      }
      ghost var m := pages[..];
      MarkFreed2Refines(m, free4.data, free2.data, heap, aligned);
      MarkFreed2Keeps(heap, aligned);
      pages[aligned] := pages[aligned].(state := Free2MB);
      pages[aligned] := pages[aligned].(counter := PAGES_PER_2MB);
      assert pages[..] == Word2MB(m, aligned);
      heap := MarkFreed2(heap, aligned);
      PushFreed2MB(pages, aligned);
      pageArray.Release(cpu, pageGuard);
    }

    /** The push that ends free_2mb and try_merge, with `page_array` held. */
    method PushFreed2MB(pages: array<PageMetadata>, aligned: nat)
      requires pageArray.data == pages && pageArray.locked && !free2.locked && !cpu.interrupts
      requires Consistent(WholeBlock(aligned))
      modifies this`heap, free2, cpu, pages
      ensures Consistent(Nothing) && heap == PushBlock(old(heap), aligned)
      ensures pageArray.locked && !free2.locked && !cpu.interrupts
    {
      assert Flying(WholeBlock(aligned), aligned);
      ListsDisjoint(heap, WholeBlock(aligned));
      PushBlockKeeps(heap, aligned);
      Push2Refines(pages[..], free4.data, free2.data, heap, PushBlock(heap, aligned), aligned);
      var head := free2.Lock(cpu);
      PushFrontInPlace(pages, free2.data, aligned);
      free2.Store(head, Some(aligned));
      free2.Release(cpu, head);
      heap := PushBlock(heap, aligned);
    }

    method TryMergeBlock(pfn: nat)
      requires Consistent(Nothing) && Unlocked() && pfn < |heap.state|
      modifies this`heap, pageArray`locked, free4, free2, cpu, pageArray.data
      ensures Consistent(Nothing) && Unlocked() && cpu.interrupts == old(cpu.interrupts)
      ensures pageArray.data == old(pageArray.data)
      ensures heap == TryMerge(old(heap), pfn)
    {
      var spHead := (pfn / PAGES_PER_2MB) * PAGES_PER_2MB;
      var pageGuard := pageArray.Lock(cpu);
      var pages := pageArray.data;
      var free := ScanBlock(pages, spHead);
      if !free {
        assert !AllFree(heap.state, spHead, spHead + 512);
        pageArray.Release(cpu, pageGuard);
        return;
      }
      assert AllFree(heap.state, spHead, spHead + 512);
      UnlinkBlock(pages, spHead);
      ghost var m := pages[..];
      MarkMergedRefines(m, free4.data, free2.data, heap, spHead);
      MarkMergedKeeps(heap, spHead);
      pages[spHead] := pages[spHead].(state := Free2MB);
      pages[spHead] := pages[spHead].(counter := PAGES_PER_2MB);
      assert pages[..] == Word2MB(m, spHead);
      heap := MarkMerged(heap, spHead);
      PushFreed2MB(pages, spHead);
      pageArray.Release(cpu, pageGuard);
    }

    /** try_merge's removal of all 512 pages from the 4 KiB list, wherever they sit in it. */
    method UnlinkBlock(pages: array<PageMetadata>, spHead: nat)
      requires pageArray.data == pages && pageArray.locked && !free4.locked && !cpu.interrupts
      requires Consistent(Nothing) && spHead % 512 == 0 && spHead + 512 <= |heap.state|
      requires AllFree(heap.state, spHead, spHead + 512)
      modifies this`heap, free4, cpu, pages
      ensures Consistent(Prefix(spHead, 512)) && heap == UnlinkUpTo(old(heap), spHead, 512)
      ensures heap.free4 == Without(old(heap).free4, spHead, spHead + 512)
      ensures pageArray.locked && !free4.locked && !cpu.interrupts
    {
      ghost var a := heap;
      ScanIsSafe(a, spHead);
      UnlinkUpToKeeps(a, spHead, 0);
      WithoutNone(a.free4, spHead, spHead);
      assert UnlinkUpTo(a, spHead, 0).owner == a.owner;
      assert UnlinkUpTo(a, spHead, 0) == a;
      var i := 0;
      while i < PAGES_PER_2MB
        invariant 0 <= i <= PAGES_PER_2MB
        invariant Consistent(Prefix(spHead, i)) && heap == UnlinkUpTo(a, spHead, i)
        invariant pageArray.data == pages && pageArray.locked && !free4.locked && !cpu.interrupts
      {
        UnlinkStep(pages, spHead, i);
        UnlinkOneMore(a, spHead, i);
        i := i + 1;
      }
    }

    method UnlinkStep(pages: array<PageMetadata>, spHead: nat, i: nat)
      requires pageArray.data == pages && pageArray.locked && !free4.locked && !cpu.interrupts
      requires Consistent(Prefix(spHead, i)) && i < 512
      modifies this`heap, free4, cpu, pages
      ensures Consistent(Prefix(spHead, i + 1)) && heap == UnlinkPage(old(heap), spHead + i)
      ensures !free4.locked && !cpu.interrupts
    {
      UnlinkPageKeeps(heap, spHead, i);
      ListsDisjoint(heap, Prefix(spHead, i));
      UnlinkRefines(pages[..], free4.data, free2.data, heap, spHead + i);
      UnlinkInPlace(pages, spHead + i);
      heap := UnlinkPage(heap, spHead + i);
    }

    /** One iteration of that loop; the list head is locked only when it has to move. */
    method UnlinkInPlace(pages: array<PageMetadata>, p: nat)
      requires p < pages.Length && NeighboursInRange(pages[..], p) && !free4.locked && !cpu.interrupts
      modifies free4, cpu, pages
      ensures pages[..] == Unlink(old(pages[..]), p)
      ensures free4.data == if old(pages[p].prev).Some? then old(free4.data) else old(pages[p].next)
      ensures !free4.locked && !cpu.interrupts
    {
      var prev := pages[p].prev;
      var next := pages[p].next;
      if prev.Some? {
        pages[prev.value] := pages[prev.value].(next := next);
      } else {
        var head := free4.Lock(cpu);
        free4.Store(head, next);
        free4.Release(cpu, head);
      }
      if next.Some? {
        pages[next.value] := pages[next.value].(prev := prev);
      }
      pages[p] := pages[p].(next := None);
      pages[p] := pages[p].(prev := None);
    }

    // ----- the public entry points

    method AllocatePage(size: PageSize) returns (r: Option<nat>)
      requires Ready()
      modifies this`heap, pageArray`locked, free4, free2, cpu, pageArray.data
      ensures Ready() && cpu.interrupts == old(cpu.interrupts)
      ensures pageArray.data == old(pageArray.data)
      ensures HeadsInRange(old(heap)) && (heap, r) == Runs.AllocatePage(old(heap), size)
    {
      Alloc4Keeps(heap);
      Alloc2Keeps(heap);
      match size
      case Size4KB => r := Alloc4KB();
      case Size2MB => r := Alloc2MB();
    }

    method FreePage(addr: nat, size: PageSize)
      requires Ready() && Runs.CanFreePage(heap, addr, size)
      modifies this`heap, pageArray`locked, free4, free2, cpu, pageArray.data
      ensures Ready() && cpu.interrupts == old(cpu.interrupts)
      ensures pageArray.data == old(pageArray.data)
      ensures heap == Runs.FreePage(old(heap), addr, size)
    {
      var pfn := addr / PAGE_SIZE_4KB;
      match size
      case Size4KB =>
        Free4Keeps(heap, pfn);
        Free4KBPage(pfn);
      case Size2MB =>
        Free2Keeps(heap, pfn);
        Free2MBPage(pfn);
    }
  }

  /** try_merge's scan. */
  method ScanBlock(pages: array<PageMetadata>, spHead: nat) returns (free: bool)
    requires spHead + 512 <= pages.Length
    ensures free <==> forall p :: spHead <= p < spHead + 512 ==> pages[p].state == Free4KB
  {
    var i := 0;
    while i < PAGES_PER_2MB
      invariant 0 <= i <= PAGES_PER_2MB
      invariant forall p :: spHead <= p < spHead + i ==> pages[p].state == Free4KB
    {
      if pages[spHead + i].state != Free4KB {
        return false;
      }
      i := i + 1;
    }
    return true;
  }

  /** init's first loop over the memory map. */
  method MaxAddress(areas: seq<MemoryArea>) returns (actualMax: nat)
    ensures actualMax == ActualMax(areas, |areas|)
    ensures forall i :: 0 <= i < |areas| && areas[i].typ == 1 ==> areas[i].baseAddr + areas[i].length <= actualMax
    ensures actualMax == 0
            || exists i :: 0 <= i < |areas| && areas[i].typ == 1 && actualMax == areas[i].baseAddr + areas[i].length
  {
    actualMax := 0;
    var i := 0;
    while i < |areas|
      invariant 0 <= i <= |areas| && actualMax == ActualMax(areas, i)
    {
      if areas[i].typ == 1 {
        var endAddr := areas[i].baseAddr + areas[i].length;
        if endAddr > actualMax {
          actualMax := endAddr;
        }
      }
      i := i + 1;
    }
    forall j | 0 <= j < |areas| && areas[j].typ == 1 ensures areas[j].baseAddr + areas[j].length <= actualMax {
      MaxIsBound(areas, |areas|, j);
    }
    MaxIsSomeEnd(areas, |areas|);
  }

  /** init's arithmetic: the array length and where memory free for allocation begins. */
  method BootSizes(areas: seq<MemoryArea>, kernelSymbol: nat, entryBytes: nat)
    returns (totalPages: nat, finalKernelEnd: nat)
    requires FitsWord(areas, kernelSymbol, entryBytes)
    ensures totalPages == TotalPages(areas) && totalPages % 512 == 0 && Reaches(areas, totalPages)
    ensures finalKernelEnd == FinalKernelEnd(areas, kernelSymbol, entryBytes)
    ensures kernelSymbol + totalPages * entryBytes <= finalKernelEnd
  {
    var actualMax := MaxAddress(areas);
    Granularities();
    var maxAddr := AlignUp(actualMax, PAGE_SIZE_2MB, 21);
    totalPages := maxAddr / PAGE_SIZE_4KB;
    TotalIsLeast(areas);
    KernelBelow(areas, kernelSymbol, entryBytes);
    var kernelPages := AlignUp(kernelSymbol, PAGE_SIZE_4KB, 12);
    var metadataSize := totalPages * entryBytes;
    finalKernelEnd := AlignUp(kernelPages + metadataSize, PAGE_SIZE_4KB, 12);
  }

  method FreshPages(totalPages: nat) returns (pages: array<PageMetadata>)
    ensures fresh(pages) && pages[..] == seq(totalPages, _ => FRESH_PAGE)
  {
    pages := new PageMetadata[totalPages](_ => FRESH_PAGE);
  }

  /** mark_available's loop over the frames of one area. */
  method CarveInPlace(pages: array<PageMetadata>, lo: nat, endPfn: nat)
    modifies pages
    ensures pages[..] == CarveRange(old(pages[..]), lo, Min(endPfn, pages.Length))
  {
    var pfn := lo;
    ghost var hi := Min(endPfn, pages.Length);
    ghost var m := pages[..];
    HeadUnique(lo, Head(lo));
    while pfn < endPfn && pfn < pages.Length
      invariant CarvedUpTo(pages[..], m, lo, hi, pfn)
    {
      var addr := pfn * PAGE_SIZE_4KB;
      AlignedFrame(pfn);
      CarveStep(m, lo, hi, pfn);
      if addr % PAGE_SIZE_2MB == 0 && pfn + PAGES_PER_2MB <= endPfn && pfn + PAGES_PER_2MB <= pages.Length {
        CarveSuperpage(pages, pfn, lo, hi);
        pfn := pfn + PAGES_PER_2MB;
      } else {
        pages[pfn] := pages[pfn].(state := Free4KB);
        pfn := pfn + 1;
      }
    }
  }

  method CarveSuperpage(pages: array<PageMetadata>, pfn: nat, ghost lo: nat, ghost hi: nat)
    requires pfn % 512 == 0 && FullBlock(lo, hi, pfn) && hi <= pages.Length
    modifies pages
    ensures forall p :: 0 <= p < pages.Length ==>
              pages[p] == if InBlock(pfn, p) then CarveWord(old(pages[p]), lo, hi, p) else old(pages[p])
  {
    pages[pfn] := pages[pfn].(state := Free2MB);
    pages[pfn] := pages[pfn].(counter := PAGES_PER_2MB);
    var i := 1;
    while i < PAGES_PER_2MB
      invariant 1 <= i <= PAGES_PER_2MB
      invariant pages[pfn] == old(pages[pfn]).(state := Free2MB, counter := 512)
      invariant forall p :: 0 <= p < pages.Length && p != pfn ==>
                  pages[p] == if pfn < p < pfn + i then old(pages[p]).(state := Unavailable) else old(pages[p])
    {
      pages[pfn + i] := pages[pfn + i].(state := Unavailable);
      i := i + 1;
    }
  }

  /** build_lists' loop over the whole array. */
  method ThreadLists(pages: array<PageMetadata>) returns (head4: Option<nat>, head2: Option<nat>)
    modifies pages
    ensures var m := old(pages[..]);
            Linked(pages[..], head4, DescWhere(m, Free4KB, |m|))
            && Linked(pages[..], head2, DescWhere(m, Free2MB, |m|))
            && SameWords(pages[..], m)
            && forall p :: 0 <= p < |m| && m[p].state != Free4KB && m[p].state != Free2MB ==> pages[p] == m[p]
  {
    ghost var m := pages[..];
    head4, head2 := None, None;
    var pfn := 0;
    while pfn < pages.Length
      invariant 0 <= pfn <= pages.Length
      invariant SameWords(pages[..], m)
      invariant Linked(pages[..], head4, DescWhere(m, Free4KB, pfn))
      invariant Linked(pages[..], head2, DescWhere(m, Free2MB, pfn))
      invariant forall p :: 0 <= p < |m| && m[p].state != Free4KB && m[p].state != Free2MB ==> pages[p] == m[p]
    {
      head4, head2 := ThreadPage(pages, head4, head2, pfn, m);
      pfn := pfn + 1;
    }
  }

  method ThreadPage(pages: array<PageMetadata>, h4: Option<nat>, h2: Option<nat>, pfn: nat, ghost m: seq<PageMetadata>)
    returns (head4: Option<nat>, head2: Option<nat>)
    requires pfn < pages.Length && SameWords(pages[..], m)
    requires Linked(pages[..], h4, DescWhere(m, Free4KB, pfn))
    requires Linked(pages[..], h2, DescWhere(m, Free2MB, pfn))
    modifies pages
    ensures SameWords(pages[..], m)
    ensures Linked(pages[..], head4, DescWhere(m, Free4KB, pfn + 1))
    ensures Linked(pages[..], head2, DescWhere(m, Free2MB, pfn + 1))
    ensures forall p :: 0 <= p < |m| && m[p].state != Free4KB && m[p].state != Free2MB ==> pages[p] == old(pages[p])
  {
    head4, head2 := h4, h2;
    ghost var n := pages[..];
    ghost var s4, s2 := DescWhere(m, Free4KB, pfn), DescWhere(m, Free2MB, pfn);
    DescWhereFacts(m, Free4KB, pfn);
    DescWhereFacts(m, Free2MB, pfn);
    assert pages[pfn].state == m[pfn].state;
    match pages[pfn].state
    case Free4KB =>
      HeadWord(n, h4, s4);
      PushFrontLinked(n, h4, s4, pfn);
      LinkedFrame(n, PushFront(n, h4, pfn), h2, s2);
      PushFrontInPlace(pages, h4, pfn);
      head4 := Some(pfn);
    case Free2MB =>
      HeadWord(n, h2, s2);
      PushFrontLinked(n, h2, s2, pfn);
      LinkedFrame(n, PushFront(n, h2, pfn), h4, s4);
      PushFrontInPlace(pages, h2, pfn);
      head2 := Some(pfn);
    case _ =>
  }
}
