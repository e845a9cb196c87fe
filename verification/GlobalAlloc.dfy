/** The global allocator front end: layouts to page sizes, and the memory set-up that precedes it. */
module GlobalAlloc {
  import opened PageModel
  import opened Sequential
  import opened Runs
  import opened RunTheorems
  import opened Reachability
  import opened Multiboot2
  import opened Carve
  import opened BootTheorems
  import opened Bits
  import Allocator

  datatype Layout = Layout(size: nat, align: nat)

  const NULL: nat := 0

  /** One 4 KiB page up to that size, one 2 MiB page for everything larger. */
  function ClassOf(size: nat): PageSize {
    if size <= 4096 then Size4KB else Size2MB
  }

  /** That is the smallest page that holds the object, if any does; what none holds gets a superpage. */
  lemma ClassIsSmallest(size: nat)
    ensures size <= PAGE_SIZE_2MB ==>
              size <= Bytes(ClassOf(size))
              && forall s: PageSize :: size <= Bytes(s) ==> Bytes(ClassOf(size)) <= Bytes(s)
    ensures size > PAGE_SIZE_2MB ==> ClassOf(size) == Size2MB
    ensures 0 < size <= 4096 ==> Bytes(ClassOf(size)) == 4096
    ensures size > 4096 ==> Bytes(ClassOf(size)) == 2097152
  {}

  function ToPointer(r: Option<nat>): nat {
    match r case None => NULL case Some(addr) => addr
  }

  /** No list has a page for a request of this class. */
  predicate Exhausted(a: Heap, size: PageSize) {
    a.free2 == [] && (size == Size4KB ==> a.free4 == [])
  }

  /** As long as page zero is not the allocator's, a null pointer means failure and nothing else. */
  lemma NullIffExhausted(a: Heap, size: PageSize)
    requires Quiet(a) && 0 !in Managed(a)
    ensures HeadsInRange(a)
    ensures ToPointer(AllocatePage(a, size).1) == NULL <==> Exhausted(a, size)
  {
    if size == Size4KB { Alloc4Keeps(a); } else { Alloc2Keeps(a); }
    var r := if size == Size4KB then Alloc4(a).1 else Alloc2(a).1;
    if r.Some? {
      assert size == Size2MB ==> InBlock(r.value, r.value);
      assert r.value in Managed(a);
    }
  }

  class SimpleAllocator {
    const pages: Allocator.PageAllocator

    constructor (pages: Allocator.PageAllocator)
      ensures this.pages == pages
    {
      this.pages := pages;
    }

    method Alloc(layout: Layout) returns (ptr: nat)
      requires pages.Ready()
      modifies pages`heap, pages.pageArray`locked, pages.free4, pages.free2, pages.cpu, pages.pageArray.data
      ensures pages.Ready() && pages.cpu.interrupts == old(pages.cpu.interrupts)
      ensures pages.pageArray.data == old(pages.pageArray.data)
      ensures layout.size == 0 ==> ptr == NULL && pages.heap == old(pages.heap)
      ensures layout.size > 0 ==>
                HeadsInRange(old(pages.heap))
                && var (b, r) := AllocatePage(old(pages.heap), ClassOf(layout.size));
                   pages.heap == b && ptr == ToPointer(r)
      ensures 1 <= layout.size <= 4096 ==>
                HeadsInRange(old(pages.heap)) && pages.heap == Alloc4(old(pages.heap)).0
                && ptr == match Alloc4(old(pages.heap)).1 case Some(p) => p * 4096 case None => 0
      ensures layout.size > 4096 ==>
                HeadsInRange(old(pages.heap)) && pages.heap == Alloc2(old(pages.heap)).0
                && ptr == match Alloc2(old(pages.heap)).1 case Some(p) => p * 4096 case None => 0
      ensures 0 !in Managed(old(pages.heap)) ==>
                (ptr == NULL <==> layout.size == 0 || Exhausted(old(pages.heap), ClassOf(layout.size)))
    {
      if 0 !in Managed(pages.heap) { NullIffExhausted(pages.heap, ClassOf(layout.size)); }
      if layout.size == 0 {
        return NULL;
      }
      var r;
      if layout.size <= 4096 {
        r := pages.AllocatePage(Size4KB);
      } else if layout.size <= 2 * 1024 * 1024 {
        r := pages.AllocatePage(Size2MB);
      } else {
        r := pages.AllocatePage(Size2MB);
      }
      match r
      case Some(addr) => ptr := addr;
      case None => ptr := NULL;
    }

    method Dealloc(ptr: nat, layout: Layout)
      requires pages.Ready()
      requires layout.size > 0 ==> CanFreePage(pages.heap, ptr, ClassOf(layout.size))
      modifies pages`heap, pages.pageArray`locked, pages.free4, pages.free2, pages.cpu, pages.pageArray.data
      ensures pages.Ready() && pages.cpu.interrupts == old(pages.cpu.interrupts)
      ensures pages.pageArray.data == old(pages.pageArray.data)
      ensures pages.heap == if layout.size == 0 then old(pages.heap)
                            else FreePage(old(pages.heap), ptr, ClassOf(layout.size))
      ensures 1 <= layout.size <= 4096 ==> pages.heap == Free4(old(pages.heap), ptr / 4096)
      ensures layout.size > 4096 ==>
                ptr / 4096 < |old(pages.heap).state| && pages.heap == Free2(old(pages.heap), ptr / 4096)
    {
      if layout.size == 0 {
        return;
      }
      if layout.size <= 4096 {
        pages.FreePage(ptr, Size4KB);
      } else {
        pages.FreePage(ptr, Size2MB);
      }
    }
  }

  // ----- memory::init

  datatype InitResult = Ready | NoBootInfo | NoMemoryMap

  /** Finds the memory map and initialises the page allocator; the two failures are the panics of
      the source. `mem` is the memory at the boot information address. */
  method MemoryInit(pages: Allocator.PageAllocator, infoAddr: nat, mem: seq<Byte>, kernelSymbol: nat, entryBytes: nat,
                    ghost tags: seq<Tag>, ghost areas: seq<MemoryArea>, ghost entrySize: nat)
    returns (r: InitResult)
    requires pages.Separate() && pages.Unlocked()
    requires infoAddr != 0 ==>
               infoAddr % 8 == 0 && infoAddr + |mem| + 8 <= WORD && Laid(mem, tags)
               && (match FirstOfType(tags, TAG_TYPE_MMAP, |tags|)
                   case None => true
                   case Some(i) => MapAt(mem, TagOffset(tags, i), entrySize, areas))
    requires FitsWord(areas, kernelSymbol, entryBytes)
    modifies pages`heap, pages.pageArray, pages.free4, pages.free2, pages.kernelEnd, pages.cpu
    ensures r == NoBootInfo <==> infoAddr == 0
    ensures r == NoMemoryMap <==> infoAddr != 0 && forall i :: 0 <= i < |tags| ==> tags[i].typ != 6
    ensures r != Ready ==> pages.heap == old(pages.heap)
    ensures r == Ready ==>
              pages.Represented() && pages.Unlocked() && (DisjointAreas(areas) ==> pages.Ready())
              && pages.cpu.interrupts == old(pages.cpu.interrupts)
              && pages.kernelEnd.data == FinalKernelEnd(areas, kernelSymbol, entryBytes)
              && pages.heap == BootHeap(BootArray(areas, kernelSymbol, entryBytes))
  {
    if infoAddr == 0 {
      return NoBootInfo;
    }
    var mmap := MemoryMap(mem, infoAddr, tags, areas, entrySize);
    match mmap
    case None => r := NoMemoryMap;
    case Some(found) =>
      pages.Init(found, kernelSymbol, entryBytes);
      r := Ready;
  }

  // ----- runs of alloc and dealloc

  datatype Call = New(layout: Layout) | Delete(ptr: nat)

  /** The allocator's world and the layout each live object was allocated with, by page frame. */
  datatype Objects = Objects(world: World, layouts: map<nat, Layout>)

  predicate ObjectOk(live: map<nat, PageSize>, layouts: map<nat, Layout>, p: nat)
    requires p in layouts
  {
    layouts[p].size > 0 && p in live && live[p] == ClassOf(layouts[p].size)
  }

  /** Objects and live frames correspond, with the page size their layout asks for. */
  ghost predicate LayoutsOk(live: map<nat, PageSize>, layouts: map<nat, Layout>) {
    && (forall p :: p in layouts ==> ObjectOk(live, layouts, p))
    && (forall p :: p in live ==> p in layouts)
  }

  ghost predicate ObjectsOk(o: Objects) {
    WorldOk(o.world) && LayoutsOk(o.world.live, o.layouts)
  }

  /** A pointer that was handed out is given back, with the layout it was requested with. */
  predicate Allowed(o: Objects, c: Call) {
    c.Delete? ==> var p := c.ptr / PAGE_SIZE_4KB; c.ptr == Addr(p) && p in o.layouts
  }

  /** The page-level call behind an object-level call. */
  function Behind(o: Objects, c: Call): Runs.Call
    requires Allowed(o, c)
  {
    match c
    case New(layout) => Allocate(ClassOf(layout.size))
    case Delete(ptr) => Release(ptr, ClassOf(o.layouts[ptr / PAGE_SIZE_4KB].size))
  }

  /** dealloc always picks the class alloc used: it frees exactly what was taken. */
  lemma DeallocMatches(o: Objects, c: Call)
    requires ObjectsOk(o) && Allowed(o, c)
    ensures Matched(o.world, Behind(o, c))
  {
    if c.Delete? { assert ObjectOk(o.world.live, o.layouts, c.ptr / PAGE_SIZE_4KB); }
  }

  ghost function NextObjects(o: Objects, c: Call): Objects
    requires ObjectsOk(o) && Allowed(o, c)
  {
    DeallocMatches(o, c);
    NextKeeps(o.world, Behind(o, c));
    match c
    case New(layout) =>
      if layout.size == 0 then o
      else
        var r := AllocatePage(o.world.heap, ClassOf(layout.size)).1;
        Objects(Next(o.world, Behind(o, c)),
                if r.Some? then o.layouts[r.value / PAGE_SIZE_4KB := layout] else o.layouts)
    case Delete(ptr) => Objects(Next(o.world, Behind(o, c)), o.layouts - {ptr / PAGE_SIZE_4KB})
  }

  lemma NextObjectsOk(o: Objects, c: Call)
    requires ObjectsOk(o) && Allowed(o, c)
    ensures ObjectsOk(NextObjects(o, c)) && GoodNext(o.world, NextObjects(o, c).world)
  {
    DeallocMatches(o, c);
    NextKeeps(o.world, Behind(o, c));
    match c
    case New(layout) =>
      var r := AllocatePage(o.world.heap, ClassOf(layout.size)).1;
      if layout.size > 0 && r.Some? { LayoutGained(o.world.live, o.layouts, r.value / PAGE_SIZE_4KB, layout); }
    case Delete(ptr) =>
      LayoutLost(o.world.live, o.layouts, ptr / PAGE_SIZE_4KB);
  }

  lemma LayoutGained(live: map<nat, PageSize>, layouts: map<nat, Layout>, p: nat, layout: Layout)
    requires LayoutsOk(live, layouts) && layout.size > 0
    ensures LayoutsOk(live[p := ClassOf(layout.size)], layouts[p := layout])
  {
    var live', layouts' := live[p := ClassOf(layout.size)], layouts[p := layout];
    forall q | q in layouts' ensures ObjectOk(live', layouts', q) {
      if q != p { assert ObjectOk(live, layouts, q); }
    }
  }

  lemma LayoutLost(live: map<nat, PageSize>, layouts: map<nat, Layout>, p: nat)
    requires LayoutsOk(live, layouts)
    ensures LayoutsOk(live - {p}, layouts - {p})
  {
    forall q | q in layouts - {p} ensures ObjectOk(live - {p}, layouts - {p}, q) {
      assert ObjectOk(live, layouts, q);
    }
  }

  ghost predicate AllowedRun(o: Objects, cs: seq<Call>)
    requires ObjectsOk(o)
    decreases |cs|
  {
    cs == [] || (Allowed(o, cs[0]) && (NextObjectsOk(o, cs[0]); AllowedRun(NextObjects(o, cs[0]), cs[1..])))
  }

  ghost function RunObjects(o: Objects, cs: seq<Call>): Objects
    requires ObjectsOk(o) && AllowedRun(o, cs)
    decreases |cs|
  {
    if cs == [] then o else NextObjectsOk(o, cs[0]); RunObjects(NextObjects(o, cs[0]), cs[1..])
  }

  lemma {:induction false} RunObjectsOk(o: Objects, cs: seq<Call>)
    requires ObjectsOk(o) && AllowedRun(o, cs)
    ensures ObjectsOk(RunObjects(o, cs)) && GoodNext(o.world, RunObjects(o, cs).world)
    decreases |cs|
  {
    if cs != [] {
      NextObjectsOk(o, cs[0]);
      RunObjectsOk(NextObjects(o, cs[0]), cs[1..]);
      Compose(o.world, NextObjects(o, cs[0]).world, RunObjects(o, cs).world);
    }
  }

  // ----- what callers may rely on

  /** After any run, an object of at most 2 MiB ends before the next object begins, whatever the size of
      that one, and every object is aligned as requested if the alignment divides its page size. */
  lemma ObjectsApart(o: Objects, cs: seq<Call>, p: nat, q: nat)
    requires ObjectsOk(o) && AllowedRun(o, cs)
    requires p in RunObjects(o, cs).layouts && q in RunObjects(o, cs).layouts
    ensures var l := RunObjects(o, cs).layouts;
            (Addr(p) < Addr(q) && l[p].size <= PAGE_SIZE_2MB ==> Addr(p) + l[p].size <= Addr(q))
            && (l[p].align > 0 && Bytes(ClassOf(l[p].size)) % l[p].align == 0 ==> Addr(p) % l[p].align == 0)
  {
    RunObjectsOk(o, cs);
    var n := RunObjects(o, cs);
    TwoObjects(n, p, q);
    var a := n.layouts[p].align;
    if a > 0 && Bytes(ClassOf(n.layouts[p].size)) % a == 0 {
      ObjectAligned(n, p);
      MultipleOf(Addr(p), Bytes(ClassOf(n.layouts[p].size)), a);
    }
  }

  lemma TwoObjects(n: Objects, p: nat, q: nat)
    requires ObjectsOk(n) && p in n.layouts && q in n.layouts
    ensures Addr(p) < Addr(q) && n.layouts[p].size <= PAGE_SIZE_2MB ==> Addr(p) + n.layouts[p].size <= Addr(q)
  {
    assert ObjectOk(n.world.live, n.layouts, p) && ObjectOk(n.world.live, n.layouts, q);
    if p != q { LiveDisjoint(n.world, p, q); }
  }

  lemma ObjectAligned(n: Objects, p: nat)
    requires ObjectsOk(n) && p in n.layouts
    ensures Addr(p) % Bytes(ClassOf(n.layouts[p].size)) == 0
  {
    assert ObjectOk(n.world.live, n.layouts, p);
    assert Fits(n.world.heap, p, n.world.live[p]);
    AddrAligned(p, n.world.live[p]);
  }

  lemma AddrAligned(p: nat, size: PageSize)
    requires size == Size2MB ==> p % 512 == 0
    ensures Addr(p) % Bytes(size) == 0
  {
    AlignedFrame(p);
  }

  lemma MultipleOf(x: nat, b: nat, a: nat)
    requires a > 0 && b > 0 && b % a == 0 && x % b == 0
    ensures x % a == 0
  {
    var p, k := x / b, b / a;
    assert b == a * k;
    assert x == b * p;
    assert x == a * (k * p) + 0;
    ModUnique(x, a, k * p, 0);
  }

  // ----- requests larger than a superpage

  /** Objects of layout l end before the next object begins. */
  ghost predicate KeptApart(n: Objects, l: Layout) {
    forall p, q :: p in n.layouts && q in n.layouts && p < q && n.layouts[p] == l ==> Addr(p) + l.size <= Addr(q)
  }

  /** With exactly two adjacent superpages in reserve, two requests get one each. */
  lemma TwoSuperpages(o: Objects, u: Objects, n: Objects, l: Layout, h: nat)
    requires NoDup(o.world.heap.free2) && h in o.world.heap.free2 && h + 512 in o.world.heap.free2
    requires forall q :: q in o.world.heap.free2 ==> q == h || q == h + 512
    requires GotSuperpage(o, u, l) && (u.world.heap.free2 != [] ==> GotSuperpage(u, n, l))
    ensures h in n.layouts && h + 512 in n.layouts && n.layouts[h] == l && n.layouts[h + 512] == l
  {
    TwoElements(o.world.heap.free2, h);
  }

  ghost predicate GotSuperpage(o: Objects, u: Objects, l: Layout)
    requires o.world.heap.free2 != []
  {
    u.layouts == o.layouts[o.world.heap.free2[0] := l] && u.world.heap.free2 == o.world.heap.free2[1..]
  }

  lemma TwoElements(s: seq<nat>, h: nat)
    requires NoDup(s) && h in s && h + 512 in s && forall q :: q in s ==> q == h || q == h + 512
    ensures |s| >= 2 && s[0] in {h, h + 512} && s[1] in {h, h + 512} && s[0] != s[1]
  {
    var i :| 0 <= i < |s| && s[i] == h;
    var j :| 0 <= j < |s| && s[j] == h + 512;
    assert s[0] in s && s[1] in s;
  }

  lemma NewSuperpage(o: Objects, l: Layout)
    requires ObjectsOk(o) && ClassOf(l.size) == Size2MB && o.world.heap.free2 != []
    ensures ObjectsOk(NextObjects(o, New(l))) && GotSuperpage(o, NextObjects(o, New(l)), l)
  {
    NextKeeps(o.world, Allocate(Size2MB));
    AddrFrame(o.world.heap.free2[0]);
    NextObjectsOk(o, New(l));
  }

  // ----- from boot

  function BootObjects(a: Heap): Objects { Objects(World(a, map[]), map[]) }

  /** In every run from boot the allocator answers null exactly if no list can serve the request: page
      zero lies below the kernel and is never handed out. */
  lemma NullAfterBoot(a: Heap, areas: seq<MemoryArea>, end: nat, cs: seq<Call>, layout: Layout)
    requires CarvedFrom(a, areas, end) && end > 0
    requires ObjectsOk(BootObjects(a)) && AllowedRun(BootObjects(a), cs)
    ensures var b := RunObjects(BootObjects(a), cs).world.heap;
            Shaped(b) && HeadsInRange(b) && 0 !in Managed(b)
            && (ToPointer(AllocatePage(b, ClassOf(layout.size)).1) == NULL <==> Exhausted(b, ClassOf(layout.size)))
  {
    var b := RunObjects(BootObjects(a), cs).world.heap;
    RunObjectsOk(BootObjects(a), cs);
    assert !PageAvailable(areas, end, 0);
    assert |a.state| > 0 ==> FrameFrom(a, areas, end, 0);
    assert 0 !in Managed(b);
    NullIffExhausted(b, ClassOf(layout.size));
  }

  const FOUR_MIB_AREA: seq<MemoryArea> := [MemoryArea(0x200000, 0x400000, 1, 0)]

  lemma FourMibSizes()
    ensures BootInputs(FOUR_MIB_AREA, 0x110000, 40) && TotalPages(FOUR_MIB_AREA) == 1536
    ensures FinalKernelEnd(FOUR_MIB_AREA, 0x110000, 40) == 0x11F000
  {
    assert ActualMax(FOUR_MIB_AREA, 1) == 0x600000;
  }

  lemma FourMibBlocks(p: nat)
    requires p % 512 == 0
    ensures BlockAvailable(FOUR_MIB_AREA, 0x11F000, p) <==> p == 512 || p == 1024
  {
    assert Inside(FOUR_MIB_AREA[0], 0x11F000, Addr(p), Addr(p + 512)) <==> p == 512 || p == 1024;
  }

  /** A memory map that leaves exactly such a reserve. */
  lemma TwoBlocksAtBoot()
    ensures BootInputs(FOUR_MIB_AREA, 0x110000, 40)
    ensures var a := Booted(FOUR_MIB_AREA, 0x110000, 40);
            WorldOk(World(a, map[]))
            && 512 in a.free2 && 1024 in a.free2 && (forall p :: p in a.free2 ==> p == 512 || p == 1024)
            && a.free4 == []
  {
    FourMibSizes();
    FourMibBlocks(512);
    FourMibBlocks(1024);
    BootExact(FOUR_MIB_AREA, 0x110000, 40);
    var a := Booted(FOUR_MIB_AREA, 0x110000, 40);
    assert FrameFrom(a, FOUR_MIB_AREA, 0x11F000, 512) && FrameFrom(a, FOUR_MIB_AREA, 0x11F000, 1024);
    forall p | p in a.free2 ensures p == 512 || p == 1024 {
      assert FrameFrom(a, FOUR_MIB_AREA, 0x11F000, p);
      FourMibBlocks(p);
    }
    if a.free4 != [] {
      assert a.free4[0] in a.free4;
      assert FrameFrom(a, FOUR_MIB_AREA, 0x11F000, a.free4[0]);
      FourMibPages(a.free4[0]);
    }
  }

  lemma FourMibPages(p: nat)
    ensures PageAvailable(FOUR_MIB_AREA, 0x11F000, p) ==> BlockAvailable(FOUR_MIB_AREA, 0x11F000, Head(p))
  {
    if PageAvailable(FOUR_MIB_AREA, 0x11F000, p) {
      assert Inside(FOUR_MIB_AREA[0], 0x11F000, Addr(p), Addr(p + 1));
      HeadUnique(p, if p < 1024 then 512 else 1024);
      FourMibBlocks(Head(p));
    }
  }

  /** Two requests for more than 2 MiB each, out of a reserve of two adjacent superpages: the object in
      the lower one runs into the other. */
  lemma OversizedOverlap(o: Objects, l: Layout, h: nat)
    requires ObjectsOk(o) && l.size > PAGE_SIZE_2MB
    requires h in o.world.heap.free2 && h + 512 in o.world.heap.free2
    requires forall q :: q in o.world.heap.free2 ==> q == h || q == h + 512
    ensures ObjectsOk(NextObjects(o, New(l)))
    ensures var n := NextObjects(NextObjects(o, New(l)), New(l)); ObjectsOk(n) && !KeptApart(n, l)
  {
    NewSuperpage(o, l);
    var u := NextObjects(o, New(l));
    assert u.world.heap.free2 != [] by { TwoElements(o.world.heap.free2, h); }
    NewSuperpage(u, l);
    TwoSuperpages(o, u, NextObjects(u, New(l)), l, h);
    assert Addr(h) + PAGE_SIZE_2MB == Addr(h + 512);
  }

  /** Requests larger than a superpage get one superpage all the same, so the layouts whose objects can
      never run into the next object are exactly those of at most 2 MiB. */
  lemma KeptApartIffFits(l: Layout)
    ensures (forall o :: ObjectsOk(o) ==> KeptApart(o, l)) <==> l.size <= PAGE_SIZE_2MB
  {
    if l.size <= PAGE_SIZE_2MB {
      forall o | ObjectsOk(o) ensures KeptApart(o, l) {
        forall p, q | p in o.layouts && q in o.layouts && p < q && o.layouts[p] == l
          ensures Addr(p) + l.size <= Addr(q)
        {
          TwoObjects(o, p, q);
        }
      }
    } else {
      TwoBlocksAtBoot();
      OversizedOverlap(BootObjects(Booted(FOUR_MIB_AREA, 0x110000, 40)), l, 512);
    }
  }

  // ----- alignment

  /** Objects of layout l are aligned as requested. */
  ghost predicate AllAligned(n: Objects, l: Layout)
    requires l.align > 0
  {
    forall p :: p in n.layouts && n.layouts[p] == l ==> Addr(p) % l.align == 0
  }

  lemma NewFromList(o: Objects, l: Layout)
    requires ObjectsOk(o) && l.size > 0 && ClassOf(l.size) == Size4KB && o.world.heap.free4 != []
    ensures var u := NextObjects(o, New(l)); ObjectsOk(u) && u.layouts == o.layouts[o.world.heap.free4[0] := l]
  {
    NextKeeps(o.world, Allocate(Size4KB));
    AddrFrame(o.world.heap.free4[0]);
    NextObjectsOk(o, New(l));
  }

  lemma NewFromSplit(o: Objects, l: Layout)
    requires ObjectsOk(o) && l.size > 0 && ClassOf(l.size) == Size4KB
    requires o.world.heap.free4 == [] && o.world.heap.free2 != []
    ensures var u := NextObjects(o, New(l));
            var h := o.world.heap.free2[0];
            ObjectsOk(u) && u.layouts == o.layouts[h + 511 := l] && u.world.heap.free4 == Descending(h, 511)
  {
    NextKeeps(o.world, Allocate(Size4KB));
    AddrFrame(o.world.heap.free2[0] + 511);
    FirstOfSplit(o.world, Next(o.world, Allocate(Size4KB)));
    NextObjectsOk(o, New(l));
  }

  lemma AdjacentUnaligned(layouts: map<nat, Layout>, l: Layout, p: nat)
    requires l.align > 0 && PAGE_SIZE_4KB % l.align != 0
    requires p in layouts && layouts[p] == l && p + 1 in layouts && layouts[p + 1] == l
    ensures exists q :: q in layouts && layouts[q] == l && Addr(q) % l.align != 0
  {
    Neighbours(Addr(p), l.align);
    assert Addr(p + 1) == Addr(p) + PAGE_SIZE_4KB;
  }

  /** Two requests that split a superpage get adjacent pages, so not both can be aligned to anything
      that does not divide 4096. */
  lemma SinglesUnaligned(o: Objects, l: Layout)
    requires ObjectsOk(o) && o.world.heap.free4 == [] && o.world.heap.free2 != []
    requires l.size > 0 && ClassOf(l.size) == Size4KB && l.align > 0 && PAGE_SIZE_4KB % l.align != 0
    ensures ObjectsOk(NextObjects(o, New(l)))
    ensures var n := NextObjects(NextObjects(o, New(l)), New(l)); ObjectsOk(n) && !AllAligned(n, l)
  {
    var h := o.world.heap.free2[0];
    NewFromSplit(o, l);
    var u := NextObjects(o, New(l));
    NewFromList(u, l);
    AdjacentUnaligned(NextObjects(u, New(l)).layouts, l, h + 510);
  }

  lemma Neighbours(x: nat, a: nat)
    requires a > 0 && PAGE_SIZE_4KB % a != 0
    ensures x % a != 0 || (x + PAGE_SIZE_4KB) % a != 0
  {
    if x % a == 0 && (x + PAGE_SIZE_4KB) % a == 0 {
      var i, j := x / a, (x + PAGE_SIZE_4KB) / a;
      assert x == a * i && x + PAGE_SIZE_4KB == a * j;
      assert a * (j - i) == a * j - a * i;
      ModUnique(PAGE_SIZE_4KB, a, j - i, 0);
    }
  }

  lemma SuperpagesUnaligned(o: Objects, l: Layout)
    requires ObjectsOk(o) && 512 in o.world.heap.free2 && 1024 in o.world.heap.free2
    requires forall q :: q in o.world.heap.free2 ==> q == 512 || q == 1024
    requires ClassOf(l.size) == Size2MB && l.align > 0 && PAGE_SIZE_2MB % l.align != 0
    ensures ObjectsOk(NextObjects(o, New(l)))
    ensures var n := NextObjects(NextObjects(o, New(l)), New(l)); ObjectsOk(n) && !AllAligned(n, l)
  {
    NewSuperpage(o, l);
    var u := NextObjects(o, New(l));
    assert u.world.heap.free2 != [] by { TwoElements(o.world.heap.free2, 512); }
    NewSuperpage(u, l);
    TwoSuperpages(o, u, NextObjects(u, New(l)), l, 512);
    assert Addr(512) == PAGE_SIZE_2MB;
  }

  /** alloc never looks at the alignment asked for, so the layouts whose objects are always aligned are
      exactly those whose alignment divides the size of the page they get. */
  lemma AlignedIffDivides(l: Layout)
    requires l.size > 0 && l.align > 0
    ensures (forall o :: ObjectsOk(o) ==> AllAligned(o, l)) <==> Bytes(ClassOf(l.size)) % l.align == 0
  {
    if Bytes(ClassOf(l.size)) % l.align == 0 {
      forall o | ObjectsOk(o) ensures AllAligned(o, l) {
        forall p | p in o.layouts && o.layouts[p] == l ensures Addr(p) % l.align == 0 {
          ObjectAligned(o, p);
          MultipleOf(Addr(p), Bytes(ClassOf(l.size)), l.align);
        }
      }
    } else {
      TwoBlocksAtBoot();
      var o := BootObjects(Booted(FOUR_MIB_AREA, 0x110000, 40));
      if ClassOf(l.size) == Size4KB { SinglesUnaligned(o, l); } else { SuperpagesUnaligned(o, l); }
    }
  }
}
