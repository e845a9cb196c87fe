/** Runs of allocate_page and free_page, seen from the caller: the map `live` records the frames
    handed out and not yet given back, and every free in a run matches it by address and size. */
module Runs {
  import opened PageModel
  import opened HeapSteps
  import opened Sequential

  datatype Call = Allocate(size: PageSize) | Release(addr: nat, size: PageSize)

  datatype World = World(heap: Heap, live: map<nat, PageSize>)

  function Addr(p: nat): nat { p * PAGE_SIZE_4KB }

  function Bytes(size: PageSize): nat {
    match size case Size4KB => PAGE_SIZE_4KB case Size2MB => PAGE_SIZE_2MB
  }

  /** An address handed out is page-aligned and names its frame. */
  lemma AddrFrame(p: nat)
    ensures Addr(p) % PAGE_SIZE_4KB == 0 && Addr(p) / PAGE_SIZE_4KB == p
  {}

  function ToAddr(r: Option<nat>): Option<nat> {
    match r case None => None case Some(p) => Some(Addr(p))
  }

  function AllocatePage(a: Heap, size: PageSize): (r: (Heap, Option<nat>))
    requires Shaped(a) && HeadsInRange(a)
  {
    var (b, p) := match size case Size4KB => Alloc4(a) case Size2MB => Alloc2(a);
    (b, ToAddr(p))
  }

  predicate CanFreePage(a: Heap, addr: nat, size: PageSize)
    requires Shaped(a)
  {
    var p := addr / PAGE_SIZE_4KB;
    match size case Size4KB => CanFree4(a, p) case Size2MB => CanFree2(a, p)
  }

  function FreePage(a: Heap, addr: nat, size: PageSize): (b: Heap)
    requires Shaped(a) && CanFreePage(a, addr, size)
  {
    var p := addr / PAGE_SIZE_4KB;
    match size case Size4KB => Free4(a, p) case Size2MB => Free2(a, p)
  }

  /** Any address inside the page or superpage frees it. */
  lemma FreeByAnyAddress(a: Heap, p: nat, k: nat, size: PageSize)
    requires Shaped(a) && k < Bytes(size) && (size == Size2MB ==> p % 512 == 0 && p + 512 <= |a.state|)
    ensures CanFreePage(a, Addr(p) + k, size) <==> CanFreePage(a, Addr(p), size)
    ensures CanFreePage(a, Addr(p), size) ==> FreePage(a, Addr(p) + k, size) == FreePage(a, Addr(p), size)
  {
    var q := (Addr(p) + k) / PAGE_SIZE_4KB;
    if size == Size2MB {
      HeadUnique(q, p);
      HeadUnique(p, p);
    }
  }

  // ----- worlds

  predicate Fits(a: Heap, p: nat, size: PageSize)
    requires Shaped(a) && p < |a.state|
  {
    match size
    case Size4KB => a.owner[p] == User4
    case Size2MB => p % 512 == 0 && a.owner[p] == User2
  }

  /** The caller's map is exactly what the ghost ownership says. */
  ghost predicate LiveOk(w: World)
    requires Shaped(w.heap)
  {
    && (forall p :: p in w.live ==> p < |w.heap.state| && Fits(w.heap, p, w.live[p]))
    && (forall p, size :: 0 <= p < |w.heap.state| && Fits(w.heap, p, size) ==> p in w.live)
  }

  ghost predicate WorldOk(w: World) {
    Quiet(w.heap) && LiveOk(w)
  }

  predicate Matched(w: World, c: Call) {
    c.Release? ==>
      var p := c.addr / PAGE_SIZE_4KB;
      c.addr == Addr(p) && p in w.live && w.live[p] == c.size
  }

  function Next(w: World, c: Call): (v: World)
    requires Shaped(w.heap) && HeadsInRange(w.heap)
    requires c.Release? ==> CanFreePage(w.heap, c.addr, c.size)
  {
    match c
    case Allocate(size) =>
      var (b, r) := AllocatePage(w.heap, size);
      World(b, if r.Some? then w.live[r.value / PAGE_SIZE_4KB := size] else w.live)
    case Release(addr, size) =>
      World(FreePage(w.heap, addr, size), w.live - {addr / PAGE_SIZE_4KB})
  }

  /** Which party holds a page, not telling the free lists apart. */
  datatype Holder = System | Pool | Client4 | Client2

  function HolderOf(o: Owner): Holder {
    match o
    case Reserved => System
    case User4 => Client4
    case User2 => Client2
    case _ => Pool
  }

  /** All pages outside `changed` keep their holder. */
  predicate SameHolders(a: Heap, b: Heap, lo: nat, hi: nat)
    requires Shaped(a) && Shaped(b) && |a.state| == |b.state|
  {
    forall p :: 0 <= p < |a.state| && !(lo <= p < hi) ==> HolderOf(a.owner[p]) == HolderOf(b.owner[p])
  }

  predicate UniformHolder(a: Heap, lo: nat, hi: nat, x: Holder)
    requires Shaped(a) && hi <= |a.state|
  {
    forall p :: lo <= p < hi ==> HolderOf(a.owner[p]) == x
  }

  lemma Alloc4Holders(a: Heap)
    requires Quiet(a) && HeadsInRange(a) && Alloc4(a).1.Some?
    ensures var (b, r) := Alloc4(a);
            var p := r.value;
            Shaped(b) && |b.state| == |a.state| && a.tracked == b.tracked
            && p < |a.state| && b.owner[p] == User4
            && UniformHolder(a, p, p + 1, Pool) && UniformHolder(b, p, p + 1, Client4)
            && SameHolders(a, b, p, p + 1)
  {
    if a.free4 != [] {
      assert a.free4[0] in a.free4;
    } else {
      assert forall p: nat :: InBlock(a.free2[0], p) ==> a.owner[p] == List2 by { SplitKeeps(a); }
      SplitHolders(a);
    }
  }

  lemma SplitHolders(a: Heap)
    requires Shaped(a) && HeadsInRange(a) && a.free4 == [] && a.free2 != []
    requires forall p: nat :: InBlock(a.free2[0], p) ==> a.owner[p] == List2
    ensures var b := TakeFree4(Split(a));
            var p := a.free2[0] + 511;
            Split(a).free4[0] == p && Shaped(b) && |b.state| == |a.state| && b.owner[p] == User4
            && UniformHolder(a, p, p + 1, Pool) && SameHolders(a, b, p, p + 1)
  {
    assert InBlock(a.free2[0], a.free2[0] + 511);
    var b := TakeFree4(Split(a));
    forall q | 0 <= q < |a.state| && q != a.free2[0] + 511 ensures HolderOf(a.owner[q]) == HolderOf(b.owner[q]) {
      if a.free2[0] <= q < a.free2[0] + 512 { assert InBlock(a.free2[0], q); }
    }
  }

  lemma Alloc2Holders(a: Heap)
    requires Quiet(a) && HeadsInRange(a) && Alloc2(a).1.Some?
    ensures var (b, r) := Alloc2(a);
            var h := r.value;
            Shaped(b) && |b.state| == |a.state| && a.tracked == b.tracked
            && h % 512 == 0 && h + 512 <= |a.state| && b.owner[h] == User2
            && UniformHolder(a, h, h + 512, Pool) && UniformHolder(b, h, h + 512, Client2)
            && SameHolders(a, b, h, h + 512)
  {
    Alloc2Keeps(a);
    forall p | a.free2[0] <= p < a.free2[0] + 512 ensures HolderOf(a.owner[p]) == Pool {
      assert InBlock(a.free2[0], p);
    }
  }

  lemma Free4Holders(a: Heap, p: nat)
    requires Quiet(a) && p < |a.state| && a.owner[p] == User4
    ensures var b := Free4(a, p);
            Shaped(b) && |b.state| == |a.state| && a.tracked <= b.tracked
            && UniformHolder(a, p, p + 1, Client4) && UniformHolder(b, p, p + 1, Pool)
            && SameHolders(a, b, p, p + 1)
  {
    ReleaseKeeps(a, p);
    var b := PushFreed(MarkFreed(a, p), p);
    if b.counter[Head(p)] == 512 {
      FullCounterMeansFree(b, Head(p));
      MergeHolders(b, p);
    }
  }

  /** Merging moves pages from one free list to the other and nothing else. */
  lemma MergeHolders(a: Heap, p: nat)
    requires Inv(a, Nothing) && p < |a.state|
    ensures var b := TryMerge(a, p);
            Shaped(b) && |b.state| == |a.state| && a.tracked <= b.tracked && SameHolders(a, b, 0, 0)
  {
    var h := Head(p);
    if AllFree(a.state, h, h + 512) { ScanIsSafe(a, h); }
  }

  lemma Free2Holders(a: Heap, h: nat)
    requires Quiet(a) && h < |a.state| && h % 512 == 0 && a.owner[h] == User2
    ensures var b := Free2(a, h);
            Shaped(b) && |b.state| == |a.state| && a.tracked == b.tracked
            && UniformHolder(a, h, h + 512, Client2) && UniformHolder(b, h, h + 512, Pool)
            && SameHolders(a, b, h, h + 512)
  {
    BlockOwner(a, h);
    assert PageOk(a, h);
    HeadUnique(h, h);
  }

  /** One matched call keeps the world consistent, never touches a page outside the allocator's
      hands and never forgets a superpage. */
  lemma NextKeeps(w: World, c: Call)
    requires WorldOk(w) && Matched(w, c)
    ensures HeadsInRange(w.heap)
    ensures c.Release? ==> CanFreePage(w.heap, c.addr, c.size)
    ensures GoodNext(w, Next(w, c))
  {
    HeadsOk(w.heap, Nothing);
    match c
    case Allocate(Size4KB) => NextAlloc4(w);
    case Allocate(Size2MB) => NextAlloc2(w);
    case Release(x, Size4KB) => NextFree4(w, x / PAGE_SIZE_4KB);
    case Release(x, Size2MB) => NextFree2(w, x / PAGE_SIZE_4KB);
  }

  ghost predicate GoodNext(w: World, v: World) {
    && WorldOk(v)
    && Shaped(w.heap) && |v.heap.state| == |w.heap.state|
    && w.heap.tracked <= v.heap.tracked
    && SystemSame(w.heap, v.heap)
  }

  lemma NextAlloc4(w: World)
    requires WorldOk(w) && HeadsInRange(w.heap)
    ensures GoodNext(w, Next(w, Allocate(Size4KB)))
  {
    var (b, r) := Alloc4(w.heap);
    assert Quiet(b) && (r.None? ==> b == w.heap) by { Alloc4Keeps(w.heap); }
    if r.Some? {
      assert Handed(w.heap, b, r.value, Size4KB) by { Alloc4Holders(w.heap); }
      Gained(w, b, r.value, Size4KB);
      AddrFrame(r.value);
    }
  }

  lemma NextAlloc2(w: World)
    requires WorldOk(w) && HeadsInRange(w.heap)
    ensures GoodNext(w, Next(w, Allocate(Size2MB)))
  {
    var (b, r) := Alloc2(w.heap);
    assert Quiet(b) by { Alloc2Keeps(w.heap); }
    if r.Some? {
      assert Handed(w.heap, b, r.value, Size2MB) by { Alloc2Holders(w.heap); }
      Gained(w, b, r.value, Size2MB);
      AddrFrame(r.value);
    }
  }

  lemma NextFree4(w: World, p: nat)
    requires WorldOk(w) && HeadsInRange(w.heap) && p in w.live && w.live[p] == Size4KB
    ensures CanFreePage(w.heap, Addr(p), Size4KB)
    ensures GoodNext(w, Next(w, Release(Addr(p), Size4KB)))
  {
    var b := Free4(w.heap, p);
    assert Fits(w.heap, p, Size4KB);
    assert Quiet(b) by { Free4Keeps(w.heap, p); }
    assert Returned(w.heap, b, p, Size4KB) by { Free4Holders(w.heap, p); }
    Lost(w, b, p, Size4KB);
    AddrFrame(p);
  }

  lemma NextFree2(w: World, p: nat)
    requires WorldOk(w) && HeadsInRange(w.heap) && p in w.live && w.live[p] == Size2MB
    ensures CanFreePage(w.heap, Addr(p), Size2MB)
    ensures GoodNext(w, Next(w, Release(Addr(p), Size2MB)))
  {
    var b := Free2(w.heap, p);
    assert Fits(w.heap, p, Size2MB);
    HeadUnique(p, p);
    assert Quiet(b) by { Free2Keeps(w.heap, p); }
    assert Returned(w.heap, b, p, Size2MB) by { Free2Holders(w.heap, p); }
    Lost(w, b, p, Size2MB);
    AddrFrame(p);
  }

  function Frames(size: PageSize): nat {
    match size case Size4KB => 1 case Size2MB => 512
  }

  /** Frames p.. of the given size go from the pool to a client, and nothing else changes hands. */
  predicate Handed(a: Heap, b: Heap, p: nat, size: PageSize) {
    && Shaped(a) && Shaped(b) && |b.state| == |a.state| && a.tracked <= b.tracked
    && p + Frames(size) <= |b.state| && Fits(b, p, size)
    && SameHolders(a, b, p, p + Frames(size))
    && UniformHolder(a, p, p + Frames(size), Pool)
    && UniformHolder(b, p, p + Frames(size), HolderOf(b.owner[p]))
  }

  /** The same the other way round. */
  predicate Returned(a: Heap, b: Heap, p: nat, size: PageSize) {
    && Shaped(a) && Shaped(b) && |b.state| == |a.state| && a.tracked <= b.tracked
    && p + Frames(size) <= |b.state| && Fits(a, p, size)
    && SameHolders(a, b, p, p + Frames(size))
    && UniformHolder(a, p, p + Frames(size), HolderOf(a.owner[p]))
    && UniformHolder(b, p, p + Frames(size), Pool)
  }

  lemma Gained(w: World, b: Heap, p: nat, size: PageSize)
    requires WorldOk(w) && Quiet(b) && Handed(w.heap, b, p, size)
    ensures GoodNext(w, World(b, w.live[p := size]))
  {
    assert HolderOf(w.heap.owner[p]) == Pool;
    LiveAfter(w, World(b, w.live[p := size]), p, p + Frames(size));
  }

  lemma Lost(w: World, b: Heap, p: nat, size: PageSize)
    requires WorldOk(w) && Quiet(b) && Returned(w.heap, b, p, size)
    ensures GoodNext(w, World(b, w.live - {p}))
  {
    assert HolderOf(b.owner[p]) == Pool;
    LiveAfter(w, World(b, w.live - {p}), p, p + Frames(size));
  }

  predicate SystemSame(a: Heap, b: Heap)
    requires Shaped(a) && Shaped(b) && |a.state| == |b.state|
  {
    forall p :: 0 <= p < |a.state| ==> (a.owner[p] == Reserved <==> b.owner[p] == Reserved)
  }

  /** The range lo..hi changes hands between the pool and one client entry for frame lo. */
  lemma LiveAfter(w: World, v: World, lo: nat, hi: nat)
    requires Shaped(w.heap) && Shaped(v.heap) && |w.heap.state| == |v.heap.state| && LiveOk(w)
    requires lo < hi <= |w.heap.state| && (hi == lo + 1 || (hi == lo + 512 && lo % 512 == 0))
    requires SameHolders(w.heap, v.heap, lo, hi)
    requires UniformHolder(w.heap, lo, hi, HolderOf(w.heap.owner[lo]))
    requires UniformHolder(v.heap, lo, hi, HolderOf(v.heap.owner[lo]))
    requires HolderOf(w.heap.owner[lo]) != System && (HolderOf(w.heap.owner[lo]) == Client4 ==> hi == lo + 1)
    requires w.live - {lo} == v.live - {lo}
    requires match HolderOf(v.heap.owner[lo])
             case Pool => lo !in v.live
             case Client4 => hi == lo + 1 && lo in v.live && v.live[lo] == Size4KB
             case Client2 => hi == lo + 512 && lo in v.live && v.live[lo] == Size2MB
             case System => false
    ensures LiveOk(v) && SystemSame(w.heap, v.heap)
  {
    forall p ensures p != lo ==> (p in v.live <==> p in w.live)
      ensures p != lo && p in w.live ==> w.live[p] == v.live[p]
    {
      assert p != lo && p in w.live ==> p in w.live - {lo};
      assert p != lo && p in v.live ==> p in v.live - {lo};
    }
    forall p | p in v.live && p != lo
      ensures p < |v.heap.state| && Fits(v.heap, p, v.live[p])
    {
      assert Fits(w.heap, p, w.live[p]);
      NotInside(w, lo, hi, p);
      assert HolderOf(w.heap.owner[p]) == HolderOf(v.heap.owner[p]);
    }
    forall p, size | 0 <= p < |v.heap.state| && Fits(v.heap, p, size)
      ensures p in v.live
    {
      if lo <= p < hi {
        assert HolderOf(v.heap.owner[p]) == HolderOf(v.heap.owner[lo]);
      } else {
        assert HolderOf(w.heap.owner[p]) == HolderOf(v.heap.owner[p]);
        assert Fits(w.heap, p, size);
      }
    }
  }

  lemma NotInside(w: World, lo: nat, hi: nat, p: nat)
    requires Shaped(w.heap) && lo < hi <= |w.heap.state| && (hi == lo + 1 || (hi == lo + 512 && lo % 512 == 0))
    requires UniformHolder(w.heap, lo, hi, HolderOf(w.heap.owner[lo]))
    requires HolderOf(w.heap.owner[lo]) == Client4 ==> hi == lo + 1
    requires p < |w.heap.state| && p in w.live && Fits(w.heap, p, w.live[p]) && p != lo
    ensures !(lo <= p < hi)
  {
  }
}
