/** The carve in terms of addresses, and where allocations of any later run can lie. */
module BootTheorems {
  import opened PageModel
  import opened Runs
  import opened RunTheorems
  import opened Reachability
  import opened Multiboot2
  import opened Carve
  import opened Bits

  /** The area is usable RAM, type 1 of the memory map, and holds the bytes lo..hi, not below `end`. */
  predicate Inside(a: MemoryArea, end: nat, lo: nat, hi: nat) {
    a.typ == 1 && a.baseAddr <= lo && hi <= a.baseAddr + a.length && end <= lo
  }

  /** mark_available rounds an area's start down; the extra page is harmless only if the area
      starts on a page boundary or the rounded frame belongs to the kernel. */
  predicate StartsClean(a: MemoryArea, kernelPfn: nat) {
    a.baseAddr % PAGE_SIZE_4KB == 0 || a.baseAddr / PAGE_SIZE_4KB < kernelPfn
  }

  /** Then, or if nothing is marked at all, marking stays inside the area. */
  predicate MarksCleanly(a: MemoryArea, kernelPfn: nat, total: nat) {
    StartsClean(a, kernelPfn) || Lo(a, kernelPfn) >= Hi(a, total)
  }

  ghost predicate AllMarkCleanly(areas: seq<MemoryArea>, kernelPfn: nat, total: nat) {
    forall i :: 0 <= i < |areas| && Available(areas[i]) ==> MarksCleanly(areas[i], kernelPfn, total)
  }

  /** Exactly when marking an area stays inside it. */
  lemma MarkingStaysInside(a: MemoryArea, kernelPfn: nat, total: nat)
    requires Available(a) && Hi(a, total) == (a.baseAddr + a.length) / PAGE_SIZE_4KB
    ensures (forall p: nat :: Covers(a, kernelPfn, total, p) ==>
               Inside(a, kernelPfn * PAGE_SIZE_4KB, Addr(p), Addr(p + 1)))
            <==> MarksCleanly(a, kernelPfn, total)
  {
    if MarksCleanly(a, kernelPfn, total) {
      forall p: nat | Covers(a, kernelPfn, total, p)
        ensures Inside(a, kernelPfn * PAGE_SIZE_4KB, Addr(p), Addr(p + 1))
      {
        CoversIffInside(a, kernelPfn, total, p);
      }
    } else {
      var p := a.baseAddr / PAGE_SIZE_4KB;
      assert Covers(a, kernelPfn, total, p);
      assert !Inside(a, kernelPfn * PAGE_SIZE_4KB, Addr(p), Addr(p + 1));
    }
  }

  lemma CoversIffInside(a: MemoryArea, kernelPfn: nat, total: nat, p: nat)
    requires Available(a) ==>
               MarksCleanly(a, kernelPfn, total) && Hi(a, total) == (a.baseAddr + a.length) / PAGE_SIZE_4KB
    ensures Covers(a, kernelPfn, total, p) <==> Inside(a, kernelPfn * PAGE_SIZE_4KB, Addr(p), Addr(p + 1))
    ensures Available(a) && FullBlock(Lo(a, kernelPfn), Hi(a, total), p) <==>
            Inside(a, kernelPfn * PAGE_SIZE_4KB, Addr(p), Addr(p + 512))
  {}

  // ----- the state after init

  ghost predicate BootInputs(areas: seq<MemoryArea>, kernelSymbol: nat, entryBytes: nat) {
    && DisjointAreas(areas)
    && FitsWord(areas, kernelSymbol, entryBytes)
    && AllMarkCleanly(areas, FinalKernelEnd(areas, kernelSymbol, entryBytes) / PAGE_SIZE_4KB, TotalPages(areas))
  }

  function Booted(areas: seq<MemoryArea>, kernelSymbol: nat, entryBytes: nat): Heap
    requires FitsWord(areas, kernelSymbol, entryBytes)
  {
    BootHeap(BootArray(areas, kernelSymbol, entryBytes))
  }

  ghost predicate PageAvailable(areas: seq<MemoryArea>, end: nat, p: nat) {
    exists i :: 0 <= i < |areas| && Inside(areas[i], end, Addr(p), Addr(p + 1))
  }

  ghost predicate BlockAvailable(areas: seq<MemoryArea>, end: nat, h: nat) {
    exists i :: 0 <= i < |areas| && Inside(areas[i], end, Addr(h), Addr(h + 512))
  }

  /** What frame p is after init, in terms of the memory map alone. */
  lemma BootFrame(areas: seq<MemoryArea>, kernelSymbol: nat, entryBytes: nat, p: nat)
    requires BootInputs(areas, kernelSymbol, entryBytes) && p < TotalPages(areas)
    ensures var a := Booted(areas, kernelSymbol, entryBytes);
            var end := FinalKernelEnd(areas, kernelSymbol, entryBytes);
            a.state[p] ==
              if !PageAvailable(areas, end, p) then Unavailable
              else if BlockAvailable(areas, end, Head(p)) then (if p == Head(p) then Free2MB else Unavailable)
              else Free4KB
  {
    var total := TotalPages(areas);
    var end := FinalKernelEnd(areas, kernelSymbol, entryBytes);
    var k := end / PAGE_SIZE_4KB;
    KernelBelow(areas, kernelSymbol, entryBytes);
    TotalCovers(areas);
    forall i | 0 <= i < |areas|
      ensures Covers(areas[i], k, total, p) <==> Inside(areas[i], end, Addr(p), Addr(p + 1))
      ensures Available(areas[i]) && FullBlock(Lo(areas[i], k), Hi(areas[i], total), Head(p)) <==>
              Inside(areas[i], end, Addr(Head(p)), Addr(Head(p) + 512))
    {
      CoversIffInside(areas[i], k, total, p);
      CoversIffInside(areas[i], k, total, Head(p));
    }
    FrameState(areas, k, total, end, p);
  }

  lemma FrameState(areas: seq<MemoryArea>, k: nat, total: nat, end: nat, p: nat)
    requires DisjointAreas(areas) && p < total
    requires forall i :: 0 <= i < |areas| ==>
               (Covers(areas[i], k, total, p) <==> Inside(areas[i], end, Addr(p), Addr(p + 1)))
    requires forall i :: 0 <= i < |areas| ==>
               (Available(areas[i]) && FullBlock(Lo(areas[i], k), Hi(areas[i], total), Head(p)) <==>
                Inside(areas[i], end, Addr(Head(p)), Addr(Head(p) + 512)))
    ensures CarveAll(total, areas, k, |areas|)[p].state ==
              if !PageAvailable(areas, end, p) then Unavailable
              else if BlockAvailable(areas, end, Head(p)) then (if p == Head(p) then Free2MB else Unavailable)
              else Free4KB
  {
    if PageAvailable(areas, end, p) {
      var i :| 0 <= i < |areas| && Inside(areas[i], end, Addr(p), Addr(p + 1));
      CarveOne(total, areas, k, |areas|, i, p);
      if BlockAvailable(areas, end, Head(p)) {
        var j :| 0 <= j < |areas| && Inside(areas[j], end, Addr(Head(p)), Addr(Head(p) + 512));
        assert Covers(areas[j], k, total, p);
        if i != j { CoversOnce(areas, k, total, i, j, p); }
      }
    } else {
      CarveNone(total, areas, k, |areas|, p);
    }
  }

  /** What frame p of heap `a` is, given that `a` was carved from the available areas above `end`. */
  ghost predicate FrameFrom(a: Heap, areas: seq<MemoryArea>, end: nat, p: nat)
    requires Shaped(a) && p < |a.state|
  {
    && (p in Managed(a) <==> PageAvailable(areas, end, p))
    && (p in a.free2 <==> p % 512 == 0 && BlockAvailable(areas, end, p))
    && (p in a.free4 <==> PageAvailable(areas, end, p) && !BlockAvailable(areas, end, Head(p)))
    && (p !in a.tracked ==> a.counter[p] == 0)
  }

  /** The carve is exact and maximal: the allocator manages precisely the pages at or above `end` that
      lie wholly in one available area; aligned 512-page runs inside one area are superpages, and every
      other managed page is single. Nothing has been handed out yet. */
  ghost predicate CarvedFrom(a: Heap, areas: seq<MemoryArea>, end: nat) {
    && WorldOk(World(a, map[]))
    && (forall p: nat :: PageAvailable(areas, end, p) ==> p < |a.state|)
    && (forall p: nat :: p < |a.state| ==> FrameFrom(a, areas, end, p))
  }

  /** init leaves such a heap, with `end` above the kernel image and the metadata array. */
  lemma BootExact(areas: seq<MemoryArea>, kernelSymbol: nat, entryBytes: nat)
    requires BootInputs(areas, kernelSymbol, entryBytes)
    ensures var a := Booted(areas, kernelSymbol, entryBytes);
            var end := FinalKernelEnd(areas, kernelSymbol, entryBytes);
            CarvedFrom(a, areas, end) && |a.state| == TotalPages(areas)
            && kernelSymbol + |a.state| * entryBytes <= end
  {
    var a := Booted(areas, kernelSymbol, entryBytes);
    var end := FinalKernelEnd(areas, kernelSymbol, entryBytes);
    KernelBelow(areas, kernelSymbol, entryBytes);
    BootWorldOk(areas, kernelSymbol, entryBytes);
    forall p: nat | p < |a.state| ensures FrameFrom(a, areas, end, p) {
      BootFrameFrom(areas, kernelSymbol, entryBytes, p);
    }
    forall p: nat | PageAvailable(areas, end, p) ensures p < |a.state| { AvailableInRange(areas, end, p); }
  }

  /** For disjoint areas, however they start, calls can begin. */
  lemma BootWorldOk(areas: seq<MemoryArea>, kernelSymbol: nat, entryBytes: nat)
    requires DisjointAreas(areas) && FitsWord(areas, kernelSymbol, entryBytes)
    ensures WorldOk(World(Booted(areas, kernelSymbol, entryBytes), map[]))
    ensures Carved(BootArray(areas, kernelSymbol, entryBytes))
  {
    var a := Booted(areas, kernelSymbol, entryBytes);
    TotalCovers(areas);
    CarveAllCarved(TotalPages(areas), areas, FinalKernelEnd(areas, kernelSymbol, entryBytes) / PAGE_SIZE_4KB);
    BootHeapQuiet(BootArray(areas, kernelSymbol, entryBytes));
    assert forall p :: 0 <= p < |a.state| ==> a.owner[p] != User4 && a.owner[p] != User2;
  }

  lemma BootFrameFrom(areas: seq<MemoryArea>, kernelSymbol: nat, entryBytes: nat, p: nat)
    requires BootInputs(areas, kernelSymbol, entryBytes) && p < TotalPages(areas)
    requires Carved(BootArray(areas, kernelSymbol, entryBytes))
    ensures FrameFrom(Booted(areas, kernelSymbol, entryBytes), areas,
                      FinalKernelEnd(areas, kernelSymbol, entryBytes), p)
  {
    var m := BootArray(areas, kernelSymbol, entryBytes);
    var end := FinalKernelEnd(areas, kernelSymbol, entryBytes);
    DescWhereFacts(m, Free4KB, |m|);
    DescWhereFacts(m, Free2MB, |m|);
    BootFrame(areas, kernelSymbol, entryBytes, p);
    BootFrame(areas, kernelSymbol, entryBytes, Head(p));
    BlockImpliesPage(areas, end, Head(p), p);
    BlockImpliesPage(areas, end, Head(p), Head(p));
    HeadUnique(Head(p), Head(p));
    assert WordOk(m, p);
  }

  lemma BlockImpliesPage(areas: seq<MemoryArea>, end: nat, h: nat, p: nat)
    requires h <= p < h + 512
    ensures BlockAvailable(areas, end, h) ==> PageAvailable(areas, end, p)
  {
    if BlockAvailable(areas, end, h) {
      var i :| 0 <= i < |areas| && Inside(areas[i], end, Addr(h), Addr(h + 512));
      assert Inside(areas[i], end, Addr(p), Addr(p + 1));
    }
  }

  lemma AvailableInRange(areas: seq<MemoryArea>, end: nat, p: nat)
    requires ActualMax(areas, |areas|) + PAGE_SIZE_2MB <= WORD && PageAvailable(areas, end, p)
    ensures p < TotalPages(areas)
  {
    TotalCovers(areas);
    var i :| 0 <= i < |areas| && Inside(areas[i], end, Addr(p), Addr(p + 1));
    assert p < Hi(areas[i], TotalPages(areas));
  }

  // ----- addresses handed out in any run after init

  /** Whatever was split, merged and freed before, each page of each allocation lies wholly in an
      available area, at or above `end`, and the allocation is aligned to its size. */
  lemma RunAddresses(a: Heap, areas: seq<MemoryArea>, end: nat, cs: seq<Call>, p: nat, q: nat)
    requires CarvedFrom(a, areas, end) && MatchedRun(World(a, map[]), cs)
    requires var v := RunFrom(World(a, map[]), cs); p in v.live && p <= q < p + Frames(v.live[p])
    ensures PageAvailable(areas, end, q) && end <= Addr(p) <= Addr(q)
    ensures exists i :: 0 <= i < |areas| && areas[i].typ == 1
                        && areas[i].baseAddr <= q * 4096 && (q + 1) * 4096 <= areas[i].baseAddr + areas[i].length
    ensures Addr(p) % Bytes(RunFrom(World(a, map[]), cs).live[p]) == 0
  {
    var w := World(a, map[]);
    var v := RunFrom(w, cs);
    RunKeeps(w, cs);
    RunPartition(w, cs);
    LiveFrameOf(v, p, q);
    LiveFrameOf(v, p, p);
    assert q in Managed(a) && p in Managed(a);
    assert FrameFrom(a, areas, end, p) && FrameFrom(a, areas, end, q);
    var i :| 0 <= i < |areas| && Inside(areas[i], end, Addr(q), Addr(q + 1));
    assert areas[i].typ == 1;
  }

  /** Whatever the areas look like, as long as they are disjoint: no page of any allocation of any run
      meets the kernel image or the metadata array behind it. */
  lemma AboveMetadata(areas: seq<MemoryArea>, kernelSymbol: nat, entryBytes: nat, cs: seq<Call>, p: nat, q: nat)
    requires DisjointAreas(areas) && FitsWord(areas, kernelSymbol, entryBytes)
    requires WorldOk(World(Booted(areas, kernelSymbol, entryBytes), map[]))
    requires MatchedRun(World(Booted(areas, kernelSymbol, entryBytes), map[]), cs)
    requires var v := RunFrom(World(Booted(areas, kernelSymbol, entryBytes), map[]), cs);
             p in v.live && p <= q < p + Frames(v.live[p])
    ensures RoundUp(kernelSymbol, 4096) + |Booted(areas, kernelSymbol, entryBytes).state| * entryBytes <= Addr(q)
  {
    var w := World(Booted(areas, kernelSymbol, entryBytes), map[]);
    var v := RunFrom(w, cs);
    assert q in Managed(w.heap) by {
      RunKeeps(w, cs);
      RunPartition(w, cs);
      LiveFrameOf(v, p, q);
    }
    KernelBelow(areas, kernelSymbol, entryBytes);
    ManagedAboveKernel(areas, FinalKernelEnd(areas, kernelSymbol, entryBytes) / PAGE_SIZE_4KB, TotalPages(areas), q);
  }

  lemma ManagedAboveKernel(areas: seq<MemoryArea>, k: nat, total: nat, q: nat)
    requires total % 512 == 0 && q < total && BootHeap(CarveAll(total, areas, k, |areas|)).owner[q] != Reserved
    ensures k <= q
  {
    if q < k {
      CarveNone(total, areas, k, |areas|, q);
      CarveNone(total, areas, k, |areas|, Head(q));
    }
  }

  lemma LiveFrameOf(v: World, p: nat, q: nat)
    requires WorldOk(v) && p in v.live && p <= q < p + Frames(v.live[p])
    ensures q in LiveFrames(v) && Addr(p) % Bytes(v.live[p]) == 0
  {
    assert Fits(v.heap, p, v.live[p]);
    assert Addr(p) % Bytes(v.live[p]) == 0 by { AlignedFrame(p); }
    assert q in LiveFrames(v) by { HandedOut(v, p, q, v.live[p]); }
  }

  // ----- pages that lie in no area

  /** Every page of every allocation after the run cs is available. */
  ghost predicate EachPageAvailable(areas: seq<MemoryArea>, end: nat, w: World, cs: seq<Call>)
    requires WorldOk(w)
  {
    MatchedRun(w, cs) ==>
      var v := RunFrom(w, cs);
      forall p, q :: p in v.live && p <= q < p + Frames(v.live[p]) ==> PageAvailable(areas, end, q)
  }

  /** For disjoint areas: every page of every allocation of every run is available exactly if each
      available area starts clean or marks nothing. */
  lemma PagesAvailableIff(areas: seq<MemoryArea>, kernelSymbol: nat, entryBytes: nat)
    requires DisjointAreas(areas) && FitsWord(areas, kernelSymbol, entryBytes)
    ensures var w := World(Booted(areas, kernelSymbol, entryBytes), map[]);
            var end := FinalKernelEnd(areas, kernelSymbol, entryBytes);
            WorldOk(w)
            && ((forall cs :: EachPageAvailable(areas, end, w, cs))
                <==> AllMarkCleanly(areas, end / PAGE_SIZE_4KB, TotalPages(areas)))
  {
    var a := Booted(areas, kernelSymbol, entryBytes);
    var w := World(a, map[]);
    var end := FinalKernelEnd(areas, kernelSymbol, entryBytes);
    assert WorldOk(w) by { BootWorldOk(areas, kernelSymbol, entryBytes); }
    if AllMarkCleanly(areas, end / PAGE_SIZE_4KB, TotalPages(areas)) {
      assert CarvedFrom(a, areas, end) by { BootExact(areas, kernelSymbol, entryBytes); }
      forall cs ensures EachPageAvailable(areas, end, w, cs) {
        if MatchedRun(w, cs) { PagesOfRun(a, areas, end, cs); }
      }
    } else {
      var i :| 0 <= i < |areas| && Available(areas[i])
               && !MarksCleanly(areas[i], end / PAGE_SIZE_4KB, TotalPages(areas));
      var cs, p := UncleanHandedOut(areas, kernelSymbol, entryBytes, i);
      assert !EachPageAvailable(areas, end, w, cs);
    }
  }

  lemma PagesOfRun(a: Heap, areas: seq<MemoryArea>, end: nat, cs: seq<Call>)
    requires CarvedFrom(a, areas, end) && MatchedRun(World(a, map[]), cs)
    ensures EachPageAvailable(areas, end, World(a, map[]), cs)
  {
    var v := RunFrom(World(a, map[]), cs);
    forall p, q | p in v.live && p <= q < p + Frames(v.live[p]) ensures PageAvailable(areas, end, q) {
      RunAddresses(a, areas, end, cs, p, q);
    }
  }

  /** The page an unclean area starts in belongs to no area, is put on a list all the same, and is
      handed out by some run. */
  lemma UncleanHandedOut(areas: seq<MemoryArea>, kernelSymbol: nat, entryBytes: nat, i: nat)
    returns (cs: seq<Call>, p: nat)
    requires DisjointAreas(areas) && FitsWord(areas, kernelSymbol, entryBytes) && i < |areas| && Available(areas[i])
    requires !MarksCleanly(areas[i], FinalKernelEnd(areas, kernelSymbol, entryBytes) / PAGE_SIZE_4KB, TotalPages(areas))
    ensures p == areas[i].baseAddr / PAGE_SIZE_4KB
    ensures !PageAvailable(areas, FinalKernelEnd(areas, kernelSymbol, entryBytes), p)
    ensures var w := World(Booted(areas, kernelSymbol, entryBytes), map[]);
            WorldOk(w) && MatchedRun(w, cs) && p in RunFrom(w, cs).live
  {
    p := areas[i].baseAddr / PAGE_SIZE_4KB;
    var end := FinalKernelEnd(areas, kernelSymbol, entryBytes);
    UncleanPage(areas, end, i);
    assert WorldOk(World(Booted(areas, kernelSymbol, entryBytes), map[])) by {
      BootWorldOk(areas, kernelSymbol, entryBytes);
    }
    assert p in Booted(areas, kernelSymbol, entryBytes).free4 || p in Booted(areas, kernelSymbol, entryBytes).free2 by {
      UncleanListed(areas, end / PAGE_SIZE_4KB, TotalPages(areas), i);
    }
    cs := ListedIsHandedOut(World(Booted(areas, kernelSymbol, entryBytes), map[]), p);
  }

  /** No area holds the page in which an area that starts off a page boundary starts. */
  lemma UncleanPage(areas: seq<MemoryArea>, end: nat, i: nat)
    requires DisjointAreas(areas) && i < |areas| && Available(areas[i])
    requires areas[i].baseAddr % PAGE_SIZE_4KB != 0
    ensures !PageAvailable(areas, end, areas[i].baseAddr / PAGE_SIZE_4KB)
  {
    var p := areas[i].baseAddr / PAGE_SIZE_4KB;
    assert Addr(p) < areas[i].baseAddr < Addr(p + 1);
    forall j | 0 <= j < |areas| ensures !Inside(areas[j], end, Addr(p), Addr(p + 1)) {
      if Available(areas[j]) && i != j {
        assert Apart(areas[Min(i, j)], areas[Max(i, j)]);
      }
    }
  }

  lemma UncleanListed(areas: seq<MemoryArea>, k: nat, total: nat, i: nat)
    requires DisjointAreas(areas) && i < |areas| && Available(areas[i]) && !MarksCleanly(areas[i], k, total)
    ensures var p := areas[i].baseAddr / PAGE_SIZE_4KB;
            var a := BootHeap(CarveAll(total, areas, k, |areas|));
            p in a.free4 || p in a.free2
  {
    var p := areas[i].baseAddr / PAGE_SIZE_4KB;
    var m := CarveAll(total, areas, k, |areas|);
    CarveOne(total, areas, k, |areas|, i, p);
    DescWhereFacts(m, Free4KB, |m|);
    DescWhereFacts(m, Free2MB, |m|);
  }

  const UNCLEAN_AREA: seq<MemoryArea> := [MemoryArea(0x200800, 0x400000, 1, 0)]

  /** A concrete map: one area that starts in the middle of page 512, which boots as the head of a
      superpage and is handed out although no area holds it. */
  lemma UncleanAreaHandedOut() returns (cs: seq<Call>)
    ensures DisjointAreas(UNCLEAN_AREA) && FitsWord(UNCLEAN_AREA, 0x110000, 40)
    ensures var a := Booted(UNCLEAN_AREA, 0x110000, 40);
            |a.state| == 2048 && a.state[512] == Free2MB
            && !PageAvailable(UNCLEAN_AREA, FinalKernelEnd(UNCLEAN_AREA, 0x110000, 40), 512)
            && WorldOk(World(a, map[])) && MatchedRun(World(a, map[]), cs)
            && 512 in RunFrom(World(a, map[]), cs).live
  {
    var areas := UNCLEAN_AREA;
    UncleanSizes();
    var p;
    cs, p := UncleanHandedOut(areas, 0x110000, 40, 0);
    CarveOne(2048, areas, FinalKernelEnd(areas, 0x110000, 40) / PAGE_SIZE_4KB, 1, 0, 512);
  }

  lemma UncleanSizes()
    ensures DisjointAreas(UNCLEAN_AREA) && FitsWord(UNCLEAN_AREA, 0x110000, 40) && TotalPages(UNCLEAN_AREA) == 2048
    ensures FinalKernelEnd(UNCLEAN_AREA, 0x110000, 40) == 0x124000
  {
    assert ActualMax(UNCLEAN_AREA, 1) == 0x600800;
  }

  // ----- superpages that span two areas

  /** A corollary of the carve: a superpage in a caller's hands lies in one available area exactly if it
      was carved whole at boot; the others were merged from single pages. */
  lemma OneAreaIffCarved(a: Heap, areas: seq<MemoryArea>, end: nat, cs: seq<Call>, p: nat)
    requires CarvedFrom(a, areas, end) && MatchedRun(World(a, map[]), cs)
    requires var v := RunFrom(World(a, map[]), cs); p in v.live && v.live[p] == Size2MB
    ensures BlockAvailable(areas, end, p) <==> p in a.free2
  {
    RunKeeps(World(a, map[]), cs);
    assert Fits(RunFrom(World(a, map[]), cs).heap, p, Size2MB);
    assert FrameFrom(a, areas, end, p);
  }

  /** An aligned block whose pages are all available although no single area holds it. */
  ghost predicate Patchwork(areas: seq<MemoryArea>, end: nat, h: nat) {
    && h % 512 == 0 && !BlockAvailable(areas, end, h)
    && forall p: nat :: h <= p < h + 512 ==> PageAvailable(areas, end, p)
  }

  /** Every superpage in a caller's hands after the run cs lies in one available area. */
  ghost predicate EachInOneArea(areas: seq<MemoryArea>, end: nat, w: World, cs: seq<Call>)
    requires WorldOk(w)
  {
    MatchedRun(w, cs) ==>
      forall p :: p in RunFrom(w, cs).live && RunFrom(w, cs).live[p] == Size2MB ==> BlockAvailable(areas, end, p)
  }

  /** Superpages stay inside one area in every run exactly if the memory map leaves no block of
      available pages to be pieced together from several areas. */
  lemma SuperpagesInOneArea(a: Heap, areas: seq<MemoryArea>, end: nat)
    requires CarvedFrom(a, areas, end)
    ensures (forall cs :: EachInOneArea(areas, end, World(a, map[]), cs))
            <==> (forall h: nat :: !Patchwork(areas, end, h))
  {
    var w := World(a, map[]);
    if h: nat :| Patchwork(areas, end, h) {
      var cs := PatchworkMerges(a, areas, end, h);
      assert !EachInOneArea(areas, end, w, cs);
    } else {
      forall cs ensures EachInOneArea(areas, end, w, cs) {
        if MatchedRun(w, cs) { NoPatchworkNoSpan(a, areas, end, cs); }
      }
    }
  }

  lemma NoPatchworkNoSpan(a: Heap, areas: seq<MemoryArea>, end: nat, cs: seq<Call>)
    requires CarvedFrom(a, areas, end) && MatchedRun(World(a, map[]), cs)
    requires forall h: nat :: !Patchwork(areas, end, h)
    ensures EachInOneArea(areas, end, World(a, map[]), cs)
  {
    var w := World(a, map[]);
    var v := RunFrom(w, cs);
    RunKeeps(w, cs);
    forall p | p in v.live && v.live[p] == Size2MB ensures BlockAvailable(areas, end, p) {
      forall q: nat | p <= q < p + 512 ensures PageAvailable(areas, end, q) {
        RunAddresses(a, areas, end, cs, p, q);
      }
      assert Fits(v.heap, p, Size2MB);
      assert !Patchwork(areas, end, p);
    }
  }

  /** The run that pieces a block together: take every single page, give the block's pages back
      until they merge, and allocate the merged superpage. */
  lemma PatchworkMerges(a: Heap, areas: seq<MemoryArea>, end: nat, h: nat) returns (cs: seq<Call>)
    requires CarvedFrom(a, areas, end) && Patchwork(areas, end, h)
    ensures var w := World(a, map[]);
            MatchedRun(w, cs) && h in RunFrom(w, cs).live && RunFrom(w, cs).live[h] == Size2MB
  {
    assert PageAvailable(areas, end, h + 511);
    forall p: nat | h <= p < h + 512 ensures p in a.free4 {
      HeadUnique(p, h);
      assert PageAvailable(areas, end, p);
      assert FrameFrom(a, areas, end, p);
    }
    cs := BlockOfSingles(World(a, map[]), h);
  }

  const ADJACENT_AREAS: seq<MemoryArea> := [MemoryArea(0x200000, 0x100000, 1, 0), MemoryArea(0x300000, 0x100000, 1, 0)]

  /** A concrete map: two adjacent areas of 1 MiB each that share one aligned block. */
  lemma AdjacentAreasMerge() returns (cs: seq<Call>)
    ensures BootInputs(ADJACENT_AREAS, 0x110000, 40)
    ensures var w := World(Booted(ADJACENT_AREAS, 0x110000, 40), map[]);
            WorldOk(w) && MatchedRun(w, cs)
            && 512 in RunFrom(w, cs).live && RunFrom(w, cs).live[512] == Size2MB
            && !BlockAvailable(ADJACENT_AREAS, FinalKernelEnd(ADJACENT_AREAS, 0x110000, 40), 512)
  {
    AdjacentAreasPatchwork();
    BootExact(ADJACENT_AREAS, 0x110000, 40);
    var a := Booted(ADJACENT_AREAS, 0x110000, 40);
    cs := PatchworkMerges(a, ADJACENT_AREAS, FinalKernelEnd(ADJACENT_AREAS, 0x110000, 40), 512);
  }

  lemma AdjacentAreasPatchwork()
    ensures BootInputs(ADJACENT_AREAS, 0x110000, 40)
    ensures Patchwork(ADJACENT_AREAS, FinalKernelEnd(ADJACENT_AREAS, 0x110000, 40), 512)
  {
    var areas := ADJACENT_AREAS;
    assert ActualMax(areas, 1) == 0x300000 && ActualMax(areas, 2) == 0x400000;
    assert TotalPages(areas) == 1024;
    var end := FinalKernelEnd(areas, 0x110000, 40);
    assert end == 0x11A000;
    forall p: nat | 512 <= p < 1024 ensures PageAvailable(areas, end, p) {
      assert Inside(areas[if p < 768 then 0 else 1], end, Addr(p), Addr(p + 1));
    }
  }

  /** A memory map with room for a superpage is enough for a run that defeats the guard against a
      second free_4kb. */
  lemma SecondFreeAfterBoot(a: Heap, areas: seq<MemoryArea>, end: nat, h: nat) returns (cs: seq<Call>, p: nat)
    requires CarvedFrom(a, areas, end) && h % 512 == 0 && BlockAvailable(areas, end, h)
    ensures MatchedRun(World(a, map[]), cs)
    ensures var v := RunFrom(World(a, map[]), cs);
            WorldOk(v) && Lent(v, p) && Free4(Free4(v.heap, p), p) != Free4(v.heap, p)
  {
    BlockImpliesPage(areas, end, h, h);
    assert FrameFrom(a, areas, end, h);
    assert h in a.free2;
    cs, p := SecondFreeReachable(World(a, map[]));
  }

  // ----- the order in which memory is handed out

  /** Both lists start at the highest frame and fall. */
  lemma BootFalls(areas: seq<MemoryArea>, kernelSymbol: nat, entryBytes: nat)
    requires FitsWord(areas, kernelSymbol, entryBytes)
    ensures var a := Booted(areas, kernelSymbol, entryBytes);
            (forall i, j :: 0 <= i < j < |a.free4| ==> a.free4[i] > a.free4[j])
            && (forall i, j :: 0 <= i < j < |a.free2| ==> a.free2[i] > a.free2[j])
  {
    var m := BootArray(areas, kernelSymbol, entryBytes);
    DescWhereFalls(m, Free4KB, |m|);
    DescWhereFalls(m, Free2MB, |m|);
  }

  /** A page that the memory map makes single: available, outside every block that one area holds. */
  ghost predicate MapSingle(areas: seq<MemoryArea>, end: nat, p: nat) {
    PageAvailable(areas, end, p) && !BlockAvailable(areas, end, Head(p))
  }

  ghost predicate MapBlock(areas: seq<MemoryArea>, end: nat, h: nat) {
    h % 512 == 0 && BlockAvailable(areas, end, h)
  }

  ghost predicate HighestBlock(areas: seq<MemoryArea>, end: nat, h: nat) {
    MapBlock(areas, end, h) && forall k: nat :: MapBlock(areas, end, k) ==> k <= h
  }

  ghost predicate HighestSingle(areas: seq<MemoryArea>, end: nat, p: nat) {
    MapSingle(areas, end, p) && forall q: nat :: MapSingle(areas, end, q) ==> q <= p
  }

  /** The first allocation of a superpage gets the highest block that one area holds; that of a page the
      highest single page, or the last page of the highest block if there is no single page. */
  lemma FirstAfterBoot(areas: seq<MemoryArea>, kernelSymbol: nat, entryBytes: nat)
    requires BootInputs(areas, kernelSymbol, entryBytes)
    ensures var a := Booted(areas, kernelSymbol, entryBytes);
            Shaped(a) && HeadsInRange(a)
            && FirstOnes(a, areas, FinalKernelEnd(areas, kernelSymbol, entryBytes))
  {
    var a := Booted(areas, kernelSymbol, entryBytes);
    var end := FinalKernelEnd(areas, kernelSymbol, entryBytes);
    BootExact(areas, kernelSymbol, entryBytes);
    BootFalls(areas, kernelSymbol, entryBytes);
    FirstOfCarved(a, areas, end);
  }

  ghost predicate FirstOnes(a: Heap, areas: seq<MemoryArea>, end: nat)
    requires Shaped(a) && HeadsInRange(a)
  {
    && (match Alloc2(a).1
        case Some(h) => HighestBlock(areas, end, h)
        case None => forall k: nat :: !MapBlock(areas, end, k))
    && (match Alloc4(a).1
        case Some(p) =>
          if exists q: nat :: MapSingle(areas, end, q) then HighestSingle(areas, end, p)
          else p >= 511 && HighestBlock(areas, end, p - 511)
        case None => forall q: nat :: !PageAvailable(areas, end, q))
  }

  lemma FirstOfCarved(a: Heap, areas: seq<MemoryArea>, end: nat)
    requires CarvedFrom(a, areas, end) && Falling(a.free4) && Falling(a.free2)
    ensures HeadsInRange(a) && FirstOnes(a, areas, end)
  {
    assert HeadsInRange(a) by { NextKeeps(World(a, map[]), Allocate(Size4KB)); }
    forall k: nat ensures MapBlock(areas, end, k) <==> k in a.free2 {
      if MapBlock(areas, end, k) { BlockImpliesPage(areas, end, k, k); }
      if k < |a.state| { assert FrameFrom(a, areas, end, k); }
    }
    forall q: nat ensures MapSingle(areas, end, q) <==> q in a.free4 {
      if q < |a.state| { assert FrameFrom(a, areas, end, q); }
    }
    FallingHead(a.free2);
    FallingHead(a.free4);
    if a.free4 == [] && a.free2 != [] { assert Split(a).free4[0] == a.free2[0] + 511; }
    if a.free4 == [] && a.free2 == [] {
      forall q: nat ensures !PageAvailable(areas, end, q) {
        assert !MapSingle(areas, end, q);
        assert !MapBlock(areas, end, Head(q));
      }
    }
  }

  lemma FallingHead(s: seq<nat>)
    requires Falling(s)
    ensures s != [] ==> s[0] in s && forall x :: x in s ==> x <= s[0]
  {}
}
