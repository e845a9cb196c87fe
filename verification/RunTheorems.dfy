/** What every run of matched calls keeps, stated over the caller's map and the two lists. */
module RunTheorems {
  import opened PageModel
  import opened HeapSteps
  import opened Sequential
  import opened Runs

  ghost predicate MatchedRun(w: World, cs: seq<Call>)
    requires WorldOk(w)
    decreases |cs|
  {
    cs == [] ||
    (Matched(w, cs[0]) && (NextKeeps(w, cs[0]); MatchedRun(Next(w, cs[0]), cs[1..])))
  }

  ghost function RunFrom(w: World, cs: seq<Call>): World
    requires WorldOk(w) && MatchedRun(w, cs)
    decreases |cs|
  {
    if cs == [] then w
    else
      NextKeeps(w, cs[0]);
      RunFrom(Next(w, cs[0]), cs[1..])
  }

  /** The invariant survives runs of any length; boot-time ownership and superpages are kept. */
  lemma {:induction false} RunKeeps(w: World, cs: seq<Call>)
    requires WorldOk(w) && MatchedRun(w, cs)
    ensures GoodNext(w, RunFrom(w, cs))
    decreases |cs|
  {
    if cs != [] {
      NextKeeps(w, cs[0]);
      RunKeeps(Next(w, cs[0]), cs[1..]);
      Compose(w, Next(w, cs[0]), RunFrom(w, cs));
    }
  }

  lemma Compose(u: World, v: World, w: World)
    requires GoodNext(u, v) && GoodNext(v, w)
    ensures GoodNext(u, w)
  {
    forall p | 0 <= p < |u.heap.state|
      ensures u.heap.owner[p] == Reserved <==> w.heap.owner[p] == Reserved
    {
      assert u.heap.owner[p] == Reserved <==> v.heap.owner[p] == Reserved;
    }
  }

  // ----- who holds which frame

  ghost function FreeFrames(a: Heap): set<nat> {
    set p | 0 <= p < |a.state| && (p in a.free4 || Head(p) in a.free2)
  }

  ghost function LiveFrames(w: World): set<nat> {
    set p | 0 <= p < |w.heap.state| &&
            ((p in w.live && w.live[p] == Size4KB) || (Head(p) in w.live && w.live[Head(p)] == Size2MB))
  }

  /** The frames the allocator was given at boot. */
  ghost function Managed(a: Heap): set<nat>
    requires Shaped(a)
  {
    set p | 0 <= p < |a.state| && a.owner[p] != Reserved
  }

  lemma FreeIffPool(a: Heap, p: nat)
    requires Inv(a, Nothing) && p < |a.state|
    ensures p in FreeFrames(a) <==> a.owner[p] in {List4, List2}
    ensures !(p in a.free4 && Head(p) in a.free2)
  {
    assert PageOk(a, p) && PageOk(a, Head(p));
  }

  lemma LiveIffClient(w: World, p: nat)
    requires WorldOk(w) && p < |w.heap.state|
    ensures p in LiveFrames(w) <==> w.heap.owner[p] in {User4, User2}
  {
    var h := Head(p);
    assert PageOk(w.heap, p);
    assert Fits(w.heap, p, Size4KB) <==> w.heap.owner[p] == User4;
    assert Fits(w.heap, h, Size2MB) <==> w.heap.owner[h] == User2;
  }

  /** Free and live frames partition what the allocator manages; the two lists do not overlap. */
  lemma Partition(w: World)
    requires WorldOk(w)
    ensures FreeFrames(w.heap) !! LiveFrames(w)
    ensures FreeFrames(w.heap) + LiveFrames(w) == Managed(w.heap)
    ensures forall p :: p in w.heap.free4 ==> Head(p) !in w.heap.free2
  {
    forall p | 0 <= p < |w.heap.state|
      ensures !(p in FreeFrames(w.heap) && p in LiveFrames(w))
      ensures p in FreeFrames(w.heap) || p in LiveFrames(w) <==> p in Managed(w.heap)
      ensures p in w.heap.free4 ==> Head(p) !in w.heap.free2
    {
      FreeIffPool(w.heap, p);
      LiveIffClient(w, p);
      assert w.heap.owner[p] == Moving <==> Flying(Nothing, p);
    }
  }

  /** No frame is lost or invented by any run. */
  lemma RunPartition(w: World, cs: seq<Call>)
    requires WorldOk(w) && MatchedRun(w, cs)
    ensures var v := RunFrom(w, cs);
            Shaped(v.heap)
            && FreeFrames(v.heap) !! LiveFrames(v)
            && FreeFrames(v.heap) + LiveFrames(v) == Managed(v.heap) == Managed(w.heap)
  {
    RunKeeps(w, cs);
    var v := RunFrom(w, cs);
    Partition(v);
    assert Managed(v.heap) == Managed(w.heap);
  }

  /** Two live allocations never share a byte, whatever their sizes. */
  lemma LiveDisjoint(w: World, p: nat, q: nat)
    requires WorldOk(w) && p in w.live && q in w.live && p != q
    ensures Addr(p) + Bytes(w.live[p]) <= Addr(q) || Addr(q) + Bytes(w.live[q]) <= Addr(p)
  {
    assert Fits(w.heap, p, w.live[p]) && Fits(w.heap, q, w.live[q]);
    assert PageOk(w.heap, p) && PageOk(w.heap, q);
    if p < q < p + Frames(w.live[p]) { HeadUnique(q, p); }
    if q < p < q + Frames(w.live[q]) { HeadUnique(p, q); }
  }

  /** Frames p.. of one allocation: all free in `w`, all live in `v`. */
  ghost predicate Granted(w: World, v: World, p: nat, size: PageSize)
    requires Shaped(w.heap)
  {
    && p + Frames(size) <= |w.heap.state|
    && Addr(p) % Bytes(size) == 0
    && forall q :: p <= q < p + Frames(size) ==>
         q in FreeFrames(w.heap) && q in Managed(w.heap) && q in LiveFrames(v)
  }

  lemma GrantedBy(w: World, v: World, p: nat, size: PageSize)
    requires Inv(w.heap, Nothing) && Shaped(v.heap) && |v.heap.state| == |w.heap.state|
    requires p + Frames(size) <= |w.heap.state|
    requires UniformHolder(w.heap, p, p + Frames(size), Pool)
    requires p in v.live && v.live[p] == size && (size == Size2MB ==> p % 512 == 0)
    ensures Granted(w, v, p, size)
  {
    forall q | p <= q < p + Frames(size)
      ensures q in FreeFrames(w.heap) && q in Managed(w.heap) && q in LiveFrames(v)
    {
      assert HolderOf(w.heap.owner[q]) == Pool;
      assert w.heap.owner[q] == Moving <==> Flying(Nothing, q);
      FreeIffPool(w.heap, q);
      HandedOut(v, p, q, size);
    }
  }

  /** A call that allocates fails exactly when it finds its lists empty; otherwise the frames it
      hands out were free, are aligned to their size and belong to the managed memory. */
  lemma FreshAllocation(w: World, size: PageSize)
    requires WorldOk(w)
    ensures HeadsInRange(w.heap)
    ensures AllocatePage(w.heap, size).1.None? <==>
              w.heap.free2 == [] && (size == Size4KB ==> w.heap.free4 == [])
    ensures AllocatePage(w.heap, size).1.Some? ==>
              var x := AllocatePage(w.heap, size).1.value;
              x % PAGE_SIZE_4KB == 0 && Granted(w, Next(w, Allocate(size)), x / PAGE_SIZE_4KB, size)
  {
    assert HeadsInRange(w.heap) by { HeadsOk(w.heap, Nothing); }
    var r := if size == Size4KB then Alloc4(w.heap).1 else Alloc2(w.heap).1;
    assert r.None? <==> w.heap.free2 == [] && (size == Size4KB ==> w.heap.free4 == []);
    if r.Some? {
      AddrFrame(r.value);
      assert Granted(w, Next(w, Allocate(size)), r.value, size) by {
        if size == Size4KB { Fresh4(w); } else { Fresh2(w); }
      }
    }
  }

  lemma Fresh4(w: World)
    requires WorldOk(w) && HeadsInRange(w.heap)
    ensures Alloc4(w.heap).1.Some? ==> Granted(w, Next(w, Allocate(Size4KB)), Alloc4(w.heap).1.value, Size4KB)
  {
    if Alloc4(w.heap).1.Some? {
      Alloc4Holders(w.heap);
      GrantedBy(w, Next(w, Allocate(Size4KB)), Alloc4(w.heap).1.value, Size4KB);
    }
  }

  lemma Fresh2(w: World)
    requires WorldOk(w) && HeadsInRange(w.heap)
    ensures Alloc2(w.heap).1.Some? ==> Granted(w, Next(w, Allocate(Size2MB)), Alloc2(w.heap).1.value, Size2MB)
  {
    if Alloc2(w.heap).1.Some? {
      Alloc2Holders(w.heap);
      GrantedBy(w, Next(w, Allocate(Size2MB)), Alloc2(w.heap).1.value, Size2MB);
    }
  }

  /** All frames of a live allocation are live frames. */
  lemma HandedOut(v: World, p: nat, q: nat, size: PageSize)
    requires p in v.live && v.live[p] == size && p <= q < p + Frames(size) && p < |v.heap.state|
    requires Shaped(v.heap) && (size == Size2MB ==> p % 512 == 0)
    ensures q in LiveFrames(v)
  {
    if size == Size2MB { HeadUnique(q, p); }
  }

  /** The state words alone say what is on which list: the 2 MiB list holds exactly the pages marked
      Free2MB, all of them block heads, and the 4 KiB list exactly the Free4KB pages of broken blocks. */
  lemma ListsByState(w: World, p: nat)
    requires WorldOk(w) && p < |w.heap.state|
    ensures p in w.heap.free2 <==> w.heap.state[p] == Free2MB
    ensures w.heap.state[p] == Free2MB ==> p % 512 == 0
    ensures p in w.heap.free4 <==> w.heap.state[p] == Free4KB && !Whole(w.heap, Head(p))
  {
    var a := w.heap;
    assert PageOk(a, p) && PageOk(a, Head(p));
    HeadUnique(Head(p), Head(p));
    assert a.owner[p] == Moving <==> Flying(Nothing, p);
    assert a.owner[Head(p)] == Moving <==> Flying(Nothing, Head(p));
  }

  // ----- splitting and merging

  lemma SplitKeepsFreeFrames(a: Heap)
    requires Quiet(a) && a.free2 != []
    ensures HeadsInRange(a) && FreeFrames(Split(a)) == FreeFrames(a)
  {
    SplitKeeps(a);
    forall p | 0 <= p < |a.state| ensures p in FreeFrames(Split(a)) <==> p in FreeFrames(a) {
      FreeIffPool(a, p);
      FreeIffPool(Split(a), p);
      if InBlock(a.free2[0], p) {}
    }
  }

  lemma MergeKeepsFreeFrames(a: Heap, p: nat)
    requires Inv(a, Nothing) && p < |a.state|
    ensures FreeFrames(TryMerge(a, p)) == FreeFrames(a)
  {
    TryMergeKeeps(a, p);
    MergeHolders(a, p);
    var b := TryMerge(a, p);
    forall q | 0 <= q < |a.state| ensures q in FreeFrames(b) <==> q in FreeFrames(a) {
      FreeIffPool(a, q);
      FreeIffPool(b, q);
      assert HolderOf(a.owner[q]) == HolderOf(b.owner[q]);
      assert a.owner[q] == Moving <==> Flying(Nothing, q);
      assert b.owner[q] == Moving <==> Flying(Nothing, q);
    }
  }

  // ----- coalescing

  /** A superpage known to the allocator is on the 2 MiB list, handed out whole, or has a 4 KiB
      page in a caller's hands: no fully free block stays broken. */
  lemma Coalesced(w: World, h: nat)
    requires WorldOk(w) && h in w.heap.tracked && h % 512 == 0 && h < |w.heap.state|
    ensures h in w.heap.free2
            || (h in w.live && w.live[h] == Size2MB)
            || exists p :: h <= p < h + 512 && p in w.live && w.live[p] == Size4KB
  {
    var a := w.heap;
    assert BlockOk(a, h) && PageOk(a, h);
    assert a.owner[h] == Moving <==> Flying(Nothing, h);
    if Whole(a, h) {
      assert a.owner[h] == User2 ==> Fits(a, h, Size2MB);
    } else {
      CountFull(a.state, h, h + 512);
      var p :| h <= p < h + 512 && a.state[p] != Free4KB;
      HeadUnique(p, h);
      assert PageOk(a, p);
      assert a.owner[p] == Moving <==> Flying(Nothing, p);
      assert Fits(a, p, Size4KB);
    }
  }

  /** Over whole runs: every superpage of the starting state is still accounted for, and once all
      allocations are back, so are all superpages and all frames. */
  lemma RunCoalesced(w: World, cs: seq<Call>)
    requires WorldOk(w) && MatchedRun(w, cs)
    ensures var v := RunFrom(w, cs);
            forall h :: h in w.heap.tracked && h % 512 == 0 && h < |w.heap.state| ==>
              h in v.heap.free2
              || (h in v.live && v.live[h] == Size2MB)
              || exists p :: h <= p < h + 512 && p in v.live && v.live[p] == Size4KB
    ensures var v := RunFrom(w, cs);
            v.live == map[] ==>
              (forall h :: h in w.heap.tracked && h % 512 == 0 && h < |w.heap.state| ==> h in v.heap.free2)
              && FreeFrames(v.heap) == Managed(w.heap)
  {
    RunKeeps(w, cs);
    RunPartition(w, cs);
    var v := RunFrom(w, cs);
    forall h | h in w.heap.tracked && h % 512 == 0 && h < |w.heap.state|
      ensures h in v.heap.free2
              || (h in v.live && v.live[h] == Size2MB)
              || exists p :: h <= p < h + 512 && p in v.live && v.live[p] == Size4KB
    {
      Coalesced(v, h);
    }
    if v.live == map[] {
      assert LiveFrames(v) == {};
    }
  }

  // ----- counters

  ghost function FreeInBlock(a: Heap, lo: nat, hi: nat): set<nat> {
    set p | lo <= p < hi && p in a.free4
  }

  lemma {:induction false} CountIsCardinality(a: Heap, lo: nat, hi: nat)
    requires lo <= hi <= |a.state|
    requires forall p :: lo <= p < hi ==> (a.state[p] == Free4KB <==> p in a.free4)
    ensures CountFree(a.state, lo, hi) == |FreeInBlock(a, lo, hi)|
    decreases hi - lo
  {
    if lo == hi {
      assert FreeInBlock(a, lo, hi) == {};
    } else {
      CountIsCardinality(a, lo, hi - 1);
      var s := FreeInBlock(a, lo, hi - 1);
      assert FreeInBlock(a, lo, hi) == if hi - 1 in a.free4 then s + {hi - 1} else s;
    }
  }

  /** In every state a run can reach, a broken block's counter never exceeds the number of its pages
      on the 4 KiB list, and equals it if the block was ever whole; it never reads 512. */
  lemma CounterMeaning(w: World, h: nat)
    requires WorldOk(w) && h % 512 == 0 && h < |w.heap.state| && !Whole(w.heap, h)
    ensures w.heap.counter[h] <= |FreeInBlock(w.heap, h, h + 512)|
    ensures h in w.heap.tracked ==> w.heap.counter[h] == |FreeInBlock(w.heap, h, h + 512)|
    ensures w.heap.counter[h] < 512
  {
    var a := w.heap;
    assert BlockOk(a, h);
    forall p | h <= p < h + 512 ensures a.state[p] == Free4KB <==> p in a.free4 {
      HeadUnique(p, h);
      assert PageOk(a, p);
      assert a.owner[p] == Moving <==> Flying(Nothing, p);
    }
    CountIsCardinality(a, h, h + 512);
  }

  /** In a block that was ever whole, neither the decrement of alloc_4kb nor the increment of
      free_4kb saturates. */
  lemma SplitBlocksNeverSaturate(w: World, p: nat)
    requires WorldOk(w) && p < |w.heap.state| && Head(p) in w.heap.tracked
    ensures p in w.heap.free4 ==> w.heap.counter[Head(p)] >= 1
    ensures p in w.live && w.live[p] == Size4KB ==>
              SatAdd(w.heap.counter[Head(p)]) == w.heap.counter[Head(p)] + 1 <= 512
  {
    var a := w.heap;
    var h := Head(p);
    assert PageOk(a, p) && PageOk(a, h) && BlockOk(a, h);
    if p in a.free4 {
      CountUpdate(a.state, h, h + 512, p, Allocated);
    }
    if p in w.live && w.live[p] == Size4KB {
      assert Fits(a, p, Size4KB);
      ReleaseKeeps(a, p);
    }
  }
}
