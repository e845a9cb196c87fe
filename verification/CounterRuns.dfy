/** The superpage counter over whole runs. Boot leaves the counters of single pages at zero and
    alloc_4kb's decrement saturates, so a block that was never whole may count too few pages; how many
    too few is settled by the run's own history. */
module CounterRuns {
  import opened PageModel
  import opened HeapSteps
  import opened Sequential
  import opened Runs
  import opened RunTheorems
  import opened Traces
  import opened Multiboot2
  import opened BootTheorems

  predicate IsBlock(a: Heap, h: nat) { h % 512 == 0 && h + 512 <= |a.state| }

  function FreeCount(a: Heap, h: nat): nat
    requires IsBlock(a, h)
  {
    CountFree(a.state, h, h + 512)
  }

  /** By how much the counter of block h falls short of its free pages. */
  function Deficit(a: Heap, h: nat): int
    requires Shaped(a) && IsBlock(a, h)
  {
    FreeCount(a, h) - a.counter[h]
  }

  predicate SameDeficit(a: Heap, b: Heap, h: nat)
    requires Shaped(a) && Shaped(b) && IsBlock(a, h) && |a.state| == |b.state|
  {
    Deficit(b, h) == Deficit(a, h)
  }

  /** alloc_4kb is about to take a page of block h and finds the block's counter at zero already. */
  predicate Saturates(a: Heap, h: nat)
    requires Shaped(a) && h < |a.state|
  {
    a.free4 != [] && Head(a.free4[0]) == h && a.counter[h] == 0
  }

  lemma Untouched(a: Heap, b: Heap, h: nat)
    requires Shaped(a) && Shaped(b) && |a.state| == |b.state| && IsBlock(a, h) && b.counter[h] == a.counter[h]
    requires forall p :: h <= p < h + 512 ==> a.state[p] == b.state[p]
    ensures SameDeficit(a, b, h)
  {
    CountSame(a.state, b.state, h, h + 512);
  }

  lemma TakeDeficit(a: Heap, h: nat)
    requires Shaped(a) && IsBlock(a, h) && a.free4 != [] && a.free4[0] < |a.state| && a.state[a.free4[0]] == Free4KB
    ensures Deficit(TakeFree4(a), h) == Deficit(a, h) - (if Saturates(a, h) then 1 else 0)
  {
    var p, b := a.free4[0], TakeFree4(a);
    if Head(p) == h {
      assert FreeCount(b, h) == FreeCount(a, h) - 1 by { CountUpdate(a.state, h, h + 512, p, Allocated); }
      assert b.counter[h] == SatSub(a.counter[h]);
    } else {
      forall q | h <= q < h + 512 ensures a.state[q] == b.state[q] { HeadUnique(q, h); }
      Untouched(a, b, h);
    }
  }

  lemma Alloc4Deficit(a: Heap, h: nat)
    requires Quiet(a) && HeadsInRange(a) && IsBlock(a, h) && h !in a.tracked
    ensures Shaped(Alloc4(a).0) && |Alloc4(a).0.state| == |a.state|
    ensures Deficit(Alloc4(a).0, h) == Deficit(a, h) - (if Saturates(a, h) then 1 else 0)
    ensures Saturates(a, h) ==> Alloc4(a).0.counter[h] == 0
  {
    if a.free4 != [] {
      assert a.free4[0] in a.free4;
      assert PageOk(a, a.free4[0]);
      TakeDeficit(a, h);
    } else if a.free2 == [] {
      Untouched(a, a, h);
    } else {
      var k := a.free2[0];
      assert k in a.free2;
      assert PageOk(a, k) && BlockOk(a, k);
      SplitElsewhere(a, h, k);
    }
  }

  lemma SplitElsewhere(a: Heap, h: nat, k: nat)
    requires Shaped(a) && IsBlock(a, h) && IsBlock(a, k) && h != k && a.free4 == [] && a.free2 != [] && a.free2[0] == k
    ensures Split(a).free4 != [] && Split(a).free4[0] == k + 511 && SameDeficit(a, TakeFree4(Split(a)), h)
  {
    HeadUnique(k + 511, k);
    assert Split(a).free4 == Descending(k, 512);
    var b := TakeFree4(Split(a));
    forall p | h <= p < h + 512 ensures a.state[p] == b.state[p] {
      if k <= p < k + 512 { HeadUnique(p, k); HeadUnique(p, h); }
    }
    Untouched(a, b, h);
  }

  lemma Alloc2Deficit(a: Heap, h: nat)
    requires Quiet(a) && HeadsInRange(a) && IsBlock(a, h) && h !in a.tracked
    ensures Shaped(Alloc2(a).0) && SameDeficit(a, Alloc2(a).0, h)
  {
    if a.free2 != [] {
      var k := a.free2[0];
      assert k in a.free2;
      assert PageOk(a, k) && BlockOk(a, k);
    }
    Untouched(a, Alloc2(a).0, h);
  }

  lemma Free4Deficit(a: Heap, p: nat, h: nat)
    requires Quiet(a) && p < |a.state| && a.owner[p] == User4 && IsBlock(a, h) && h !in Free4(a, p).tracked
    ensures Shaped(Free4(a, p)) && SameDeficit(a, Free4(a, p), h)
  {
    ReleaseKeeps(a, p);
    if Head(p) == h {
      var b := PushFreed(MarkFreed(a, p), p);
      if b.counter[h] == 512 { FullCounterMeansFree(b, h); }
      CountUpdate(a.state, h, h + 512, p, Free4KB);
    } else {
      FreeElsewhere(a, p, h);
    }
  }

  lemma FreeElsewhere(a: Heap, p: nat, h: nat)
    requires Shaped(a) && p < |a.state| && a.state[p] != Free4KB && IsBlock(a, h) && Head(p) != h
    ensures Shaped(Free4(a, p)) && SameDeficit(a, Free4(a, p), h)
  {
    var k := Head(p);
    Untouched(a, Free4(a, p), h);
  }

  lemma Free2Deficit(a: Heap, k: nat, h: nat)
    requires Quiet(a) && k < |a.state| && k % 512 == 0 && a.owner[k] == User2 && IsBlock(a, h) && h !in a.tracked
    ensures Shaped(Free2(a, k)) && SameDeficit(a, Free2(a, k), h)
  {
    HeadUnique(k, k);
    assert PageOk(a, k) && BlockOk(a, k);
    Untouched(a, Free2(a, k), h);
  }

  /** One matched call on a block that is not, and does not become, a superpage: no free changes the
      deficit, and an allocation lowers it, by one, exactly when its decrement saturates. */
  lemma NextDeficit(w: World, c: Call, h: nat)
    requires WorldOk(w) && Matched(w, c) && IsBlock(w.heap, h)
    requires HeadsInRange(w.heap) && (c.Release? ==> CanFreePage(w.heap, c.addr, c.size))
    requires h !in w.heap.tracked && h !in Next(w, c).heap.tracked
    ensures Shaped(Next(w, c).heap) && |Next(w, c).heap.state| == |w.heap.state|
    ensures var sat := c == Allocate(Size4KB) && Saturates(w.heap, h);
            Deficit(Next(w, c).heap, h) == Deficit(w.heap, h) - (if sat then 1 else 0)
            && (sat ==> Next(w, c).heap.counter[h] == 0)
  {
    match c
    case Allocate(Size4KB) => Alloc4Deficit(w.heap, h);
    case Allocate(Size2MB) => Alloc2Deficit(w.heap, h);
    case Release(x, size) =>
      var p := x / PAGE_SIZE_4KB;
      assert Fits(w.heap, p, size);
      if size == Size4KB { Free4Deficit(w.heap, p, h); } else { Free2Deficit(w.heap, p, h); }
  }

  // ----- over runs

  /** A block that is no superpage is counted by its pages on the 4 KiB list. */
  lemma CountIsFree(w: World, h: nat)
    requires WorldOk(w) && IsBlock(w.heap, h) && h !in w.heap.tracked
    ensures FreeCount(w.heap, h) == |FreeInBlock(w.heap, h, h + 512)|
    ensures 0 <= Deficit(w.heap, h) <= FreeCount(w.heap, h)
  {
    var a := w.heap;
    assert BlockOk(a, h);
    forall p | h <= p < h + 512 ensures a.state[p] == Free4KB <==> p in a.free4 {
      HeadUnique(p, h);
      ListsByState(w, p);
    }
    CountIsCardinality(a, h, h + 512);
  }

  /** How many pages of block h are on the 4 KiB list. */
  ghost function FreeOf(w: World, h: nat): nat {
    |FreeInBlock(w.heap, h, h + 512)|
  }

  /** d is the smaller of `start` and the least number of block h's pages on the 4 KiB list in any
      of the worlds ws[0..n]. */
  ghost predicate LeastFree(ws: seq<World>, n: nat, h: nat, start: int, d: int)
    requires n < |ws|
  {
    && d <= start && (forall j :: 0 <= j <= n ==> d <= FreeOf(ws[j], h))
    && (d == start || exists j :: 0 <= j <= n && d == FreeOf(ws[j], h))
  }

  lemma LeastFreeNext(ws: seq<World>, n: nat, h: nat, start: int, d: int, e: int)
    requires n + 1 < |ws| && LeastFree(ws, n, h, start, d)
    requires e == if d <= FreeOf(ws[n + 1], h) then d else FreeOf(ws[n + 1], h)
    ensures LeastFree(ws, n + 1, h, start, e)
  {}

  /** The law of the counter: while block h stays single pages, its deficit after n calls is the
      smaller of the deficit at the start and the least number of its pages that were ever on the
      4 KiB list. */
  lemma {:induction false} DeficitLaw(w: World, cs: seq<Call>, v: World, ws: seq<World>, h: nat, n: nat)
    requires WorldOk(w) && Worlds(w, cs, v, ws) && n <= |cs| && IsBlock(w.heap, h)
    requires h !in ws[n].heap.tracked
    ensures Shaped(ws[n].heap) && IsBlock(ws[n].heap, h)
    ensures LeastFree(ws, n, h, Deficit(w.heap, h), Deficit(ws[n].heap, h))
  {
    if n == 0 {
      CountIsFree(w, h);
    } else {
      var u, c := ws[n - 1], cs[n - 1];
      assert Leads(u, c, ws[n]) by { assert StepAt(ws, cs, n - 1); }
      assert IsBlock(u.heap, h) by { WorldsKeep(w, cs, v, ws, n - 1); }
      LeadsDeficit(u, c, ws[n], h);
      DeficitLaw(w, cs, v, ws, h, n - 1);
      LeastFreeNext(ws, n - 1, h, Deficit(w.heap, h), Deficit(u.heap, h), Deficit(ws[n].heap, h));
    }
  }

  lemma LeadsDeficit(u: World, c: Call, v: World, h: nat)
    requires Leads(u, c, v) && IsBlock(u.heap, h) && h !in v.heap.tracked
    ensures Shaped(u.heap) && Shaped(v.heap) && |u.heap.state| == |v.heap.state| && h !in u.heap.tracked
    ensures Deficit(v.heap, h) ==
            if Deficit(u.heap, h) <= FreeOf(v, h) then Deficit(u.heap, h) else FreeOf(v, h)
  {
    NextKeeps(u, c);
    NextDeficit(u, c, h);
    CountIsFree(v, h);
  }

  /** The counter of block h in the last of the worlds ws is too small by exactly the least number of
      the block's pages that were on the 4 KiB list in any of them; so it is exact if and only if at
      some point none of them was. */
  ghost predicate CounterLaw(ws: seq<World>, n: nat, h: nat)
    requires n < |ws| && Shaped(ws[n].heap) && IsBlock(ws[n].heap, h)
  {
    var c := ws[n].heap.counter[h];
    && (forall j :: 0 <= j <= n ==> FreeOf(ws[n], h) - c <= FreeOf(ws[j], h))
    && (exists j :: 0 <= j <= n && FreeOf(ws[n], h) - c == FreeOf(ws[j], h))
    && (c == FreeOf(ws[n], h) <==> exists j :: 0 <= j <= n && FreeInBlock(ws[j].heap, h, h + 512) == {})
  }

  lemma LeastFreeIsLaw(ws: seq<World>, n: nat, h: nat)
    requires n < |ws| && Shaped(ws[n].heap) && IsBlock(ws[n].heap, h)
    requires FreeCount(ws[n].heap, h) == FreeOf(ws[n], h) && Deficit(ws[n].heap, h) >= 0
    requires LeastFree(ws, n, h, FreeOf(ws[0], h), Deficit(ws[n].heap, h))
    ensures CounterLaw(ws, n, h)
  {
    var d := Deficit(ws[n].heap, h);
    assert exists j :: 0 <= j <= n && d == FreeOf(ws[j], h);
    forall j | 0 <= j <= n ensures FreeOf(ws[j], h) == 0 <==> FreeInBlock(ws[j].heap, h, h + 512) == {} {}
  }

  /** After any run from a state with counter 0, such as boot leaves every block of single pages in. */
  lemma DeficitFromZero(w: World, cs: seq<Call>, v: World, ws: seq<World>, h: nat)
    requires WorldOk(w) && Worlds(w, cs, v, ws)
    requires IsBlock(w.heap, h) && w.heap.counter[h] == 0 && h !in v.heap.tracked
    ensures Shaped(v.heap) && IsBlock(v.heap, h) && CounterLaw(ws, |cs|, h)
  {
    WorldsKeep(w, cs, v, ws, |cs|);
    DeficitLaw(w, cs, v, ws, h, |cs|);
    CountIsFree(w, h);
    CountIsFree(v, h);
    LeastFreeIsLaw(ws, |cs|, h);
  }

  /** The law from boot on, for every block that never was a superpage. */
  lemma DeficitAfterBoot(a: Heap, areas: seq<MemoryArea>, end: nat, cs: seq<Call>, v: World, ws: seq<World>, h: nat)
    requires CarvedFrom(a, areas, end) && IsBlock(a, h)
    requires Worlds(World(a, map[]), cs, v, ws) && h !in v.heap.tracked
    ensures Shaped(v.heap) && IsBlock(v.heap, h) && CounterLaw(ws, |cs|, h)
  {
    var w := World(a, map[]);
    assert a.tracked <= v.heap.tracked by { WorldsKeep(w, cs, v, ws, |cs|); }
    assert FrameFrom(a, areas, end, h);
    DeficitFromZero(w, cs, v, ws, h);
  }
}
