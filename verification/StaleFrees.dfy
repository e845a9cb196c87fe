/** A second free of a 4 KiB page that comes at any later time: what the state check in free_4kb catches
    and what it does not. */
module StaleFrees {
  import opened PageModel
  import opened Sequential
  import opened Runs
  import opened Traces
  import opened Reachability

  /** Page p was handed out singly and given back: it is free, or part of a superpage since. */
  predicate Stale(a: Heap, p: nat) {
    && Shaped(a) && p < |a.state| && a.owner[p] != User4
    && (a.state[p] == Free4KB || (p % 512 == 0 && Whole(a, p)))
  }

  // ----- how a page becomes and stays stale

  lemma MergeStale(a: Heap, q: nat, p: nat)
    requires Shaped(a) && q < |a.state| && Stale(a, p)
    ensures Stale(TryMerge(a, q), p)
  {}

  lemma FreedIsStale(a: Heap, p: nat)
    requires Quiet(a) && p < |a.state| && a.owner[p] == User4
    ensures Stale(Free4(a, p), p)
  {
    ReleaseKeeps(a, p);
    var b := PushFreed(MarkFreed(a, p), p);
    assert Stale(b, p);
    MergeStale(b, p, p);
  }

  lemma Free4Stale(a: Heap, q: nat, p: nat)
    requires Quiet(a) && q < |a.state| && a.owner[q] == User4 && Stale(a, p)
    ensures Stale(Free4(a, q), p)
  {
    ReleaseKeeps(a, q);
    var b := PushFreed(MarkFreed(a, q), q);
    assert Stale(b, p);
    MergeStale(b, q, p);
  }

  lemma Free2Stale(a: Heap, h: nat, p: nat)
    requires Shaped(a) && h % 512 == 0 && h + 512 <= |a.state| && Stale(a, p)
    ensures Stale(Free2(a, h), p)
  {
    HeadUnique(h, h);
  }

  /** An allocation of one page keeps every stale page stale but the one it hands out. */
  lemma Alloc4Stale(a: Heap, p: nat)
    requires Quiet(a) && HeadsInRange(a) && Stale(a, p)
    ensures Alloc4(a).1 != Some(p) ==> Stale(Alloc4(a).0, p)
  {
    if a.free4 == [] && a.free2 != [] { SplitStale(a, p); }
  }

  lemma SplitStale(a: Heap, p: nat)
    requires Shaped(a) && HeadsInRange(a) && a.free2 != [] && Stale(a, p)
    ensures Split(a).free4 != [] && Split(a).free4[0] < |a.state|
    ensures Stale(Split(a), p) && (Split(a).free4[0] != p ==> Stale(TakeFree4(Split(a)), p))
  {
    assert Split(a).free4[0] == a.free2[0] + 511;
  }

  lemma Alloc2Stale(a: Heap, p: nat)
    requires Quiet(a) && HeadsInRange(a) && Stale(a, p)
    ensures Stale(Alloc2(a).0, p)
  {
    Alloc2Keeps(a);
  }

  /** A matched free makes its page stale. */
  lemma ReleaseStale(w: World, v: World, p: nat)
    requires Leads(w, Release(Addr(p), Size4KB), v)
    ensures Stale(v.heap, p)
  {
    AddrFrame(p);
    assert Fits(w.heap, p, Size4KB);
    FreedIsStale(w.heap, p);
  }

  /** From then on it is stale until it is handed out singly again, and no longer. */
  lemma NextStale(w: World, c: Call, v: World, p: nat)
    requires Leads(w, c, v) && Stale(w.heap, p)
    ensures Stale(v.heap, p) <==> !Lent(v, p)
  {
    NextKeeps(w, c);
    assert Lent(v, p) ==> Fits(v.heap, p, Size4KB);
    match c
    case Allocate(Size4KB) =>
      Alloc4Stale(w.heap, p);
      if Alloc4(w.heap).1.Some? { AddrFrame(Alloc4(w.heap).1.value); }
    case Allocate(Size2MB) => Alloc2Stale(w.heap, p);
    case Release(x, size) =>
      var q := x / PAGE_SIZE_4KB;
      assert Fits(w.heap, q, size);
      if size == Size4KB { Free4Stale(w.heap, q, p); } else { Free2Stale(w.heap, q, p); }
  }

  // ----- what the guard does with a stale page

  /** Page p heads a superpage that is free or handed out whole. */
  predicate HeadsSuperpage(v: World, p: nat) {
    p in v.heap.free2 || (p in v.live && v.live[p] == Size2MB)
  }

  /** free_4kb ignores a stale page if and only if that page does not head a superpage now. */
  lemma IgnoredIff(v: World, p: nat)
    requires WorldOk(v) && Stale(v.heap, p)
    ensures Free4(v.heap, p) == v.heap <==> !HeadsSuperpage(v, p)
  {
    var a := v.heap;
    assert PageOk(a, p);
    assert a.owner[p] == Moving <==> Flying(Nothing, p);
    assert Fits(a, p, Size2MB) <==> p % 512 == 0 && a.owner[p] == User2;
    assert p in v.live ==> Fits(a, p, v.live[p]);
    if a.state[p] != Free4KB {
      HeadUnique(p, p);
      assert BlockOk(a, p);
      assert PushFreed(MarkFreed(a, p), p).counter[p] == 513;
      assert Free4(a, p).counter[p] != a.counter[p];
    }
  }

  /** Over whole runs: after a matched free of page p, and as long as p is not handed out singly again,
      a second free of it is ignored if and only if p does not head a superpage at that time. */
  lemma {:induction false} SecondFreeLater(w: World, cs: seq<Call>, v: World, ws: seq<World>, p: nat, k: nat, n: nat)
    requires Worlds(w, cs, v, ws) && k < n <= |cs| && cs[k] == Release(Addr(p), Size4KB)
    requires forall j :: k < j <= n ==> !Lent(ws[j], p)
    ensures Stale(ws[n].heap, p)
    ensures Free4(ws[n].heap, p) == ws[n].heap <==> !HeadsSuperpage(ws[n], p)
    decreases n
  {
    assert StepAt(ws, cs, n - 1);
    if n == k + 1 {
      ReleaseStale(ws[k], ws[n], p);
    } else {
      SecondFreeLater(w, cs, v, ws, p, k, n - 1);
      NextStale(ws[n - 1], cs[n - 1], ws[n], p);
    }
    NextKeeps(ws[n - 1], cs[n - 1]);
    IgnoredIff(ws[n], p);
  }

  // ----- a run on which the guard fails although the first free completed nothing

  /** From every state with a superpage in reserve: page p comes back while the rest of its block is lent
      out, so that a second free at once is ignored (world x); the rest comes back and the block merges,
      and a second free is not ignored (world y); nor is it when the block is then handed out whole
      (world z). */
  lemma LateSecondFree(w: World) returns (cs: seq<Call>, x: World, ds: seq<Call>, y: World, z: World, p: nat)
    requires WorldOk(w) && w.heap.free2 != []
    ensures Path(w, cs + [Release(Addr(p), Size4KB)], x) && Free4(x.heap, p) == x.heap
    ensures Path(x, ds, y) && p !in y.live && Free4(y.heap, p) != y.heap
    ensures Path(x, ds + [Allocate(Size2MB)], z) && p in z.live && z.live[p] == Size2MB && Free4(z.heap, p) != z.heap
  {
    var u;
    cs, u, p := LendBlock(w);
    assert Lent(u, p);
    AddrFrame(p);
    x := Extend(w, cs, u, Release(Addr(p), Size4KB));
    HeadReturned(u, x, p);
    y := RestReturned(x, p);
    ds := GiveBack(p, 510) + [Release(Addr(p + 1), Size4KB)];
    z := Extend(x, ds, y, Allocate(Size2MB));
    MergedHead(y, z, p);
  }

  lemma HeadReturned(u: World, x: World, h: nat)
    requires Leads(u, Release(Addr(h), Size4KB), x) && h % 512 == 0 && h + 512 <= |u.heap.state|
    requires AllLent(u, h, h + 512)
    ensures WorldOk(x) && |x.heap.state| == |u.heap.state| && x.heap.counter[h] == 1 && AllLent(x, h + 1, h + 512)
    ensures Free4(x.heap, h) == x.heap
  {
    LentCounter(u, h);
    NextKeeps(u, Release(Addr(h), Size4KB));
    AddrFrame(h);
    HeadUnique(h, h);
    assert Fits(u.heap, h, Size4KB);
    ReleaseKeeps(u.heap, h);
    forall q: nat | h + 1 <= q < h + 512 ensures Lent(x, q) { assert Lent(u, q); }
  }

  lemma RestReturned(x: World, h: nat) returns (y: World)
    requires WorldOk(x) && h % 512 == 0 && h + 512 <= |x.heap.state|
    requires x.heap.counter[h] == 1 && AllLent(x, h + 1, h + 512)
    ensures Path(x, GiveBack(h, 510) + [Release(Addr(h + 1), Size4KB)], y)
    ensures y.heap.free2 == [h] + x.heap.free2
  {
    var v := Given(x, h, 1, 510);
    assert Lent(v, h + 1);
    AddrFrame(h + 1);
    y := Extend(x, GiveBack(h, 510), v, Release(Addr(h + 1), Size4KB));
    GivenLast(v, y, h, h + 1);
  }

  /** A superpage at the head of its list, and the same superpage handed out: the guard is blind to both. */
  lemma MergedHead(y: World, z: World, h: nat)
    requires Leads(y, Allocate(Size2MB), z) && y.heap.free2 != [] && y.heap.free2[0] == h
    ensures h !in y.live && Free4(y.heap, h) != y.heap
    ensures h in z.live && z.live[h] == Size2MB && Free4(z.heap, h) != z.heap
  {
    NextKeeps(y, Allocate(Size2MB));
    AddrFrame(h);
    assert h in y.heap.free2;
    assert PageOk(y.heap, h);
    assert h in y.live ==> Fits(y.heap, h, y.live[h]);
    IgnoredIff(y, h);
    assert Fits(z.heap, h, Size2MB);
    IgnoredIff(z, h);
  }
}
