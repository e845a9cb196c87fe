/** Sequential runs inside the interleaved machine, and the states they reach there. */
module InterleavingReach {
  import opened PageModel
  import opened HeapSteps
  import opened Sequential
  import opened Runs
  import opened Traces
  import opened Reachability
  import opened Interleaving
  import opened InterleavingRuns

  function Claims(live: map<nat, PageSize>, size: PageSize): map<nat, Option<nat>> {
    map p | p in live && live[p] == size :: None
  }

  /** n idle threads in a world: every live page is in a caller's hands and none is being freed. */
  function Idling(w: World, n: nat): Sys {
    Sys(w.heap, None, None, None, seq(n, _ => Idle), Claims(w.live, Size4KB), Claims(w.live, Size2MB))
  }

  lemma IdlingOk(w: World, n: nat)
    requires WorldOk(w)
    ensures SysInv(Idling(w, n))
  {
    var s := Idling(w, n);
    forall p | p in s.claim4 ensures p < |s.heap.state| && s.heap.owner[p] == User4 {
      assert Fits(w.heap, p, Size4KB);
    }
    forall p | 0 <= p < |s.heap.state| && s.heap.owner[p] == User4 ensures p in s.claim4 {
      assert Fits(w.heap, p, Size4KB);
    }
    forall p | p in s.claim2 ensures p < |s.heap.state| && p % 512 == 0 && s.heap.owner[p] == User2 {
      assert Fits(w.heap, p, Size2MB);
    }
    forall p | 0 <= p < |s.heap.state| && p % 512 == 0 && s.heap.owner[p] == User2 ensures p in s.claim2 {
      assert Fits(w.heap, p, Size2MB);
    }
  }

  /** One call of the sequential specification is an undisturbed call of thread i. */
  lemma CallEmbeds(w: World, c: Call, v: World, n: nat, i: nat) returns (es: seq<Event>)
    requires Leads(w, c, v) && i < n
    ensures OnlyBy(es, i) && Possible(Idling(w, n), es) && Run(Idling(w, n), es) == Idling(v, n)
  {
    HeadsOk(w.heap, Nothing);
    match c
    case Allocate(Size4KB) => es := Alloc4Embeds(w, v, n, i);
    case Allocate(Size2MB) => es := Alloc2Embeds(w, v, n, i);
    case Release(x, Size4KB) => es := Free4Embeds(w, x / PAGE_SIZE_4KB, v, n, i);
    case Release(x, Size2MB) => es := Free2Embeds(w, x / PAGE_SIZE_4KB, v, n, i);
  }

  lemma Alloc4Embeds(w: World, v: World, n: nat, i: nat) returns (es: seq<Event>)
    requires WorldOk(w) && HeadsInRange(w.heap) && v == Next(w, Allocate(Size4KB)) && i < n
    ensures OnlyBy(es, i) && Possible(Idling(w, n), es) && Run(Idling(w, n), es) == Idling(v, n)
  {
    es := SoloAlloc4(Idling(w, n), i);
    var r := Alloc4(w.heap).1;
    if r.Some? {
      AddrFrame(r.value);
      assert r.value !in w.live by { NotYetLive(w, r.value, Size4KB); }
      ClaimGained(w.live, r.value, Size4KB);
    }
  }

  lemma Alloc2Embeds(w: World, v: World, n: nat, i: nat) returns (es: seq<Event>)
    requires WorldOk(w) && HeadsInRange(w.heap) && v == Next(w, Allocate(Size2MB)) && i < n
    ensures OnlyBy(es, i) && Possible(Idling(w, n), es) && Run(Idling(w, n), es) == Idling(v, n)
  {
    es := SoloAlloc2(Idling(w, n), i);
    var r := Alloc2(w.heap).1;
    if r.Some? {
      AddrFrame(r.value);
      assert r.value !in w.live by { NotYetLive(w, r.value, Size2MB); }
      ClaimGained(w.live, r.value, Size2MB);
    }
  }

  lemma Free4Embeds(w: World, p: nat, v: World, n: nat, i: nat) returns (es: seq<Event>)
    requires WorldOk(w) && p in w.live && w.live[p] == Size4KB && i < n
    requires v == World(Free4(w.heap, p), w.live - {p})
    ensures OnlyBy(es, i) && Possible(Idling(w, n), es) && Run(Idling(w, n), es) == Idling(v, n)
  {
    assert Fits(w.heap, p, Size4KB);
    assert PageOk(w.heap, p);
    es := SoloFree4(Idling(w, n), i, p);
    ClaimLost(w.live, p);
  }

  lemma Free2Embeds(w: World, p: nat, v: World, n: nat, i: nat) returns (es: seq<Event>)
    requires WorldOk(w) && p in w.live && w.live[p] == Size2MB && i < n
    requires v == World(Free2(w.heap, p), w.live - {p})
    ensures OnlyBy(es, i) && Possible(Idling(w, n), es) && Run(Idling(w, n), es) == Idling(v, n)
  {
    assert Fits(w.heap, p, Size2MB);
    assert PageOk(w.heap, p);
    HeadUnique(p, p);
    es := SoloFree2(Idling(w, n), i, p);
    ClaimLost(w.live, p);
  }

  lemma NotYetLive(w: World, p: nat, size: PageSize)
    requires WorldOk(w) && HeadsInRange(w.heap)
    requires (if size == Size4KB then Alloc4(w.heap).1 else Alloc2(w.heap).1) == Some(p)
    ensures p !in w.live
  {
    assert p in w.live ==> p < |w.heap.state| && Fits(w.heap, p, w.live[p]);
    if size == Size4KB { Alloc4Keeps(w.heap); } else { Alloc2Keeps(w.heap); assert InBlock(p, p); }
  }

  lemma ClaimGained(live: map<nat, PageSize>, p: nat, size: PageSize)
    requires p !in live
    ensures Claims(live[p := size], size) == Claims(live, size)[p := None]
    ensures forall other :: other != size ==> Claims(live[p := size], other) == Claims(live, other)
  {
    forall other | other != size ensures Claims(live[p := size], other) == Claims(live, other) {}
  }

  lemma ClaimLost(live: map<nat, PageSize>, p: nat)
    requires p in live
    ensures Claims(live - {p}, live[p]) == Claims(live, live[p]) - {p}
    ensures forall other :: other != live[p] ==> Claims(live - {p}, other) == Claims(live, other)
  {
    forall other | other != live[p] ensures Claims(live - {p}, other) == Claims(live, other) {}
  }

  /** Every matched sequential run is a run of the interleaved machine in which one thread moves. */
  lemma {:induction false} RunEmbeds(w: World, cs: seq<Call>, v: World, ws: seq<World>, n: nat, i: nat, k: nat)
    returns (es: seq<Event>)
    requires Worlds(w, cs, v, ws) && i < n && k <= |cs|
    ensures OnlyBy(es, i) && Possible(Idling(w, n), es) && Run(Idling(w, n), es) == Idling(ws[k], n)
    decreases k
  {
    if k == 0 {
      es := [];
    } else {
      var ds := RunEmbeds(w, cs, v, ws, n, i, k - 1);
      assert Leads(ws[k - 1], cs[k - 1], ws[k]) by { assert StepAt(ws, cs, k - 1); }
      var fs := CallEmbeds(ws[k - 1], cs[k - 1], ws[k], n, i);
      RunConcat(Idling(w, n), ds, fs);
      es := ds + fs;
    }
  }

  /** The hypotheses of CoalescingNeedsSequentialCalls are reached from every start with two
      superpages in reserve: some schedule of two threads ends with both idle, all locks free, and a
      superpage left broken although all its pages are free. */
  lemma UncoalescedReachable(a: Heap) returns (es: seq<Event>, h: nat)
    requires Quiet(a) && |a.free2| >= 2
    requires forall p :: 0 <= p < |a.state| ==> a.owner[p] != User4 && a.owner[p] != User2
    ensures Possible(Start(a, 2), es)
    ensures var t := Run(Start(a, 2), es);
            t.pcs == [Idle, Idle] && AllLocksFree(t) && Shaped(t.heap) && h + 512 <= |t.heap.state|
            && AllFree(t.heap.state, h, h + 512) && !Whole(t.heap, h)
            && h in t.heap.tracked && h !in t.heap.free2
  {
    var w := World(a, map[]);
    var cs, v, q := LendBlock(w);
    var ws :| Worlds(w, cs, v, ws);
    var ds := RunEmbeds(w, cs, v, ws, 2, 0, |cs|);
    assert Idling(w, 2) == Start(a, 2);
    LentReady(v, q);
    h := v.heap.free2[0];
    var fs := SplitEvents(0) + (FreeEvents(1, q) + Steps(0, 2));
    CoalescingNeedsSequentialCalls(Idling(v, 2), q);
    RunConcat(Start(a, 2), ds, fs);
    es := ds + fs;
  }

  lemma LentReady(v: World, q: nat)
    requires WorldOk(v) && q % 512 == 0 && q + 512 <= |v.heap.state| && AllLent(v, q, q + 512)
    ensures var s := Idling(v, 2);
            SysInv(s) && s.pcs == [Idle, Idle] && AllLocksFree(s)
            && q in s.claim4 && s.claim4[q] == None && Head(q) == q && s.heap.counter[q] == 0
  {
    IdlingOk(v, 2);
    LentCounter(v, q);
    HeadUnique(q, q);
    assert Lent(v, q);
  }
}
