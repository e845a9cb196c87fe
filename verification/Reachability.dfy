/** Runs that reach the states on which the code's edge cases turn: every page of a block in callers'
    hands, and that block coming back page by page. */
module Reachability {
  import opened PageModel
  import opened HeapSteps
  import opened Sequential
  import opened Runs
  import opened RunTheorems
  import opened Traces

  /** The calls cs, all matched, lead from w to v. */
  ghost predicate Path(w: World, cs: seq<Call>, v: World) {
    GoodNext(w, v) && exists ws :: Worlds(w, cs, v, ws)
  }

  lemma NoCalls(w: World)
    requires WorldOk(w)
    ensures Path(w, [], w)
  {
    assert Worlds(w, [], w, [w]);
  }

  lemma Extend(w: World, cs: seq<Call>, u: World, c: Call) returns (v: World)
    requires Path(w, cs, u) && Matched(u, c)
    ensures Leads(u, c, v) && Path(w, cs + [c], v)
  {
    NextKeeps(u, c);
    v := Next(u, c);
    Compose(w, u, v);
    var ws :| Worlds(w, cs, u, ws);
    OneMoreWorld(w, cs, u, ws, c, v);
  }

  lemma Join(w: World, cs: seq<Call>, u: World, ds: seq<Call>, v: World)
    requires Path(w, cs, u) && Path(u, ds, v)
    ensures Path(w, cs + ds, v)
  {
    var ws :| Worlds(w, cs, u, ws);
    var us :| Worlds(u, ds, v, us);
    Compose(w, u, v);
    var all := ws + us[1..];
    forall i | 0 <= i < |cs + ds| ensures StepAt(all, cs + ds, i) {
      if i < |cs| { assert StepAt(ws, cs, i); } else { assert StepAt(us, ds, i - |cs|); }
    }
    assert Worlds(w, cs + ds, v, all);
  }

  /** A path is a matched run. */
  lemma PathIsRun(w: World, cs: seq<Call>, v: World)
    requires WorldOk(w) && Path(w, cs, v)
    ensures MatchedRun(w, cs) && RunFrom(w, cs) == v
  {
    var ws :| Worlds(w, cs, v, ws);
    WorldsAreRun(w, cs, v, ws);
  }

  predicate Lent(w: World, p: nat) { p in w.live && w.live[p] == Size4KB }

  ghost predicate AllLent(w: World, lo: nat, hi: nat) {
    forall p: nat :: lo <= p < hi ==> Lent(w, p)
  }

  // ----- taking pages until the 4 KiB list is empty

  function Take(n: nat): (cs: seq<Call>)
    ensures |cs| == n
  {
    seq(n, _ => Allocate(Size4KB))
  }

  /** The first n pages of the 4 KiB list are handed out and nothing else changes hands. */
  ghost predicate TookFirst(w: World, v: World, n: nat)
    requires n <= |w.heap.free4|
  {
    && v.heap.free4 == w.heap.free4[n..] && v.heap.free2 == w.heap.free2
    && (forall i :: 0 <= i < n ==> Lent(v, w.heap.free4[i]))
    && (forall p :: Lent(w, p) ==> Lent(v, p))
  }

  lemma {:induction false} Taken(w: World, n: nat) returns (v: World)
    requires WorldOk(w) && n <= |w.heap.free4|
    ensures Path(w, Take(n), v) && TookFirst(w, v, n)
  {
    if n == 0 {
      NoCalls(w);
      v := w;
    } else {
      var u := Taken(w, n - 1);
      v := Extend(w, Take(n - 1), u, Allocate(Size4KB));
      TakenOne(u, v);
      assert Take(n) == Take(n - 1) + [Allocate(Size4KB)];
      assert u.heap.free4[0] == w.heap.free4[n - 1];
    }
  }

  lemma TakenOne(w: World, v: World)
    requires Leads(w, Allocate(Size4KB), v) && w.heap.free4 != []
    ensures TookFirst(w, v, 1)
  {
    AddrFrame(w.heap.free4[0]);
  }

  /** With an empty 4 KiB list, 512 calls split the first superpage and hand out all of it. */
  lemma TakenWhole(w: World) returns (v: World)
    requires WorldOk(w) && w.heap.free4 == [] && w.heap.free2 != []
    ensures Path(w, Take(512), v)
    ensures var h := w.heap.free2[0];
            v.heap.free4 == [] && v.heap.free2 == w.heap.free2[1..] && AllLent(v, h, h + 512)
  {
    var u := FirstTaken(w);
    v := Taken(u, 511);
    assert Path(w, Take(512), v) by {
      TakeSum(1, 511);
      Join(w, Take(1), u, Take(511), v);
    }
    assert AllLent(v, w.heap.free2[0], w.heap.free2[0] + 512) by { AllOfSplit(u, v, w.heap.free2[0]); }
  }

  lemma TakeSum(m: nat, n: nat)
    ensures Take(m) + Take(n) == Take(m + n)
  {}

  lemma FirstTaken(w: World) returns (u: World)
    requires WorldOk(w) && w.heap.free4 == [] && w.heap.free2 != []
    ensures Path(w, Take(1), u)
    ensures var h := w.heap.free2[0];
            u.heap.free4 == Descending(h, 511) && u.heap.free2 == w.heap.free2[1..] && Lent(u, h + 511)
  {
    NoCalls(w);
    u := Extend(w, [], w, Allocate(Size4KB));
    assert Take(1) == [] + [Allocate(Size4KB)];
    FirstOfSplit(w, u);
  }

  lemma AllOfSplit(u: World, v: World, h: nat)
    requires u.heap.free4 == Descending(h, 511) && Lent(u, h + 511) && TookFirst(u, v, 511)
    ensures AllLent(v, h, h + 512)
  {
    forall p: nat | h <= p < h + 512 ensures Lent(v, p) {
      if p < h + 511 { assert u.heap.free4[h + 510 - p] == p; }
    }
  }

  lemma FirstOfSplit(w: World, u: World)
    requires Leads(w, Allocate(Size4KB), u) && w.heap.free4 == [] && w.heap.free2 != []
    ensures var h := w.heap.free2[0];
            u.heap.free4 == Descending(h, 511) && u.heap.free2 == w.heap.free2[1..] && Lent(u, h + 511)
  {
    var h := w.heap.free2[0];
    AddrFrame(h + 511);
    HeadsOk(w.heap, Nothing);
    assert Descending(h, 512)[1..] == Descending(h, 511);
    assert Split(w.heap).free4 == Descending(h, 512);
  }

  // ----- taking superpages

  function Take2(n: nat): (cs: seq<Call>)
    ensures |cs| == n
  {
    seq(n, _ => Allocate(Size2MB))
  }

  ghost predicate TookFirst2(w: World, v: World, n: nat)
    requires n <= |w.heap.free2|
  {
    v.heap.free2 == w.heap.free2[n..] && forall i :: 0 <= i < n ==> LentWhole(v, w.heap.free2[i])
  }

  predicate LentWhole(w: World, p: nat) { p in w.live && w.live[p] == Size2MB }

  lemma {:induction false} Taken2(w: World, n: nat) returns (v: World)
    requires WorldOk(w) && n <= |w.heap.free2|
    ensures Path(w, Take2(n), v) && TookFirst2(w, v, n)
  {
    if n == 0 {
      NoCalls(w);
      v := w;
    } else {
      var u := Taken2(w, n - 1);
      v := Extend(w, Take2(n - 1), u, Allocate(Size2MB));
      AddrFrame(u.heap.free2[0]);
      assert Take2(n) == Take2(n - 1) + [Allocate(Size2MB)];
      assert u.heap.free2[0] == w.heap.free2[n - 1];
      assert forall i :: 0 <= i < n - 1 ==> LentWhole(u, w.heap.free2[i]);
    }
  }

  /** Whatever is on a list is handed out by some run. */
  lemma ListedIsHandedOut(w: World, p: nat) returns (cs: seq<Call>)
    requires WorldOk(w) && (p in w.heap.free4 || p in w.heap.free2)
    ensures MatchedRun(w, cs) && p in RunFrom(w, cs).live
  {
    var v;
    if p in w.heap.free4 {
      cs := Take(|w.heap.free4|);
      v := Taken(w, |w.heap.free4|);
      var i :| 0 <= i < |w.heap.free4| && w.heap.free4[i] == p;
      assert Lent(v, p);
    } else {
      cs := Take2(|w.heap.free2|);
      v := Taken2(w, |w.heap.free2|);
      var i :| 0 <= i < |w.heap.free2| && w.heap.free2[i] == p;
      assert LentWhole(v, p);
    }
    PathIsRun(w, cs, v);
  }

  /** Empties the 4 KiB list and lends out the first superpage page by page. */
  lemma LendBlock(w: World) returns (cs: seq<Call>, v: World, h: nat)
    requires WorldOk(w) && w.heap.free2 != []
    ensures Path(w, cs, v) && h % 512 == 0 && h + 512 <= |v.heap.state| && AllLent(v, h, h + 512)
    ensures v.heap.free4 == [] && v.heap.free2 == w.heap.free2[1..]
  {
    var n := |w.heap.free4|;
    h := w.heap.free2[0];
    var u := Taken(w, n);
    assert h in u.heap.free2;
    v := TakenWhole(u);
    Join(w, Take(n), u, Take(512), v);
    cs := Take(n) + Take(512);
  }

  // ----- giving a block back, last page first

  function GiveBack(h: nat, n: nat): (cs: seq<Call>)
    requires n <= 512
    ensures |cs| == n
  {
    seq(n, i requires 0 <= i < n => Release(Addr(h + 511 - i), Size4KB))
  }

  /** A block with every page lent out counts no free page. */
  lemma LentCounter(w: World, h: nat)
    requires WorldOk(w) && h % 512 == 0 && h + 512 <= |w.heap.state| && AllLent(w, h, h + 512)
    ensures w.heap.counter[h] == 0
  {
    var a := w.heap;
    forall p | h <= p < h + 512 ensures a.state[p] != Free4KB && !Whole(a, h) {
      assert Lent(w, p) && Lent(w, h);
      assert Fits(a, p, Size4KB) && Fits(a, h, Size4KB);
      assert PageOk(a, p) && PageOk(a, h);
    }
    NoneFree(a.state, h, h + 512);
    assert BlockOk(a, h);
  }

  lemma {:induction false} NoneFree(s: seq<PageState>, lo: nat, hi: nat)
    requires lo <= hi <= |s| && forall p :: lo <= p < hi ==> s[p] != Free4KB
    ensures CountFree(s, lo, hi) == 0
    decreases hi - lo
  {
    if lo < hi { NoneFree(s, lo, hi - 1); }
  }

  /** Of a block whose first lo pages were back already, n more are back, none merged. */
  ghost predicate GaveBack(w: World, v: World, h: nat, lo: nat, n: nat)
    requires Shaped(v.heap) && h < |v.heap.state| && lo + n < 512
  {
    v.heap.counter[h] == lo + n && AllLent(v, h + lo, h + 512 - n) && v.heap.free2 == w.heap.free2
  }

  lemma {:induction false} Given(w: World, h: nat, lo: nat, n: nat) returns (v: World)
    requires WorldOk(w) && h % 512 == 0 && h + 512 <= |w.heap.state| && lo + n < 512
    requires AllLent(w, h + lo, h + 512) && w.heap.counter[h] == lo
    ensures Path(w, GiveBack(h, n), v) && GaveBack(w, v, h, lo, n)
  {
    if n == 0 {
      NoCalls(w);
      v := w;
    } else {
      var u := Given(w, h, lo, n - 1);
      v := GivenNext(w, u, h, lo, n);
    }
  }

  lemma GivenNext(w: World, u: World, h: nat, lo: nat, n: nat) returns (v: World)
    requires 0 < n && lo + n < 512 && h % 512 == 0 && Path(w, GiveBack(h, n - 1), u) && h + 512 <= |u.heap.state|
    requires GaveBack(w, u, h, lo, n - 1)
    ensures Path(w, GiveBack(h, n), v) && GaveBack(w, v, h, lo, n)
  {
    var p := h + 512 - n;
    assert Lent(u, p);
    AddrFrame(p);
    v := Extend(w, GiveBack(h, n - 1), u, Release(Addr(p), Size4KB));
    GivenOne(u, v, h, h + lo, p);
    assert GiveBack(h, n) == GiveBack(h, n - 1) + [Release(Addr(p), Size4KB)];
  }

  /** One page of a block, with pages from..p + 1 lent out, comes back and does not complete it. */
  lemma GivenOne(w: World, v: World, h: nat, from: nat, p: nat)
    requires Leads(w, Release(Addr(p), Size4KB), v) && h % 512 == 0 && h + 512 <= |w.heap.state|
    requires h <= p < h + 512 && AllLent(w, from, p + 1) && w.heap.counter[h] < 511
    ensures Shaped(v.heap) && h < |v.heap.state|
    ensures v.heap.counter[h] == w.heap.counter[h] + 1 && AllLent(v, from, p) && v.heap.free2 == w.heap.free2
  {
    AddrFrame(p);
    HeadUnique(p, h);
    assert Fits(w.heap, p, Size4KB);
    ReleaseKeeps(w.heap, p);
    forall q: nat | from <= q < p ensures Lent(v, q) { assert Lent(w, q); }
  }

  /** The last page of the block completes it: the block is merged and heads the 2 MiB list. */
  lemma GivenLast(w: World, v: World, h: nat, p: nat)
    requires Leads(w, Release(Addr(p), Size4KB), v) && h % 512 == 0 && h + 512 <= |w.heap.state|
    requires h <= p < h + 512 && w.heap.counter[h] == 511
    ensures v.heap.free2 == [h] + w.heap.free2
  {
    AddrFrame(p);
    HeadUnique(p, h);
    assert Fits(w.heap, p, Size4KB);
    ReleaseKeeps(w.heap, p);
    FullCounterMeansFree(PushFreed(MarkFreed(w.heap, p), p), h);
  }

  // ----- what is reachable

  /** From every state with a superpage in reserve there is a run of matched calls after which the
      guard against a second free_4kb fails. */
  lemma SecondFreeReachable(w: World) returns (cs: seq<Call>, p: nat)
    requires WorldOk(w) && w.heap.free2 != []
    ensures MatchedRun(w, cs)
    ensures var v := RunFrom(w, cs);
            WorldOk(v) && Lent(v, p) && Free4(Free4(v.heap, p), p) != Free4(v.heap, p)
  {
    var ds, v;
    ds, v, p := LendBlock(w);
    LentCounter(v, p);
    var z := Given(v, p, 0, 511);
    cs := ds + GiveBack(p, 511);
    Join(w, ds, v, GiveBack(p, 511), z);
    PathIsRun(w, cs, z);
    SecondFreeFails(z, p);
  }

  lemma SecondFreeFails(v: World, p: nat)
    requires WorldOk(v) && p % 512 == 0 && p < |v.heap.state| && v.heap.counter[p] == 511 && AllLent(v, p, p + 1)
    ensures Lent(v, p) && Free4(Free4(v.heap, p), p) != Free4(v.heap, p)
  {
    assert Lent(v, p);
    assert Fits(v.heap, p, Size4KB);
    SecondFree4(v.heap, p);
  }

  /** Single pages that fill an aligned block are handed out as one superpage by some run. */
  lemma BlockOfSingles(w: World, h: nat) returns (cs: seq<Call>)
    requires WorldOk(w) && h % 512 == 0 && h + 512 <= |w.heap.state|
    requires forall p :: h <= p < h + 512 ==> p in w.heap.free4
    ensures MatchedRun(w, cs)
    ensures var v := RunFrom(w, cs); WorldOk(v) && h in v.live && v.live[h] == Size2MB
  {
    var n := |w.heap.free4|;
    var u := Taken(w, n);
    AllTaken(w, u, h);
    LentCounter(u, h);
    var v := Given(u, h, 0, 511);
    Join(w, Take(n), u, GiveBack(h, 511), v);
    assert Lent(v, h);
    AddrFrame(h);
    var c, d := Release(Addr(h), Size4KB), Allocate(Size2MB);
    var y := Extend(w, Take(n) + GiveBack(h, 511), v, c);
    GivenLast(v, y, h, h);
    var z := Extend(w, Take(n) + GiveBack(h, 511) + [c], y, d);
    cs := Take(n) + GiveBack(h, 511) + [c] + [d];
    PathIsRun(w, cs, z);
    assert h in z.live && z.live[h] == Size2MB;
  }

  lemma AllTaken(w: World, v: World, h: nat)
    requires TookFirst(w, v, |w.heap.free4|) && forall p :: h <= p < h + 512 ==> p in w.heap.free4
    ensures AllLent(v, h, h + 512)
  {
    forall p: nat | h <= p < h + 512 ensures Lent(v, p) {
      assert p in w.heap.free4;
    }
  }
}
