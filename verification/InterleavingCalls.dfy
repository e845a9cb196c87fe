/** The course of a single call in any interleaving: how many steps of its own it has taken at each point,
    and exactly when and how it ends. */
module InterleavingCalls {
  import opened PageModel
  import opened Interleaving
  import opened InterleavingSafety
  import opened InterleavingRuns

  /** How far a call that began with `a` is when it stands at `pc`: the number of its steps since it began
      or since it last put a split superpage on the 4 KiB list. None: it never stands there. */
  function Progress(a: Act, pc: Pc): Option<nat> {
    match a
    case CallAlloc4 =>
      (match pc
       case AllocLock4 => Some(0)
       case AllocTake(_) => Some(1)
       case AllocCheck2 => Some(1)
       case SplitLock2 => Some(2)
       case SplitDetach(_) => Some(3)
       case SplitScatter(_) => Some(4)
       case _ => None)
    case CallAlloc2 =>
      (match pc
       case Alloc2Lock => Some(0)
       case Alloc2Take(_) => Some(1)
       case _ => None)
    case CallFree4(q) =>
      (match pc
       case FreeLock(p) => if p == q then Some(0) else None
       case FreePush(p, _) => if p == q then Some(1) else None
       case MergeLock(p) => if p == q then Some(2) else None
       case MergeUnlink(h, n) => if h == Head(q) && n <= 512 then Some(3 + n) else None
       case BlockPush(h) => if h == Head(q) then Some(516) else None
       case _ => None)
    case CallFree2(k) =>
      (match pc
       case Free2Lock(h) => if h == k then Some(0) else None
       case BlockPush(h) => if h == k then Some(1) else None
       case _ => None)
    case Advance => None
  }

  /** What thread i must find for its next step to be the last of its call. */
  predicate Ends(s: Sys, i: nat)
    requires i < |s.pcs| && InBounds(s, i)
  {
    match s.pcs[i]
    case AllocTake(_) => true
    case AllocCheck2 => s.heap.free2 == []
    case SplitLock2 => s.heap.free2 == []
    case Alloc2Lock => s.heap.free2 == []
    case Alloc2Take(_) => true
    case FreePush(_, merge) => !merge
    case MergeLock(p) => !AllFree(s.heap.state, Head(p), Head(p) + 512)
    case BlockPush(_) => true
    case _ => false
  }

  /** The call's next position: over exactly as Ends says, and otherwise one step further, except that a
      split takes alloc_4kb back to its start. */
  predicate Ticks(s: Sys, i: nat, a: Act, pc: Pc)
    requires i < |s.pcs| && InBounds(s, i) && Progress(a, s.pcs[i]).Some?
  {
    && (pc.Idle? <==> Ends(s, i))
    && (!pc.Idle? ==>
          Progress(a, pc) == Some(if s.pcs[i].SplitScatter? then 0 else Progress(a, s.pcs[i]).value + 1))
  }

  lemma CallStep(s: Sys, i: nat, a: Act)
    requires i < |s.pcs| && InBounds(s, i) && Enabled(s, i, Advance) && Progress(a, s.pcs[i]).Some?
    ensures |Step(s, i, Advance).pcs| == |s.pcs| && Ticks(s, i, a, Step(s, i, Advance).pcs[i])
  {
    if a.CallAlloc4? { Alloc4Step(s, i, a); } else if a.CallFree4? { Free4Step(s, i, a); }
  }

  lemma Alloc4Step(s: Sys, i: nat, a: Act)
    requires i < |s.pcs| && InBounds(s, i) && Enabled(s, i, Advance) && Progress(a, s.pcs[i]).Some? && a.CallAlloc4?
    ensures |Step(s, i, Advance).pcs| == |s.pcs| && Ticks(s, i, a, Step(s, i, Advance).pcs[i])
  {}

  lemma Free4Step(s: Sys, i: nat, a: Act)
    requires i < |s.pcs| && InBounds(s, i) && Enabled(s, i, Advance) && Progress(a, s.pcs[i]).Some? && a.CallFree4?
    ensures |Step(s, i, Advance).pcs| == |s.pcs| && Ticks(s, i, a, Step(s, i, Advance).pcs[i])
  {}

  /** A step moves its own thread only. */
  lemma OnlyOwn(s: Sys, i: nat, a: Act)
    requires i < |s.pcs| && InBounds(s, i) && Enabled(s, i, a)
    ensures |Step(s, i, a).pcs| == |s.pcs|
    ensures forall j :: 0 <= j < |s.pcs| && j != i ==> Step(s, i, a).pcs[j] == s.pcs[j]
  {}

  /** A thread arrives at the lock of the 4 KiB list only by calling alloc_4kb or by having just put all
      512 pages of a superpage on that list. */
  lemma ArrivesAtLock4(s: Sys, i: nat, a: Act, j: nat)
    requires i < |s.pcs| && InBounds(s, i) && Enabled(s, i, a) && j < |s.pcs|
    ensures var t := Step(s, i, a);
            |t.pcs| == |s.pcs|
            && (t.pcs[j] == AllocLock4 && s.pcs[j] != AllocLock4 ==>
                  j == i
                  && (a == CallAlloc4
                      || (a.Advance? && s.pcs[i].SplitScatter?
                          && t.heap.free4 == Descending(s.pcs[i].h, 512) + s.heap.free4)))
  {}

  // ----- over runs

  /** The steps of thread i among the events lo..hi. */
  function OwnSteps(es: seq<Event>, i: nat, lo: nat, hi: nat): nat
    requires lo <= hi <= |es|
    decreases hi - lo
  {
    if lo == hi then 0 else OwnSteps(es, i, lo, hi - 1) + (if es[hi - 1].thread == i then 1 else 0)
  }

  predicate IsSplit(ss: seq<Sys>, es: seq<Event>, i: nat, k: nat)
    requires |ss| == |es| + 1 && k < |es|
  {
    es[k] == Event(i, Advance) && i < |ss[k].pcs| && ss[k].pcs[i].SplitScatter?
  }

  /** The superpages thread i splits among the events lo..hi. */
  function Splits(ss: seq<Sys>, es: seq<Event>, i: nat, lo: nat, hi: nat): nat
    requires |ss| == |es| + 1 && lo <= hi <= |es|
    decreases hi - lo
  {
    if lo == hi then 0 else Splits(ss, es, i, lo, hi - 1) + (if IsSplit(ss, es, i, hi - 1) then 1 else 0)
  }

  /** Thread i calls at event m and the call is not over before event n. */
  ghost predicate Calling(s: Sys, es: seq<Event>, ss: seq<Sys>, i: nat, m: nat, n: nat) {
    && States(s, es, ss) && m < n <= |es| && i < |s.pcs|
    && es[m].thread == i && !es[m].act.Advance?
    && forall j :: m < j < n ==> i < |ss[j].pcs| && !ss[j].pcs[i].Idle?
  }

  lemma OneMove(ss: seq<Sys>, es: seq<Event>, k: nat)
    requires |ss| == |es| + 1 && k < |es| && MoveAt(ss, es, k)
    ensures |ss[k + 1].pcs| == |ss[k].pcs|
    ensures forall j :: 0 <= j < |ss[k].pcs| && j != es[k].thread ==> ss[k + 1].pcs[j] == ss[k].pcs[j]
  {
    OnlyOwn(ss[k], es[k].thread, es[k].act);
  }

  lemma {:induction false} SameThreads(s: Sys, es: seq<Event>, ss: seq<Sys>, n: nat)
    requires States(s, es, ss) && n <= |es|
    ensures |ss[n].pcs| == |s.pcs|
  {
    if n > 0 {
      SameThreads(s, es, ss, n - 1);
      assert MoveAt(ss, es, n - 1);
      OneMove(ss, es, n - 1);
    }
  }

  /** While a call runs, the steps it has taken are five for every superpage it split and as many more as
      its position says. */
  lemma {:induction false} CallClock(s: Sys, es: seq<Event>, ss: seq<Sys>, i: nat, m: nat, n: nat)
    requires Calling(s, es, ss, i, m, n)
    ensures |ss[n].pcs| == |s.pcs|
    ensures !ss[n].pcs[i].Idle? ==>
              Progress(es[m].act, ss[n].pcs[i]).Some?
              && OwnSteps(es, i, m + 1, n) == 5 * Splits(ss, es, i, m + 1, n) + Progress(es[m].act, ss[n].pcs[i]).value
    decreases n
  {
    var k := n - 1;
    assert |ss[k].pcs| == |s.pcs| && |ss[n].pcs| == |s.pcs| by {
      SameThreads(s, es, ss, n);
      SameThreads(s, es, ss, k);
    }
    assert MoveAt(ss, es, k);
    if k == m {
      CallBegins(ss, es, i, m);
    } else {
      CallClock(s, es, ss, i, m, k);
      if es[k].thread == i { ClockTick(ss, es, i, m, k); } else { OneMove(ss, es, k); }
    }
  }

  lemma CallBegins(ss: seq<Sys>, es: seq<Event>, i: nat, m: nat)
    requires |ss| == |es| + 1 && m < |es| && MoveAt(ss, es, m) && es[m].thread == i && !es[m].act.Advance?
    ensures i < |ss[m + 1].pcs| && Progress(es[m].act, ss[m + 1].pcs[i]) == Some(0)
  {}

  lemma ClockTick(ss: seq<Sys>, es: seq<Event>, i: nat, m: nat, k: nat)
    requires |ss| == |es| + 1 && m < k < |es| && MoveAt(ss, es, k) && es[k].thread == i
    requires i < |ss[k].pcs| && !ss[k].pcs[i].Idle? && Progress(es[m].act, ss[k].pcs[i]).Some?
    requires OwnSteps(es, i, m + 1, k) == 5 * Splits(ss, es, i, m + 1, k) + Progress(es[m].act, ss[k].pcs[i]).value
    ensures i < |ss[k + 1].pcs| && es[k].act == Advance && Ticks(ss[k], i, es[m].act, ss[k + 1].pcs[i])
    ensures !ss[k + 1].pcs[i].Idle? ==>
              OwnSteps(es, i, m + 1, k + 1) ==
              5 * Splits(ss, es, i, m + 1, k + 1) + Progress(es[m].act, ss[k + 1].pcs[i]).value
    ensures ss[k + 1].pcs[i].Idle? ==>
              OwnSteps(es, i, m + 1, k + 1) ==
              5 * Splits(ss, es, i, m + 1, k + 1) + Progress(es[m].act, ss[k].pcs[i]).value + 1
  {
    CallStep(ss[k], i, es[m].act);
  }

  /** The last step of a call: at that moment the thread found what Ends says, and the call took as many
      steps as the clock had counted and this one. */
  lemma CallEnds(s: Sys, es: seq<Event>, ss: seq<Sys>, i: nat, m: nat, n: nat)
    requires Calling(s, es, ss, i, m, n) && n > m + 1 && |ss[n].pcs| == |s.pcs| && ss[n].pcs[i].Idle?
    ensures var u := ss[n - 1];
            i < |u.pcs| && InBounds(u, i) && Ends(u, i) && Progress(es[m].act, u.pcs[i]).Some?
            && OwnSteps(es, i, m + 1, n) ==
               5 * Splits(ss, es, i, m + 1, n) + Progress(es[m].act, u.pcs[i]).value + 1
            && es[n - 1] == Event(i, Advance)
  {
    CallClock(s, es, ss, i, m, n - 1);
    LastTick(s, es, ss, i, m, n - 1);
  }

  lemma LastTick(s: Sys, es: seq<Event>, ss: seq<Sys>, i: nat, m: nat, k: nat)
    requires States(s, es, ss) && m < k < |es|
    requires i < |ss[k].pcs| && !ss[k].pcs[i].Idle? && i < |ss[k + 1].pcs| && ss[k + 1].pcs[i].Idle?
    requires Progress(es[m].act, ss[k].pcs[i]).Some?
    requires OwnSteps(es, i, m + 1, k) == 5 * Splits(ss, es, i, m + 1, k) + Progress(es[m].act, ss[k].pcs[i]).value
    ensures InBounds(ss[k], i) && Ends(ss[k], i) && es[k] == Event(i, Advance)
    ensures OwnSteps(es, i, m + 1, k + 1) ==
            5 * Splits(ss, es, i, m + 1, k + 1) + Progress(es[m].act, ss[k].pcs[i]).value + 1
  {
    assert MoveAt(ss, es, k);
    OneMove(ss, es, k);
    ClockTick(ss, es, i, m, k);
  }

  /** alloc_4kb: with k splits at most 5k + 3 steps; it ends without a page if and only if it last found the
      2 MiB list empty, and otherwise with the page it took. */
  lemma Alloc4Ends(s: Sys, es: seq<Event>, ss: seq<Sys>, i: nat, m: nat, n: nat)
    requires Calling(s, es, ss, i, m, n) && n > m + 1 && |ss[n].pcs| == |s.pcs| && ss[n].pcs[i].Idle?
    requires SysInv(s) && es[m].act == CallAlloc4
    ensures var u := ss[n - 1];
            i < |u.pcs|
            && 5 * Splits(ss, es, i, m + 1, n) + 2 <= OwnSteps(es, i, m + 1, n) <= 5 * Splits(ss, es, i, m + 1, n) + 3
            && (ss[n].claim4 == u.claim4 <==>
                  (u.pcs[i].AllocCheck2? || u.pcs[i].SplitLock2?) && u.heap.free2 == [])
            && (ss[n].claim4 != u.claim4 ==>
                  u.pcs[i].AllocTake? && u.pcs[i].p !in u.claim4 && ss[n].claim4 == u.claim4[u.pcs[i].p := None])
  {
    CallEnds(s, es, ss, i, m, n);
    assert SysInv(ss[n - 1]) by { StatesKeep(s, es, ss, n - 1); }
    Alloc4Last(s, es, ss, i, n - 1);
  }

  lemma Alloc4Last(s: Sys, es: seq<Event>, ss: seq<Sys>, i: nat, k: nat)
    requires States(s, es, ss) && k < |es| && es[k] == Event(i, Advance)
    requires SysInv(ss[k]) && i < |ss[k].pcs| && InBounds(ss[k], i) && Ends(ss[k], i)
    requires Progress(CallAlloc4, ss[k].pcs[i]).Some?
    ensures var u := ss[k];
            if u.pcs[i].AllocTake? then u.pcs[i].p !in u.claim4 && ss[k + 1].claim4 == u.claim4[u.pcs[i].p := None]
            else ss[k + 1].claim4 == u.claim4
  {
    assert MoveAt(ss, es, k);
    assert ThreadOk(ss[k], i);
    HeadsUnclaimed(ss[k]);
  }

  /** The other calls end too: alloc_2mb after at most 2 steps, free_2mb after 2, free_4kb after 2, after 3 if
      the re-scan fails, and after 517 if the block merges. */
  lemma OthersEnd(s: Sys, es: seq<Event>, ss: seq<Sys>, i: nat, m: nat, n: nat)
    requires Calling(s, es, ss, i, m, n) && n > m + 1 && |ss[n].pcs| == |s.pcs| && ss[n].pcs[i].Idle?
    ensures es[m].act == CallAlloc2 ==> 1 <= OwnSteps(es, i, m + 1, n) <= 2
    ensures es[m].act.CallFree4? ==> OwnSteps(es, i, m + 1, n) in {2, 3, 517}
    ensures es[m].act.CallFree2? ==> OwnSteps(es, i, m + 1, n) == 2
  {
    CallEnds(s, es, ss, i, m, n);
    if es[m].act != CallAlloc4 { NoSplits(s, es, ss, i, m, n); }
  }

  lemma {:induction false} NoSplits(s: Sys, es: seq<Event>, ss: seq<Sys>, i: nat, m: nat, n: nat)
    requires Calling(s, es, ss, i, m, n) && es[m].act != CallAlloc4
    ensures Splits(ss, es, i, m + 1, n) == 0
    decreases n
  {
    if n > m + 1 {
      NoSplits(s, es, ss, i, m, n - 1);
      CallClock(s, es, ss, i, m, n - 1);
    }
  }
}
