/** Exactly which interleaved runs leave a superpage broken once every thread is idle. */
module InterleavingOrphans {
  import opened PageModel
  import opened HeapSteps
  import opened Interleaving
  import opened InterleavingSafety
  import opened InterleavingRuns
  import opened InterleavingCoalescing

  // ----- orphans

  /** Block h could be merged and no thread will see to it. */
  ghost predicate Orphan(s: Sys, h: nat) { ReadyToMerge(s.heap, h) && !Minded(s, h) }

  /** Thread i ends an alloc_4kb with a page of another block and was the last to mind block h. */
  predicate Abandons(s: Sys, e: Event, h: nat)
    requires e.thread < |s.pcs|
  {
    && e.act.Advance? && s.pcs[e.thread].AllocTake? && Head(s.pcs[e.thread].p) != h
    && ReadyToMerge(s.heap, h) && !MindedByOther(s, h, e.thread)
  }

  /** A page of block h is taken, or the block is merged. */
  predicate Touches(s: Sys, e: Event, h: nat)
    requires e.thread < |s.pcs|
  {
    e.act.Advance? && match s.pcs[e.thread]
                      case AllocTake(p) => Head(p) == h
                      case MergeUnlink(k, n) => k == h && n == 512
                      case _ => false
  }

  lemma NobodyMinds(s: Sys, t: Sys, i: nat, h: nat)
    requires |t.pcs| == |s.pcs| && i < |s.pcs| && !Minded(t, h)
    requires forall k :: 0 <= k < |s.pcs| && k != i ==> t.pcs[k] == s.pcs[k]
    ensures !Responsible(t.pcs[i], h) && !MindedByOther(s, h, i)
    ensures Minded(s, h) ==> Responsible(s.pcs[i], h)
  {
    if Responsible(t.pcs[i], h) || MindedByOther(s, h, i) { OthersMind(s, t, i, h); }
    if Minded(s, h) { WhoMinds(s, i, h); }
  }

  /** Only the end of an alloc_4kb orphans a block. */
  lemma OrphanStep(s: Sys, i: nat, a: Act, h: nat)
    requires SysInv(s) && i < |s.pcs| && InBounds(s, i) && Enabled(s, i, a)
    requires Orphan(Step(s, i, a), h) && !Orphan(s, h)
    ensures Abandons(s, Event(i, a), h)
  {
    NobodyMinds(s, Step(s, i, a), i, h);
    NewlyReady(s, i, a, h);
    if a.Advance? && s.pcs[i].AllocTake? {
      TakenElsewhere(s, i, h);
    } else {
      StillMinded(s, i, a, h);
      assert false;
    }
  }

  lemma TakenElsewhere(s: Sys, i: nat, h: nat)
    requires SysInv(s) && i < |s.pcs| && InBounds(s, i) && Enabled(s, i, Advance) && s.pcs[i].AllocTake?
    requires ReadyToMerge(Step(s, i, Advance).heap, h)
    ensures Head(s.pcs[i].p) != h
  {
    assert ThreadOk(s, i);
    ReadyTake4(s.heap, h);
  }

  // ----- a ready block stays ready until it is touched

  lemma ReadyAfterMark(a: Heap, p: nat, h: nat)
    requires Inv(a, Nothing) && p < |a.state| && a.owner[p] == User4 && ReadyToMerge(a, h)
    ensures ReadyToMerge(MarkFreed(a, p), h)
  {
    assert PageOk(a, p) && BlockOk(a, h);
    CountFull(a.state, h, h + 512);
  }

  lemma ReadyAfterPush(a: Heap, p: nat, h: nat)
    requires Shaped(a) && p < |a.state| && ReadyToMerge(a, h)
    ensures ReadyToMerge(PushFreed(a, p), h) && ReadyToMerge(UnlinkPage(a, p), h)
  {}

  /** Moving superpage k about does not concern the broken block h. */
  lemma ReadyAfterBlock(a: Heap, k: nat, h: nat)
    requires ReadyToMerge(a, h) && k % 512 == 0 && k + 512 <= |a.state| && k != h
    ensures ReadyToMerge(Scatter(a, k), h) && ReadyToMerge(PushBlock(a, k), h)
    ensures ReadyToMerge(MarkFreed2(a, k), h) && ReadyToMerge(MarkMerged(a, k), h)
  {
    assert !(k <= h < k + 512);
  }

  lemma ReadyAfterPop(a: Heap, h: nat)
    requires ReadyToMerge(a, h) && a.free2 != [] && a.free2[0] != h
    requires a.free2[0] % 512 == 0 && a.free2[0] + 512 <= |a.state|
    ensures ReadyToMerge(DetachFree2(a), h) && ReadyToMerge(TakeFree2(a), h)
  {
    assert !(a.free2[0] <= h < a.free2[0] + 512);
  }

  lemma KeptPage(s: Sys, i: nat, h: nat)
    requires Standing(s, i) && ReadyToMerge(s.heap, h) && !Touches(s, Event(i, Advance), h)
    requires s.pcs[i].AllocTake? || s.pcs[i].FreeLock? || s.pcs[i].FreePush? || s.pcs[i].MergeUnlink?
    ensures ReadyToMerge(Step(s, i, Advance).heap, h)
  {
    match s.pcs[i]
    case AllocTake(p) => ReadyTake4(s.heap, h);
    case FreeLock(p) => ReadyAfterMark(s.heap, p, h);
    case FreePush(p, _) => ReadyAfterPush(s.heap, p, h);
    case MergeUnlink(k, n) => if n < 512 { ReadyAfterPush(s.heap, k + n, h); } else { ReadyAfterBlock(s.heap, k, h); }
  }

  lemma KeptBlock(s: Sys, i: nat, h: nat)
    requires Standing(s, i) && ReadyToMerge(s.heap, h)
    requires s.pcs[i].SplitDetach? || s.pcs[i].Alloc2Take? || s.pcs[i].Free2Lock? || s.pcs[i].SplitScatter?
             || s.pcs[i].BlockPush?
    ensures ReadyToMerge(Step(s, i, Advance).heap, h)
  {
    WholeHere(s, i);
    OtherBlockMoves(s, i, h);
  }

  lemma OtherBlockMoves(s: Sys, i: nat, h: nat)
    requires i < |s.pcs| && InBounds(s, i) && Enabled(s, i, Advance) && ReadyToMerge(s.heap, h)
    requires s.pcs[i].SplitDetach? || s.pcs[i].Alloc2Take? || s.pcs[i].Free2Lock? || s.pcs[i].SplitScatter?
             || s.pcs[i].BlockPush?
    requires s.pcs[i].h % 512 == 0 && s.pcs[i].h + 512 <= |s.heap.state| && s.pcs[i].h != h
    requires s.pcs[i].SplitDetach? || s.pcs[i].Alloc2Take? ==> s.heap.free2[0] == s.pcs[i].h
    ensures ReadyToMerge(Step(s, i, Advance).heap, h)
  {
    if s.pcs[i].SplitDetach? || s.pcs[i].Alloc2Take? {
      ReadyAfterPop(s.heap, h);
    } else {
      ReadyAfterBlock(s.heap, s.pcs[i].h, h);
    }
  }

  lemma WholeHere(s: Sys, i: nat)
    requires Standing(s, i)
    requires s.pcs[i].SplitDetach? || s.pcs[i].Alloc2Take? || s.pcs[i].Free2Lock? || s.pcs[i].SplitScatter?
             || s.pcs[i].BlockPush?
    ensures s.pcs[i].h % 512 == 0 && s.pcs[i].h + 512 <= |s.heap.state| && Whole(s.heap, s.pcs[i].h)
  {
    assert s.pcs[i].SplitDetach? || s.pcs[i].Alloc2Take? ==> s.pcs[i].h in s.heap.free2;
  }

  lemma StaysReady(s: Sys, i: nat, a: Act, h: nat)
    requires SysInv(s) && i < |s.pcs| && InBounds(s, i) && Enabled(s, i, a)
    requires ReadyToMerge(s.heap, h) && !Touches(s, Event(i, a), h)
    ensures ReadyToMerge(Step(s, i, a).heap, h)
  {
    assert ThreadOk(s, i);
    var pc := s.pcs[i];
    if a.Advance? {
      if pc.SplitDetach? || pc.Alloc2Take? || pc.Free2Lock? || pc.SplitScatter? || pc.BlockPush? {
        KeptBlock(s, i, h);
      } else if pc.AllocTake? || pc.FreeLock? || pc.FreePush? || pc.MergeUnlink? {
        KeptPage(s, i, h);
      }
    }
  }

  // ----- over runs

  /** After step k nobody touches block h. */
  ghost predicate LeftAlone(ss: seq<Sys>, es: seq<Event>, k: nat, h: nat)
    requires |ss| == |es| + 1
  {
    forall j :: k < j < |es| ==> es[j].thread < |ss[j].pcs| && !Touches(ss[j], es[j], h)
  }

  ghost predicate AbandonedFor(ss: seq<Sys>, es: seq<Event>, k: nat, h: nat)
    requires |ss| == |es| + 1
  {
    k < |es| && es[k].thread < |ss[k].pcs| && Abandons(ss[k], es[k], h) && LeftAlone(ss, es, k, h)
  }

  lemma {:induction false} ReadyUntil(s: Sys, es: seq<Event>, ss: seq<Sys>, k: nat, h: nat, n: nat)
    requires SysInv(s) && States(s, es, ss) && AbandonedFor(ss, es, k, h) && k < n <= |es|
    ensures ReadyToMerge(ss[n].heap, h)
    decreases n
  {
    var j := n - 1;
    assert SysInv(ss[j]) by { StatesKeep(s, es, ss, j); }
    if j > k { ReadyUntil(s, es, ss, k, h, j); }
    assert ReadyToMerge(ss[j].heap, h) && !Touches(ss[j], es[j], h);
    assert MoveAt(ss, es, j);
    StayReadyAt(ss, es, j, h);
  }

  lemma StayReadyAt(ss: seq<Sys>, es: seq<Event>, j: nat, h: nat)
    requires |ss| == |es| + 1 && j < |es| && SysInv(ss[j]) && MoveAt(ss, es, j)
    requires ReadyToMerge(ss[j].heap, h) && !Touches(ss[j], es[j], h)
    ensures ReadyToMerge(ss[j + 1].heap, h)
  {
    StaysReady(ss[j], es[j].thread, es[j].act, h);
  }

  /** The last step before which block h was no orphan. */
  lemma {:induction false} LastStep(ss: seq<Sys>, n: nat, h: nat) returns (k: nat)
    requires n < |ss| && Orphan(ss[n], h) && !Orphan(ss[0], h)
    ensures k < n && !Orphan(ss[k], h) && forall j :: k < j <= n ==> Orphan(ss[j], h)
    decreases n
  {
    if Orphan(ss[n - 1], h) { k := LastStep(ss, n - 1, h); } else { k := n - 1; }
  }

  lemma OrphanIsAbandoned(s: Sys, es: seq<Event>, ss: seq<Sys>, h: nat) returns (k: nat)
    requires SysInv(s) && Covered(s) && States(s, es, ss) && Orphan(ss[|es|], h)
    ensures AbandonedFor(ss, es, k, h)
  {
    k := LastStep(ss, |es|, h);
    StatesKeep(s, es, ss, k);
    assert MoveAt(ss, es, k);
    OrphanStep(ss[k], es[k].thread, es[k].act, h);
    forall j | k < j < |es| ensures es[j].thread < |ss[j].pcs| && !Touches(ss[j], es[j], h) {
      StatesKeep(s, es, ss, j);
      assert MoveAt(ss, es, j) && Orphan(ss[j + 1], h);
      TouchSettles(ss[j], es[j], h);
    }
  }

  lemma TouchSettles(s: Sys, e: Event, h: nat)
    requires SysInv(s) && e.thread < |s.pcs| && InBounds(s, e.thread) && Enabled(s, e.thread, e.act)
    requires ReadyToMerge(Step(s, e.thread, e.act).heap, h)
    ensures !Touches(s, e, h)
  {
    assert ThreadOk(s, e.thread);
    if e.act.Advance? && s.pcs[e.thread].AllocTake? { ReadyTake4(s.heap, h); }
  }

  ghost predicate AllIdle(s: Sys) { forall i :: 0 <= i < |s.pcs| ==> s.pcs[i].Idle? }

  /** A run that ends with every thread idle leaves some broken block unmerged if and only if some
      alloc_4kb ended as the last to mind a block other than its page's own, and from then on nobody
      took a page of that block or merged it. */
  lemma UnsettledIffAbandoned(s: Sys, es: seq<Event>, ss: seq<Sys>)
    requires SysInv(s) && Covered(s) && States(s, es, ss) && AllIdle(ss[|es|])
    ensures Shaped(ss[|es|].heap)
    ensures !Settled(ss[|es|].heap) <==> exists k: nat, h: nat :: AbandonedFor(ss, es, k, h)
  {
    var t := ss[|es|];
    StatesKeep(s, es, ss, |es|);
    if h: nat :| h < |t.heap.state| && h % 512 == 0 && !Whole(t.heap, h) && t.heap.counter[h] >= 512 {
      assert Orphan(t, h);
      var k := OrphanIsAbandoned(s, es, ss, h);
      assert !Settled(t.heap);
    } else {
      assert Settled(t.heap);
      forall k: nat, h: nat ensures !AbandonedFor(ss, es, k, h) {
        if AbandonedFor(ss, es, k, h) { ReadyUntil(s, es, ss, k, h, |es|); }
      }
    }
  }
}
