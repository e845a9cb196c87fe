/** When interleaved calls coalesce: a block that is ready to merge always has a thread that will see
    to it, and the only step that can leave one without is the end of an alloc_4kb. */
module InterleavingCoalescing {
  import opened PageModel
  import opened HeapSteps
  import opened Sequential
  import opened Interleaving
  import opened InterleavingSafety
  import opened InterleavingRuns

  /** A broken block whose counter says that all its pages are free. */
  predicate ReadyToMerge(a: Heap, h: nat) {
    Shaped(a) && h % 512 == 0 && h + 512 <= |a.state| && !Whole(a, h) && a.counter[h] >= 512
  }

  /** A thread that will merge block h, or that is allocating and may still take a page of it. */
  predicate Responsible(pc: Pc, h: nat) {
    match pc
    case FreePush(p, merge) => merge && Head(p) == h
    case MergeLock(p) => Head(p) == h
    case MergeUnlink(k, _) => k == h
    case AllocLock4 => true
    case AllocTake(_) => true
    case _ => false
  }

  predicate Minded(s: Sys, h: nat) {
    exists i :: 0 <= i < |s.pcs| && Responsible(s.pcs[i], h)
  }

  predicate MindedByOther(s: Sys, h: nat, j: nat) {
    exists i :: 0 <= i < |s.pcs| && i != j && Responsible(s.pcs[i], h)
  }

  ghost predicate Covered(s: Sys) {
    forall h :: ReadyToMerge(s.heap, h) ==> Minded(s, h)
  }

  /** Other threads keep minding what they minded. */
  lemma OthersMind(s: Sys, t: Sys, i: nat, h: nat)
    requires |t.pcs| == |s.pcs| && i < |s.pcs|
    requires forall k :: 0 <= k < |s.pcs| && k != i ==> t.pcs[k] == s.pcs[k]
    requires MindedByOther(s, h, i) || Responsible(t.pcs[i], h)
    ensures Minded(t, h)
  {
    if MindedByOther(s, h, i) {
      var k :| 0 <= k < |s.pcs| && k != i && Responsible(s.pcs[k], h);
      assert Responsible(t.pcs[k], h);
    }
  }

  /** Which thread minds a block: the given one or another. */
  lemma WhoMinds(s: Sys, i: nat, h: nat)
    requires Minded(s, h) && i < |s.pcs|
    ensures Responsible(s.pcs[i], h) || MindedByOther(s, h, i)
  {
    var k :| 0 <= k < |s.pcs| && Responsible(s.pcs[k], h);
    if k != i { assert k != i && Responsible(s.pcs[k], h); }
  }

  // ----- which blocks can become ready to merge

  /** Taking a page settles its own block and leaves the others as they were. */
  lemma ReadyTake4(a: Heap, h: nat)
    requires Inv(a, Nothing) && a.free4 != [] && a.free4[0] < |a.state|
    ensures ReadyToMerge(TakeFree4(a), h) <==> ReadyToMerge(a, h) && h != Head(a.free4[0])
  {
    var p := a.free4[0];
    assert p in a.free4;
    assert PageOk(a, p) && PageOk(a, Head(p)) && BlockOk(a, Head(p));
  }

  lemma ReadyMark(a: Heap, p: nat, h: nat)
    requires Inv(a, Nothing) && p < |a.state| && a.owner[p] == User4
    ensures ReadyToMerge(MarkFreed(a, p), h) ==>
              ReadyToMerge(a, h) || (h == Head(p) && MarkFreed(a, p).counter[h] == 512)
  {
    assert PageOk(a, p) && PageOk(a, Head(p));
    MarkFreedKeeps(a, p);
    assert BlockOk(MarkFreed(a, p), Head(p));
  }

  lemma ReadyPush(a: Heap, p: nat, h: nat)
    requires Inv(a, OnePage(p))
    ensures ReadyToMerge(PushFreed(a, p), h) ==> ReadyToMerge(a, h)
  {
    assert Flying(OnePage(p), p);
  }

  lemma ReadyUnlink(a: Heap, k: nat, n: nat, h: nat)
    requires n < 512 && Inv(a, Prefix(k, n))
    ensures ReadyToMerge(UnlinkPage(a, k + n), h) ==> ReadyToMerge(a, h)
  {
    assert a.owner[k + n] == List4;
  }

  lemma ReadyDetach(a: Heap, h: nat)
    requires Inv(a, Nothing) && a.free2 != [] && a.free2[0] + 512 <= |a.state|
    ensures ReadyToMerge(DetachFree2(a), h) ==> ReadyToMerge(a, h)
    ensures ReadyToMerge(TakeFree2(a), h) ==> ReadyToMerge(a, h)
  {
    var k := a.free2[0];
    assert k in a.free2;
    assert PageOk(a, k);
    HeadUnique(k, k);
    assert h % 512 == 0 && h != k ==> !(k <= h < k + 512);
  }

  lemma ReadyScatter(a: Heap, k: nat, h: nat)
    requires Shaped(a) && k % 512 == 0 && k + 512 <= |a.state|
    ensures ReadyToMerge(Scatter(a, k), h) ==> ReadyToMerge(a, h) || h == k
    ensures ReadyToMerge(PushBlock(a, k), h) ==> ReadyToMerge(a, h)
    ensures ReadyToMerge(MarkFreed2(a, k), h) ==> ReadyToMerge(a, h)
    ensures ReadyToMerge(MarkMerged(a, k), h) ==> ReadyToMerge(a, h)
  {
    assert h % 512 == 0 && h != k ==> !(k <= h < k + 512);
  }

  lemma NewlyReadyPage(s: Sys, i: nat, h: nat)
    requires Standing(s, i)
    requires s.pcs[i].AllocTake? || s.pcs[i].FreeLock? || s.pcs[i].FreePush? || s.pcs[i].MergeUnlink?
    ensures ReadyToMerge(Step(s, i, Advance).heap, h) ==>
              ReadyToMerge(s.heap, h) || Responsible(Step(s, i, Advance).pcs[i], h)
  {
    match s.pcs[i]
    case AllocTake(p) => ReadyTake4(s.heap, h);
    case FreeLock(p) => ReadyMark(s.heap, p, h);
    case FreePush(p, _) => ReadyPush(s.heap, p, h);
    case MergeUnlink(k, n) => if n < 512 { ReadyUnlink(s.heap, k, n, h); } else { ReadyScatter(s.heap, k, h); }
  }

  lemma NewlyReadyBlock(s: Sys, i: nat, h: nat)
    requires Standing(s, i)
    requires !s.pcs[i].AllocTake? && !s.pcs[i].FreeLock? && !s.pcs[i].FreePush? && !s.pcs[i].MergeUnlink?
    ensures ReadyToMerge(Step(s, i, Advance).heap, h) ==>
              ReadyToMerge(s.heap, h) || Responsible(Step(s, i, Advance).pcs[i], h)
  {
    match s.pcs[i]
    case SplitDetach(_) => ReadyDetach(s.heap, h);
    case Alloc2Take(_) => ReadyDetach(s.heap, h);
    case SplitScatter(k) => ReadyScatter(s.heap, k, h);
    case BlockPush(k) => ReadyScatter(s.heap, k, h);
    case Free2Lock(k) => ReadyScatter(s.heap, k, h);
    case _ =>
  }

  /** A step makes block h ready only by splitting it or by freeing one of its pages. */
  lemma NewlyReady(s: Sys, i: nat, a: Act, h: nat)
    requires SysInv(s) && i < |s.pcs| && InBounds(s, i) && Enabled(s, i, a)
    ensures ReadyToMerge(Step(s, i, a).heap, h) ==>
              ReadyToMerge(s.heap, h) || Responsible(Step(s, i, a).pcs[i], h)
  {
    assert ThreadOk(s, i);
    var pc := s.pcs[i];
    if a.Advance? {
      if pc.AllocTake? || pc.FreeLock? || pc.FreePush? || pc.MergeUnlink? {
        NewlyReadyPage(s, i, h);
      } else {
        NewlyReadyBlock(s, i, h);
      }
    }
  }

  /** alloc_4kb cannot find its list empty while a block is ready to merge, unless another thread is
      just merging that block. */
  lemma EmptyListMinded(s: Sys, i: nat, h: nat)
    requires SysInv(s) && i < |s.pcs| && s.pcs[i].AllocLock4? && s.heap.free4 == []
    requires ReadyToMerge(s.heap, h)
    ensures MindedByOther(s, h, i)
  {
    var a := s.heap;
    assert ThreadOk(s, i);
    assert BlockOk(a, h);
    CountFull(a.state, h, h + 512);
    forall p | h <= p < h + 512 ensures a.owner[p] == Moving {
      HeadUnique(p, h);
      assert PageOk(a, p) && PageOk(a, h);
      assert a.owner[p] == List4 ==> p in a.free4;
    }
    assert Flying(Flight(s), h) && Flying(Flight(s), h + 511);
    var j := s.pa.value;
    assert ThreadOk(s, j);
    assert j != i && Responsible(s.pcs[j], h);
  }

  // ----- coverage over steps and runs

  /** Every step but the end of an alloc_4kb leaves each ready block in some thread's care. */
  lemma StepCovered(s: Sys, i: nat, a: Act)
    requires SysInv(s) && Covered(s) && i < |s.pcs| && InBounds(s, i) && Enabled(s, i, a)
    requires !(a.Advance? && s.pcs[i].AllocTake?)
    ensures Covered(Step(s, i, a))
  {
    var t := Step(s, i, a);
    forall h | ReadyToMerge(t.heap, h) ensures Minded(t, h) {
      NewlyReady(s, i, a, h);
      if ReadyToMerge(s.heap, h) {
        WhoMinds(s, i, h);
        if !MindedByOther(s, h, i) { StillMinded(s, i, a, h); }
      }
      OthersMind(s, t, i, h);
    }
  }

  /** The thread in charge of a ready block stays in charge until it is merged. */
  lemma StillMinded(s: Sys, i: nat, a: Act, h: nat)
    requires SysInv(s) && i < |s.pcs| && InBounds(s, i) && Enabled(s, i, a)
    requires !(a.Advance? && s.pcs[i].AllocTake?)
    requires ReadyToMerge(s.heap, h) && ReadyToMerge(Step(s, i, a).heap, h)
    requires Responsible(s.pcs[i], h) && !MindedByOther(s, h, i)
    ensures Responsible(Step(s, i, a).pcs[i], h)
  {
    assert ThreadOk(s, i);
    match s.pcs[i]
    case MergeLock(p) => FullCounterMeansFree(s.heap, h) by { assert BlockOk(s.heap, h); }
    case AllocLock4 => if s.heap.free4 == [] { EmptyListMinded(s, i, h); }
    case _ =>
  }

  /** The end of an alloc_4kb keeps every ready block in some thread's care if and only if the blocks
      other than the page's own are in the care of another thread. */
  lemma TakeCoveredIff(s: Sys, i: nat)
    requires SysInv(s) && Covered(s) && i < |s.pcs| && InBounds(s, i) && Enabled(s, i, Advance)
    requires s.pcs[i].AllocTake?
    ensures Covered(Step(s, i, Advance)) <==>
              forall h :: ReadyToMerge(s.heap, h) && h != Head(s.pcs[i].p) ==> MindedByOther(s, h, i)
  {
    var t := Step(s, i, Advance);
    var k := Head(s.pcs[i].p);
    assert ThreadOk(s, i);
    forall h ensures ReadyToMerge(t.heap, h) <==> ReadyToMerge(s.heap, h) && h != k {
      ReadyTake4(s.heap, h);
    }
    forall h | ReadyToMerge(s.heap, h) && h != k ensures Minded(t, h) <==> MindedByOther(s, h, i) {
      if MindedByOther(s, h, i) { OthersMind(s, t, i, h); }
      if Minded(t, h) {
        var j :| 0 <= j < |t.pcs| && Responsible(t.pcs[j], h);
        assert j != i && Responsible(s.pcs[j], h);
      }
    }
  }

  predicate TakesCovered(s: Sys, es: seq<Event>)
    requires Possible(s, es)
    decreases |es|
  {
    es == [] ||
    ((es[0].act.Advance? && s.pcs[es[0].thread].AllocTake? ==> TakeIsCovered(s, es[0].thread))
     && TakesCovered(Step(s, es[0].thread, es[0].act), es[1..]))
  }

  /** The condition of TakeCoveredIff. */
  predicate TakeIsCovered(s: Sys, i: nat)
    requires i < |s.pcs| && s.pcs[i].AllocTake?
  {
    forall b :: 0 <= b < |s.heap.state| && ReadyToMerge(s.heap, b) && b != Head(s.pcs[i].p) ==> MindedByOther(s, b, i)
  }

  /** If every alloc_4kb of an interleaved run ends that way, then whenever all threads are idle no
      block is waiting to be merged, as after sequential calls. */
  lemma {:induction false} RunSettled(s: Sys, es: seq<Event>)
    requires SysInv(s) && Covered(s) && Possible(s, es) && TakesCovered(s, es)
    ensures SysInv(Run(s, es)) && Covered(Run(s, es))
    ensures (forall i :: 0 <= i < |Run(s, es).pcs| ==> Run(s, es).pcs[i].Idle?) ==> Settled(Run(s, es).heap)
    decreases |es|
  {
    if es == [] {
      if forall i :: 0 <= i < |s.pcs| ==> s.pcs[i].Idle? {
        forall h | 0 <= h < |s.heap.state| && h % 512 == 0 && !Whole(s.heap, h) ensures s.heap.counter[h] < 512 {
          assert !Minded(s, h);
        }
      }
    } else {
      var i, a := es[0].thread, es[0].act;
      StepKeeps(s, i, a);
      if a.Advance? && s.pcs[i].AllocTake? { TakeCoveredIff(s, i); } else { StepCovered(s, i, a); }
      RunSettled(Step(s, i, a), es[1..]);
    }
  }

  /** What that means: with all locks free and nothing waiting to merge, every known superpage is on
      the 2 MiB list, handed out whole, or has a 4 KiB page in a caller's hands. */
  lemma SettledCoalesced(s: Sys, h: nat)
    requires SysInv(s) && s.pa.None? && Settled(s.heap)
    requires h in s.heap.tracked && h % 512 == 0 && h < |s.heap.state|
    ensures h in s.heap.free2 || h in s.claim2 || exists p :: h <= p < h + 512 && p in s.claim4
  {
    var a := s.heap;
    assert BlockOk(a, h) && PageOk(a, h);
    assert a.owner[h] == Moving <==> Flying(Nothing, h);
    if !Whole(a, h) {
      CountFull(a.state, h, h + 512);
      var p :| h <= p < h + 512 && a.state[p] != Free4KB;
      HeadUnique(p, h);
      assert PageOk(a, p);
      assert a.owner[p] == Moving <==> Flying(Nothing, p);
      assert p in s.claim4;
    }
  }
}
