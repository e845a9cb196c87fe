/** Every interleaved step keeps the invariant; consequences for whole runs. */
module InterleavingSafety {
  import opened PageModel
  import opened HeapSteps
  import opened Interleaving

  // ----- every step keeps the invariant

  /** What thread j's step must leave alone for the other threads' facts to survive. */
  ghost predicate LeavesOthers(s: Sys, t: Sys, j: nat) {
    && |t.pcs| == |s.pcs| && j < |s.pcs| && |t.heap.state| == |s.heap.state|
    && (forall i :: 0 <= i < |s.pcs| && i != j ==> t.pcs[i] == s.pcs[i])
    && (t.pa == s.pa || (s.pa in {None, Some(j)} && t.pa in {None, Some(j)}))
    && (t.l4 == s.l4 || (s.l4 in {None, Some(j)} && t.l4 in {None, Some(j)}))
    && (t.l2 == s.l2 || (s.l2 in {None, Some(j)} && t.l2 in {None, Some(j)}))
    && (s.l4.Some? && s.l4 != Some(j) && s.heap.free4 != [] ==>
          t.heap.free4 != [] && t.heap.free4[0] == s.heap.free4[0])
    && (s.l2.Some? && s.l2 != Some(j) && s.heap.free2 != [] ==>
          t.heap.free2 != [] && t.heap.free2[0] == s.heap.free2[0])
    && (forall p :: p in s.claim4 && s.claim4[p].Some? && s.claim4[p] != Some(j) ==>
          p in t.claim4 && t.claim4[p] == s.claim4[p])
    && (forall p :: p in s.claim2 && s.claim2[p].Some? && s.claim2[p] != Some(j) ==>
          p in t.claim2 && t.claim2[p] == s.claim2[p])
  }

  lemma OthersKeep(s: Sys, t: Sys, j: nat)
    requires LeavesOthers(s, t, j) && (forall i :: 0 <= i < |s.pcs| ==> ThreadOk(s, i))
    requires ThreadOk(t, j)
    ensures forall i :: 0 <= i < |t.pcs| ==> ThreadOk(t, i)
  {
    forall i | 0 <= i < |t.pcs| ensures ThreadOk(t, i) {
      if i != j {
        assert ThreadOk(s, i);
        assert t.pcs[i] == s.pcs[i];
      }
    }
  }

  lemma StepInBounds(s: Sys, i: nat)
    requires SysInv(s) && i < |s.pcs|
    ensures InBounds(s, i)
  {
    assert ThreadOk(s, i);
    HeadsOk(s.heap, Flight(s));
  }

  // ----- threads and locks

  lemma ThreadsKeep(s: Sys, t: Sys, j: nat)
    requires ThreadsOk(s) && LeavesOthers(s, t, j) && ThreadOk(t, j) && LocksOk(t)
    requires forall p :: p in t.claim4 && t.claim4[p] == Some(j) ==> t.pcs[j] == FreeLock(p)
    requires forall h :: h in t.claim2 && t.claim2[h] == Some(j) ==> t.pcs[j] == Free2Lock(h)
    requires forall p :: p in t.claim4 && t.claim4[p].Some? && t.claim4[p] != Some(j) ==>
               p in s.claim4 && s.claim4[p] == t.claim4[p]
    requires forall h :: h in t.claim2 && t.claim2[h].Some? && t.claim2[h] != Some(j) ==>
               h in s.claim2 && s.claim2[h] == t.claim2[h]
    ensures ThreadsOk(t)
  {
    OthersKeep(s, t, j);
  }

  /** A caller enters or leaves nothing but its own program counter and claim. */
  lemma ThreadsCall(s: Sys, i: nat, a: Act)
    requires ThreadsOk(s) && i < |s.pcs| && InBounds(s, i) && Enabled(s, i, a) && !a.Advance?
    ensures ThreadsOk(Step(s, i, a))
  {
    assert ThreadOk(s, i);
    ThreadsKeep(s, Step(s, i, a), i);
  }

  predicate Looking(pc: Pc) { pc.AllocLock4? || pc.AllocCheck2? || pc.SplitLock2? || pc.Alloc2Lock? }

  /** Steps that look at a list and may keep it locked. */
  lemma ThreadsLook(s: Sys, i: nat)
    requires ThreadsOk(s) && i < |s.pcs| && InBounds(s, i) && Enabled(s, i, Advance) && Looking(s.pcs[i])
    ensures ThreadsOk(Step(s, i, Advance))
  {
    assert ThreadOk(s, i);
    var t := Step(s, i, Advance);
    assert t == s.(l4 := t.l4, l2 := t.l2, pcs := s.pcs[i := t.pcs[i]]);
    LookKeeps(s, t, i);
  }

  lemma LookKeeps(s: Sys, t: Sys, i: nat)
    requires ThreadsOk(s) && i < |s.pcs| && |t.pcs| == |s.pcs| && Looking(s.pcs[i]) && ThreadOk(t, i)
    requires t == s.(l4 := t.l4, l2 := t.l2, pcs := s.pcs[i := t.pcs[i]])
    requires t.l4 == s.l4 || (s.l4.None? && t.l4 == Some(i))
    requires t.l2 == s.l2 || (s.l2.None? && t.l2 == Some(i))
    ensures ThreadsOk(t)
  {
    ThreadsKeep(s, t, i);
  }

  /** Steps that allocate or split. */
  lemma ThreadsAlloc(s: Sys, i: nat)
    requires ThreadsOk(s) && i < |s.pcs| && InBounds(s, i) && Enabled(s, i, Advance)
    requires s.pcs[i].AllocTake? || s.pcs[i].SplitDetach? || s.pcs[i].SplitScatter? || s.pcs[i].Alloc2Take?
    requires forall p :: p in s.claim4 && s.heap.free4 != [] ==> p != s.heap.free4[0]
    requires forall h :: h in s.claim2 && s.heap.free2 != [] ==> h != s.heap.free2[0]
    ensures ThreadsOk(Step(s, i, Advance))
  {
    assert ThreadOk(s, i);
    ThreadsKeep(s, Step(s, i, Advance), i);
  }

  /** Steps that free. */
  lemma ThreadsFree(s: Sys, i: nat)
    requires ThreadsOk(s) && i < |s.pcs| && InBounds(s, i) && Enabled(s, i, Advance)
    requires s.pcs[i].FreeLock? || s.pcs[i].FreePush? || s.pcs[i].BlockPush? || s.pcs[i].Free2Lock?
    ensures ThreadsOk(Step(s, i, Advance))
  {
    assert ThreadOk(s, i);
    ThreadsKeep(s, Step(s, i, Advance), i);
  }

  /** Steps that scan and unlink a block. */
  lemma ThreadsMerge(s: Sys, i: nat)
    requires ThreadsOk(s) && i < |s.pcs| && InBounds(s, i) && Enabled(s, i, Advance)
    requires s.pcs[i].MergeLock? || s.pcs[i].MergeUnlink?
    ensures ThreadsOk(Step(s, i, Advance))
  {
    assert ThreadOk(s, i);
    ThreadsKeep(s, Step(s, i, Advance), i);
  }

  // ----- claims

  /** Claims survive a step that neither allocates nor frees. */
  lemma ClaimsSame(s: Sys, t: Sys)
    requires Shaped(s.heap) && Shaped(t.heap) && |s.heap.state| == |t.heap.state| && ClaimsOk(s)
    requires s.claim4.Keys == t.claim4.Keys && s.claim2.Keys == t.claim2.Keys
    requires forall p :: 0 <= p < |s.heap.state| ==>
               (s.heap.owner[p] == User4 <==> t.heap.owner[p] == User4)
    requires forall p :: 0 <= p < |s.heap.state| ==>
               (s.heap.owner[p] == User2 <==> t.heap.owner[p] == User2)
    ensures ClaimsOk(t)
  {
    assert forall p :: p in t.claim4 <==> p in t.claim4.Keys;
    assert forall p :: p in t.claim2 <==> p in t.claim2.Keys;
  }

  ghost predicate OwnersOutsideSame(a: Heap, b: Heap, lo: nat, hi: nat)
    requires Shaped(a) && Shaped(b) && |a.state| == |b.state|
  {
    forall p :: 0 <= p < |a.state| && !(lo <= p < hi) ==> a.owner[p] == b.owner[p]
  }

  /** Thread takes or gives back page p; nothing else changes hands. */
  lemma ClaimsPage(s: Sys, t: Sys, p: nat)
    requires Shaped(s.heap) && Shaped(t.heap) && |s.heap.state| == |t.heap.state| && ClaimsOk(s)
    requires p < |s.heap.state| && OwnersOutsideSame(s.heap, t.heap, p, p + 1) && s.claim2 == t.claim2
    requires s.claim4.Keys - {p} == t.claim4.Keys - {p}
    requires s.heap.owner[p] != User2 && t.heap.owner[p] != User2
    requires p in t.claim4 <==> t.heap.owner[p] == User4
    ensures ClaimsOk(t)
  {
    forall q | q != p ensures q in s.claim4 <==> q in t.claim4 {
      assert q in s.claim4 <==> q in s.claim4.Keys - {p};
      assert q in t.claim4 <==> q in t.claim4.Keys - {p};
    }
  }

  /** Thread takes or gives back superpage h. */
  lemma ClaimsBlock(s: Sys, t: Sys, h: nat)
    requires Shaped(s.heap) && Shaped(t.heap) && |s.heap.state| == |t.heap.state| && ClaimsOk(s)
    requires h % 512 == 0 && h + 512 <= |s.heap.state|
    requires OwnersOutsideSame(s.heap, t.heap, h, h + 512) && s.claim4 == t.claim4
    requires s.claim2.Keys - {h} == t.claim2.Keys - {h}
    requires forall p :: h <= p < h + 512 ==> s.heap.owner[p] != User4 && t.heap.owner[p] != User4
    requires h in t.claim2 <==> t.heap.owner[h] == User2
    ensures ClaimsOk(t)
  {
    assert forall k :: h < k < h + 512 ==> k % 512 != 0;
    forall q | q != h ensures q in s.claim2 <==> q in t.claim2 {
      assert q in s.claim2 <==> q in s.claim2.Keys - {h};
      assert q in t.claim2 <==> q in t.claim2.Keys - {h};
    }
  }

  /** The heap and the claims after each kind of step. */
  ghost predicate HeapSide(s: Sys) {
    Inv(s.heap, Flight(s)) && ClaimsOk(s)
  }

  ghost predicate Standing(s: Sys, i: nat)
  {
    && i < |s.pcs| && InBounds(s, i) && Enabled(s, i, Advance)
    && HeapSide(s) && LocksOk(s) && ThreadOk(s, i)
  }

  lemma HeapTake4(s: Sys, i: nat)
    requires Standing(s, i) && s.pcs[i].AllocTake?
    ensures HeapSide(Step(s, i, Advance))
  {
    TakeFree4Keeps(s.heap);
    ClaimsPage(s, Step(s, i, Advance), s.heap.free4[0]);
  }

  lemma HeapTake2(s: Sys, i: nat)
    requires Standing(s, i) && s.pcs[i].Alloc2Take?
    ensures HeapSide(Step(s, i, Advance))
  {
    TakeFree2Keeps(s.heap);
    BlockOwner(s.heap, s.heap.free2[0]);
    ClaimsBlock(s, Step(s, i, Advance), s.heap.free2[0]);
  }

  lemma HeapDetach(s: Sys, i: nat)
    requires Standing(s, i) && s.pcs[i].SplitDetach?
    ensures HeapSide(Step(s, i, Advance))
  {
    DetachFree2Keeps(s.heap);
    BlockOwner(s.heap, s.heap.free2[0]);
    ClaimsSame(s, Step(s, i, Advance));
  }

  lemma HeapScatter(s: Sys, i: nat)
    requires Standing(s, i) && s.pcs[i].SplitScatter?
    ensures HeapSide(Step(s, i, Advance))
  {
    var h := s.pcs[i].h;
    assert forall p :: h <= p < h + 512 ==> Flying(WholeBlock(h), p);
    ScatterKeeps(s.heap, h);
    ClaimsSame(s, Step(s, i, Advance));
  }

  lemma HeapMark(s: Sys, i: nat)
    requires Standing(s, i) && s.pcs[i].FreeLock?
    ensures HeapSide(Step(s, i, Advance))
  {
    MarkFreedKeeps(s.heap, s.pcs[i].p);
    ClaimsPage(s, Step(s, i, Advance), s.pcs[i].p);
  }

  lemma HeapPush(s: Sys, i: nat)
    requires Standing(s, i) && s.pcs[i].FreePush?
    ensures HeapSide(Step(s, i, Advance))
  {
    var p := s.pcs[i].p;
    assert Flying(OnePage(p), p);
    PushFreedKeeps(s.heap, p);
    ClaimsSame(s, Step(s, i, Advance));
  }

  lemma HeapScan(s: Sys, i: nat)
    requires Standing(s, i) && s.pcs[i].MergeLock?
    ensures HeapSide(Step(s, i, Advance))
  {
    var h := Head(s.pcs[i].p);
    if AllFree(s.heap.state, h, h + 512) { ScanIsSafe(s.heap, h); }
    ClaimsSame(s, Step(s, i, Advance));
  }

  lemma HeapUnlink(s: Sys, i: nat)
    requires Standing(s, i) && s.pcs[i].MergeUnlink? && s.pcs[i].n < 512
    ensures HeapSide(Step(s, i, Advance))
  {
    UnlinkPageKeeps(s.heap, s.pcs[i].h, s.pcs[i].n);
    ClaimsSame(s, Step(s, i, Advance));
  }

  lemma HeapMerged(s: Sys, i: nat)
    requires Standing(s, i) && s.pcs[i].MergeUnlink? && s.pcs[i].n == 512
    ensures HeapSide(Step(s, i, Advance))
  {
    MarkMergedKeeps(s.heap, s.pcs[i].h);
    ClaimsSame(s, Step(s, i, Advance));
  }

  lemma HeapBlockPush(s: Sys, i: nat)
    requires Standing(s, i) && s.pcs[i].BlockPush?
    ensures HeapSide(Step(s, i, Advance))
  {
    var h := s.pcs[i].h;
    assert forall p :: h <= p < h + 512 ==> Flying(WholeBlock(h), p);
    PushBlockKeeps(s.heap, h);
    ClaimsSame(s, Step(s, i, Advance));
  }

  lemma HeapMark2(s: Sys, i: nat)
    requires Standing(s, i) && s.pcs[i].Free2Lock?
    ensures HeapSide(Step(s, i, Advance))
  {
    MarkFreed2Keeps(s.heap, s.pcs[i].h);
    ClaimsMark2(s, i);
  }

  lemma ClaimsMark2(s: Sys, i: nat)
    requires i < |s.pcs| && InBounds(s, i) && Enabled(s, i, Advance) && s.pcs[i].Free2Lock?
    requires ThreadOk(s, i) && PagesOk(s.heap) && ClaimsOk(s)
    ensures ClaimsOk(Step(s, i, Advance))
  {
    var h := s.pcs[i].h;
    BlockOwner(s.heap, h);
    ClaimsBlock(s, Step(s, i, Advance), h);
  }

  lemma HeapSame(s: Sys, t: Sys)
    requires HeapSide(s) && t.heap == s.heap && Flight(t) == Flight(s)
    requires t.claim4.Keys == s.claim4.Keys && t.claim2.Keys == s.claim2.Keys
    ensures HeapSide(t)
  {
    ClaimsSame(s, t);
  }

  /** A thread that does not hold page_array does not change what is in flight by moving on. */
  lemma FlightSame(s: Sys, t: Sys, i: nat)
    requires LocksOk(s) && i < |s.pcs| && s.pa != Some(i) && t.pa == s.pa
    requires |t.pcs| == |s.pcs| && forall k :: 0 <= k < |s.pcs| && k != i ==> t.pcs[k] == s.pcs[k]
    ensures Flight(t) == Flight(s)
  {}

  lemma HeapCall(s: Sys, i: nat, a: Act)
    requires i < |s.pcs| && InBounds(s, i) && Enabled(s, i, a) && HeapSide(s) && LocksOk(s) && ThreadOk(s, i)
    requires !a.Advance?
    ensures HeapSide(Step(s, i, a))
  {
    FlightSame(s, Step(s, i, a), i);
    HeapSame(s, Step(s, i, a));
  }

  lemma HeapLook(s: Sys, i: nat)
    requires Standing(s, i) && Looking(s.pcs[i])
    ensures HeapSide(Step(s, i, Advance))
  {
    FlightSame(s, Step(s, i, Advance), i);
    HeapSame(s, Step(s, i, Advance));
  }

  /** Any step of any thread. */
  lemma StepKeeps(s: Sys, i: nat, a: Act)
    requires SysInv(s) && i < |s.pcs| && Enabled(s, i, a)
    ensures InBounds(s, i) && SysInv(Step(s, i, a))
  {
    StepInBounds(s, i);
    assert ThreadOk(s, i);
    if !a.Advance? {
      HeapCall(s, i, a);
      ThreadsCall(s, i, a);
    } else {
      AdvanceKeepsHeap(s, i);
      AdvanceKeepsThreads(s, i);
    }
  }

  lemma AdvanceKeepsHeap(s: Sys, i: nat)
    requires Standing(s, i)
    ensures HeapSide(Step(s, i, Advance))
  {
    match s.pcs[i]
    case AllocTake(_) => HeapTake4(s, i);
    case SplitDetach(_) => HeapDetach(s, i);
    case SplitScatter(_) => HeapScatter(s, i);
    case Alloc2Take(_) => HeapTake2(s, i);
    case FreeLock(_) => HeapMark(s, i);
    case FreePush(_, _) => HeapPush(s, i);
    case MergeLock(_) => HeapScan(s, i);
    case MergeUnlink(_, n) => if n < 512 { HeapUnlink(s, i); } else { HeapMerged(s, i); }
    case BlockPush(_) => HeapBlockPush(s, i);
    case Free2Lock(_) => HeapMark2(s, i);
    case _ => HeapLook(s, i);
  }

  lemma AdvanceKeepsThreads(s: Sys, i: nat)
    requires SysInv(s) && Standing(s, i)
    ensures ThreadsOk(Step(s, i, Advance))
  {
    HeadsUnclaimed(s);
    if Looking(s.pcs[i]) {
      ThreadsLook(s, i);
    } else if s.pcs[i].MergeLock? || s.pcs[i].MergeUnlink? {
      ThreadsMerge(s, i);
    } else if s.pcs[i].FreeLock? || s.pcs[i].FreePush? || s.pcs[i].BlockPush? || s.pcs[i].Free2Lock? {
      ThreadsFree(s, i);
    } else {
      ThreadsAlloc(s, i);
    }
  }

  /** What a list offers next is in nobody's hands: no page is handed out twice. */
  lemma HeadsUnclaimed(s: Sys)
    requires SysInv(s)
    ensures s.heap.free4 != [] ==> s.heap.free4[0] !in s.claim4 && Head(s.heap.free4[0]) !in s.claim2
    ensures s.heap.free2 != [] ==> forall p: nat :: InBlock(s.heap.free2[0], p) ==> p !in s.claim4 && p !in s.claim2
  {
    if s.heap.free4 != [] {
      var p := s.heap.free4[0];
      assert p in s.heap.free4;
      assert PageOk(s.heap, p);
    }
    if s.heap.free2 != [] {
      var h := s.heap.free2[0];
      assert h in s.heap.free2;
      BlockOwner(s.heap, h);
    }
  }

  function HeadOf(s: seq<nat>): Option<nat> { if s == [] then None else Some(s[0]) }

  /** Metadata and lists change only in a step of the thread that holds page_array or takes it in
      that step, and a list head moves only in the hands of the holder of that list. */
  lemma WritesAreLocked(s: Sys, i: nat, a: Act)
    requires SysInv(s) && i < |s.pcs| && InBounds(s, i) && Enabled(s, i, a)
    ensures var t := Step(s, i, a);
            (t.heap != s.heap ==> s.pa in {None, Some(i)})
            && (HeadOf(t.heap.free4) != HeadOf(s.heap.free4) ==> s.l4 in {None, Some(i)})
            && (HeadOf(t.heap.free2) != HeadOf(s.heap.free2) ==> s.l2 in {None, Some(i)})
  {
    assert ThreadOk(s, i);
    if a.Advance? && s.pcs[i].MergeUnlink? && s.pcs[i].n < 512 {
      UnlinkPageKeeps(s.heap, s.pcs[i].h, s.pcs[i].n);
    }
  }

  // ----- what a step reads

  /** A step does not depend on the 2 MiB list while another thread holds it: with any other list in its
      place the same step is taken and has the same effect. */
  lemma ReadsList2Locked(s: Sys, i: nat, a: Act, xs: seq<nat>)
    requires i < |s.pcs| && ThreadOk(s, i) && InBounds(s, i) && Enabled(s, i, a) && s.l2.Some? && s.l2.value != i
    ensures var u := s.(heap := s.heap.(free2 := xs));
            InBounds(u, i) && Enabled(u, i, a)
            && Step(u, i, a) == var t := Step(s, i, a); t.(heap := t.heap.(free2 := xs))
  {}

  /** Nor on the states, counters and owners of pages while another thread holds page_array. */
  lemma ReadsPagesLocked(s: Sys, i: nat, a: Act, b: Heap)
    requires i < |s.pcs| && ThreadOk(s, i) && InBounds(s, i) && Enabled(s, i, a) && s.pa.Some? && s.pa.value != i
    requires Shaped(b) && |b.state| == |s.heap.state| && b.free4 == s.heap.free4 && b.free2 == s.heap.free2
    ensures var u := s.(heap := b);
            InBounds(u, i) && Enabled(u, i, a) && Step(u, i, a) == Step(s, i, a).(heap := b)
  {}

  /** Nor on the 4 KiB list, apart from try_merge, which takes its page out of the list it finds and asks
      only whether that page is the head. */
  lemma ReadsList4Locked(s: Sys, i: nat, a: Act, xs: seq<nat>)
    requires i < |s.pcs| && ThreadOk(s, i) && InBounds(s, i) && Enabled(s, i, a) && s.l4.Some? && s.l4.value != i
    requires HeadOf(xs) == HeadOf(s.heap.free4)
    ensures var u, t := s.(heap := s.heap.(free4 := xs)), Step(s, i, a);
            InBounds(u, i) && Enabled(u, i, a)
            && Step(u, i, a) == t.(heap := t.heap.(free4 := Step(u, i, a).heap.free4))
            && ((a.Advance? && s.pcs[i].MergeUnlink?) || Step(u, i, a).heap.free4 == xs)
  {}
}
