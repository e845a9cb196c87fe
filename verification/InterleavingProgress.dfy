/** Lock order: alloc_4kb locks a list and then page_array, free_4kb the other way round. Two threads that
    block each other this way do so for ever and freeze the heap for everyone; without such a pair some
    call in progress can go on; and two threads can get there. */
module InterleavingProgress {
  import opened PageModel
  import opened HeapSteps
  import opened Sequential
  import opened Interleaving
  import opened InterleavingSafety
  import opened InterleavingRuns

  predicate Wants4(s: Sys, i: nat)
    requires i < |s.pcs|
  {
    match s.pcs[i]
    case SplitScatter(_) => true
    case FreePush(_, _) => true
    case MergeUnlink(h, n) => n < 512 && s.heap.free4 != [] && s.heap.free4[0] == h + n
    case _ => false
  }

  /** Thread j holds page_array and waits for a list whose holder k waits for page_array. */
  predicate DeadlockOf(s: Sys, j: nat, k: nat) {
    && j < |s.pcs| && k < |s.pcs| && s.pa == Some(j)
    && ((s.l4 == Some(k) && Wants4(s, j)) || (s.l2 == Some(k) && s.pcs[j].BlockPush?))
  }

  ghost predicate Deadlock(s: Sys) { exists j: nat, k: nat :: DeadlockOf(s, j, k) }

  predicate Busy(s: Sys) { exists i: nat :: i < |s.pcs| && !s.pcs[i].Idle? }

  predicate CanMove(s: Sys) { exists i: nat :: i < |s.pcs| && Enabled(s, i, Advance) }

  /** Unless two threads block each other, some call in progress can go on. */
  lemma MovesUnlessDeadlock(s: Sys)
    requires SysInv(s) && Busy(s) && !Deadlock(s)
    ensures CanMove(s)
  {
    if s.pa.Some? {
      var j := s.pa.value;
      assert ThreadOk(s, j);
      assert s.l4.Some? ==> !DeadlockOf(s, j, s.l4.value);
      assert s.l2.Some? ==> !DeadlockOf(s, j, s.l2.value);
      assert Enabled(s, j, Advance);
    } else {
      var i: nat :| i < |s.pcs| && !s.pcs[i].Idle?;
      if s.l4.Some? {
        assert ThreadOk(s, s.l4.value);
        assert Enabled(s, s.l4.value, Advance);
      } else if s.l2.Some? {
        assert ThreadOk(s, s.l2.value);
        assert Enabled(s, s.l2.value, Advance);
      } else {
        assert ThreadOk(s, i);
        assert Enabled(s, i, Advance);
      }
    }
  }

  /** No thread holds both lists, and what the holder of a list waits for is page_array, while the holder
      of page_array waits for a list at most. */
  lemma LockOrder(s: Sys, i: nat)
    requires SysInv(s) && i < |s.pcs|
    ensures s.l4 == Some(i) ==> s.l2 != Some(i) && s.pa != Some(i) && (Enabled(s, i, Advance) <==> s.pa.None?)
    ensures s.l2 == Some(i) ==> s.l4 != Some(i) && s.pa != Some(i) && (Enabled(s, i, Advance) <==> s.pa.None?)
    ensures s.pa == Some(i) && s.l4.None? && s.l2.None? ==> Enabled(s, i, Advance)
    ensures !s.pcs[i].Idle? && s.pa.None? && s.l4.None? && s.l2.None? ==> Enabled(s, i, Advance)
  {
    assert ThreadOk(s, i);
  }

  /** Two threads that block each other do so after every further step of any thread, and no such step
      allocates or frees anything. */
  lemma DeadlockStays(s: Sys, i: nat, a: Act, j: nat, k: nat)
    requires SysInv(s) && i < |s.pcs| && InBounds(s, i) && Enabled(s, i, a) && DeadlockOf(s, j, k)
    ensures i != j && i != k && DeadlockOf(Step(s, i, a), j, k) && Step(s, i, a).heap == s.heap
  {
    assert ThreadOk(s, i) && ThreadOk(s, j) && ThreadOk(s, k);
    assert i != j && i != k;
    assert Step(s, i, a).heap == s.heap by { WritesAreLocked(s, i, a); }
    ElsewhereKeeps(s, i, a, j, k);
  }

  /** A third thread takes no lock that is held and moves nobody else. */
  lemma ElsewhereKeeps(s: Sys, i: nat, a: Act, j: nat, k: nat)
    requires i < |s.pcs| && InBounds(s, i) && Enabled(s, i, a) && DeadlockOf(s, j, k) && ThreadOk(s, i)
    requires i != j && i != k && Step(s, i, a).heap == s.heap
    ensures DeadlockOf(Step(s, i, a), j, k)
  {
    var t := Step(s, i, a);
    assert t.pcs[j] == s.pcs[j] && |t.pcs| == |s.pcs|;
    assert t.pa == s.pa && (s.l4 == Some(k) ==> t.l4 == s.l4) && (s.l2 == Some(k) ==> t.l2 == s.l2);
  }

  /** In every continuation the two never move, and whatever the other threads do, no page is ever
      allocated, freed, split or merged again. */
  lemma {:induction false} DeadlockForever(s: Sys, es: seq<Event>, j: nat, k: nat)
    requires SysInv(s) && Possible(s, es) && DeadlockOf(s, j, k)
    ensures DeadlockOf(Run(s, es), j, k) && Run(s, es).heap == s.heap
    ensures forall e :: 0 <= e < |es| ==> es[e].thread != j && es[e].thread != k
    decreases |es|
  {
    if es != [] {
      StepKeeps(s, es[0].thread, es[0].act);
      DeadlockStays(s, es[0].thread, es[0].act, j, k);
      DeadlockForever(Step(s, es[0].thread, es[0].act), es[1..], j, k);
    }
  }

  /** Thread 1 looks at the 4 KiB list while thread 0 frees page q: each then waits for the other. */
  function CrossEvents(q: nat): seq<Event> {
    [Event(1, CallAlloc4)] + [Event(1, Advance)] + [Event(0, CallFree4(q))] + [Event(0, Advance)]
  }

  lemma CrossPhase(s: Sys, q: nat) returns (t: Sys)
    requires Shaped(s.heap) && s.pcs == [Idle, Idle] && AllLocksFree(s) && s.heap.free4 != []
    requires q in s.claim4 && s.claim4[q] == None && q < |s.heap.state|
    ensures Goes(s, CrossEvents(q), t) && DeadlockOf(t, 0, 1)
  {
    var es := [Event(1, CallAlloc4)];
    t := Called(s, 1, CallAlloc4);
    t := Move(s, es, t, 1, Advance);
    assert t == s.(l4 := Some(1), pcs := [Idle, AllocTake(s.heap.free4[0])]);
    es := es + [Event(1, Advance)];
    t := Move(s, es, t, 0, CallFree4(q));
    es := es + [Event(0, CallFree4(q))];
    assert t.pcs == [FreeLock(q), AllocTake(s.heap.free4[0])];
    t := Move(s, es, t, 0, Advance);
  }

  /** With two single pages in reserve, two threads can deadlock. */
  lemma DeadlockReachable(a: Heap) returns (es: seq<Event>)
    requires Quiet(a) && |a.free4| >= 2
    requires forall p :: 0 <= p < |a.state| ==> a.owner[p] != User4 && a.owner[p] != User2
    ensures Possible(Start(a, 2), es) && DeadlockOf(Run(Start(a, 2), es), 0, 1)
  {
    var s := Start(a, 2);
    StartOk(a, 2);
    HeadsOk(a, Nothing);
    var ds := SoloAlloc4(s, 0);
    RunSafe(s, ds);
    var q := a.free4[0];
    var t := CrossPhase(Run(s, ds), q);
    GoesRun(Run(s, ds), CrossEvents(q), t);
    RunConcat(s, ds, CrossEvents(q));
    es := ds + CrossEvents(q);
  }
}
