/** Whole interleaved runs. */
module InterleavingRuns {
  import opened PageModel
  import opened HeapSteps
  import opened Sequential
  import opened Interleaving
  import opened InterleavingSafety

  datatype Event = Event(thread: nat, act: Act)

  /** Each step finds the lock it needs free; that its indices are in range is StepInBounds. */
  predicate Possible(s: Sys, es: seq<Event>)
    decreases |es|
  {
    es == [] ||
    (es[0].thread < |s.pcs| && InBounds(s, es[0].thread) && Enabled(s, es[0].thread, es[0].act)
     && Possible(Step(s, es[0].thread, es[0].act), es[1..]))
  }

  function Run(s: Sys, es: seq<Event>): Sys
    requires Possible(s, es)
    decreases |es|
  {
    if es == [] then s else Run(Step(s, es[0].thread, es[0].act), es[1..])
  }

  /** n idle threads on a heap from which nothing has been handed out yet. */
  function Start(a: Heap, n: nat): Sys {
    Sys(a, None, None, None, seq(n, _ => Idle), map[], map[])
  }

  lemma StartOk(a: Heap, n: nat)
    requires Inv(a, Nothing)
    requires forall p :: 0 <= p < |a.state| ==> a.owner[p] != User4 && a.owner[p] != User2
    ensures SysInv(Start(a, n))
  {}

  /** One step moves no page into or out of the system's reserve and forgets no superpage. */
  ghost predicate SameReserve(a: Heap, b: Heap) {
    && Shaped(a) && Shaped(b) && |a.state| == |b.state|
    && a.tracked <= b.tracked
    && forall p :: 0 <= p < |a.state| ==> (a.owner[p] == Reserved <==> b.owner[p] == Reserved)
  }

  lemma BlockMoves(a: Heap, b: Heap, h: nat)
    requires Shaped(a) && Shaped(b) && |a.state| == |b.state| && a.tracked <= b.tracked
    requires OwnersOutsideSame(a, b, h, h + 512) && h + 512 <= |a.state|
    requires forall p :: h <= p < h + 512 ==> a.owner[p] != Reserved && b.owner[p] != Reserved
    ensures SameReserve(a, b)
  {}

  lemma BlockReserve(s: Sys, i: nat)
    requires Standing(s, i)
    requires s.pcs[i].SplitDetach? || s.pcs[i].Alloc2Take? || s.pcs[i].Free2Lock? || s.pcs[i].SplitScatter?
             || s.pcs[i].BlockPush?
    ensures SameReserve(s.heap, Step(s, i, Advance).heap)
  {
    var h := s.pcs[i].h;
    if s.pcs[i].SplitScatter? || s.pcs[i].BlockPush? {
      assert forall p :: h <= p < h + 512 ==> Flying(WholeBlock(h), p);
    } else {
      assert s.pcs[i].Free2Lock? || h in s.heap.free2;
      BlockOwner(s.heap, h);
    }
    BlockMoves(s.heap, Step(s, i, Advance).heap, h);
  }

  lemma PageReserve(s: Sys, i: nat)
    requires Standing(s, i)
    requires s.pcs[i].AllocTake? || s.pcs[i].FreeLock? || s.pcs[i].FreePush? || s.pcs[i].MergeUnlink?
    ensures SameReserve(s.heap, Step(s, i, Advance).heap)
  {
    match s.pcs[i]
    case AllocTake(p) => assert p in s.heap.free4;
    case FreePush(p, _) => assert Flying(OnePage(p), p);
    case _ =>
  }

  lemma StepReserve(s: Sys, i: nat, a: Act)
    requires SysInv(s) && i < |s.pcs| && InBounds(s, i) && Enabled(s, i, a)
    ensures SameReserve(s.heap, Step(s, i, a).heap)
  {
    assert ThreadOk(s, i);
    var pc := s.pcs[i];
    if a.Advance? {
      if pc.SplitDetach? || pc.Alloc2Take? || pc.Free2Lock? || pc.SplitScatter? || pc.BlockPush? {
        BlockReserve(s, i);
      } else if pc.AllocTake? || pc.FreeLock? || pc.FreePush? || pc.MergeUnlink? {
        PageReserve(s, i);
      }
    }
  }

  /** Safety of every interleaving of any number of threads. */
  lemma {:induction false} RunSafe(s: Sys, es: seq<Event>)
    requires SysInv(s) && Possible(s, es)
    ensures SysInv(Run(s, es)) && SameReserve(s.heap, Run(s, es).heap)
    decreases |es|
  {
    if es != [] {
      StepKeeps(s, es[0].thread, es[0].act);
      StepReserve(s, es[0].thread, es[0].act);
      RunSafe(Step(s, es[0].thread, es[0].act), es[1..]);
      ReserveCompose(s.heap, Step(s, es[0].thread, es[0].act).heap, Run(s, es).heap);
    }
  }

  lemma ReserveCompose(a: Heap, b: Heap, c: Heap)
    requires SameReserve(a, b) && SameReserve(b, c)
    ensures SameReserve(a, c)
  {
    forall p | 0 <= p < |a.state| ensures a.owner[p] == Reserved <==> c.owner[p] == Reserved {
      assert a.owner[p] == Reserved <==> b.owner[p] == Reserved;
    }
  }

  /** A page leaves the allocated set only when the thread told to free it does so, and enters it only
      from the head of a free list: no merge, split or allocation of another thread can take it. */
  lemma ClaimsChange(s: Sys, i: nat, a: Act)
    requires SysInv(s) && i < |s.pcs| && InBounds(s, i) && Enabled(s, i, a)
    ensures var t := Step(s, i, a);
            (forall p :: p in s.claim4 && p !in t.claim4 ==>
               a.Advance? && s.pcs[i] == FreeLock(p) && s.claim4[p] == Some(i))
            && (forall p :: p in t.claim4 && p !in s.claim4 ==>
                  a.Advance? && s.pcs[i] == AllocTake(p) && p in s.heap.free4)
            && (forall h :: h in s.claim2 && h !in t.claim2 ==>
                  a.Advance? && s.pcs[i] == Free2Lock(h) && s.claim2[h] == Some(i))
            && (forall h :: h in t.claim2 && h !in s.claim2 ==>
                  a.Advance? && s.pcs[i] == Alloc2Take(h) && h in s.heap.free2)
  {
    assert ThreadOk(s, i);
  }

  /** Whenever page_array is free, the structural invariant holds and every frame given to the
      allocator is on exactly one list or in exactly one caller's hands. */
  lemma QuiescentPartition(s: Sys, p: nat)
    requires SysInv(s) && s.pa.None? && p < |s.heap.state|
    ensures Inv(s.heap, Nothing)
    ensures s.heap.owner[p] != Reserved <==>
              p in s.heap.free4 || Head(p) in s.heap.free2 || p in s.claim4 || Head(p) in s.claim2
    ensures !(p in s.heap.free4 && Head(p) in s.heap.free2) && !(p in s.claim4 && Head(p) in s.claim2)
    ensures p in s.heap.free4 || Head(p) in s.heap.free2 ==> p !in s.claim4 && Head(p) !in s.claim2
  {
    assert PageOk(s.heap, p) && PageOk(s.heap, Head(p));
    assert s.heap.owner[p] == Moving <==> Flying(Nothing, p);
    HeadUnique(Head(p), Head(p));
  }

  /** From boot: at any point of any interleaved run where page_array is free. */
  lemma InterleavedPartition(a: Heap, n: nat, es: seq<Event>, p: nat)
    requires Inv(a, Nothing) && p < |a.state|
    requires forall q :: 0 <= q < |a.state| ==> a.owner[q] != User4 && a.owner[q] != User2
    requires Possible(Start(a, n), es) && Run(Start(a, n), es).pa.None?
    ensures var t := Run(Start(a, n), es);
            Inv(t.heap, Nothing)
            && (a.owner[p] != Reserved <==>
                p in t.heap.free4 || Head(p) in t.heap.free2 || p in t.claim4 || Head(p) in t.claim2)
  {
    StartOk(a, n);
    RunSafe(Start(a, n), es);
    var t := Run(Start(a, n), es);
    assert a.owner[p] == Reserved <==> t.heap.owner[p] == Reserved;
    QuiescentPartition(t, p);
  }

  // ----- runs as sequences of states

  ghost predicate MoveAt(ss: seq<Sys>, es: seq<Event>, k: nat)
    requires k < |es| && |ss| == |es| + 1
  {
    && es[k].thread < |ss[k].pcs| && InBounds(ss[k], es[k].thread) && Enabled(ss[k], es[k].thread, es[k].act)
    && ss[k + 1] == Step(ss[k], es[k].thread, es[k].act)
  }

  ghost predicate States(s: Sys, es: seq<Event>, ss: seq<Sys>) {
    && |ss| == |es| + 1 && ss[0] == s
    && forall k :: 0 <= k < |es| ==> MoveAt(ss, es, k)
  }

  /** Every run passes through such a sequence, and ends where it ends. */
  lemma {:induction false} RunHasStates(s: Sys, es: seq<Event>) returns (ss: seq<Sys>)
    requires Possible(s, es)
    ensures States(s, es, ss) && ss[|es|] == Run(s, es)
    decreases |es|
  {
    if es == [] {
      ss := [s];
    } else {
      var ts := RunHasStates(Step(s, es[0].thread, es[0].act), es[1..]);
      ss := [s] + ts;
      forall k | 0 <= k < |es| ensures MoveAt(ss, es, k) {
        if k > 0 { assert MoveAt(ts, es[1..], k - 1); }
      }
    }
  }

  lemma {:induction false} StatesKeep(s: Sys, es: seq<Event>, ss: seq<Sys>, n: nat)
    requires SysInv(s) && States(s, es, ss) && n <= |es|
    ensures SysInv(ss[n])
  {
    if n > 0 {
      StatesKeep(s, es, ss, n - 1);
      assert MoveAt(ss, es, n - 1);
      StepKeeps(ss[n - 1], es[n - 1].thread, es[n - 1].act);
    }
  }

  lemma {:induction false} StatesAreRun(s: Sys, es: seq<Event>, ss: seq<Sys>)
    requires States(s, es, ss)
    ensures Possible(s, es) && Run(s, es) == ss[|es|]
    decreases |es|
  {
    if es != [] {
      assert MoveAt(ss, es, 0);
      forall k | 0 <= k < |es[1..]| ensures MoveAt(ss[1..], es[1..], k) { assert MoveAt(ss, es, k + 1); }
      StatesAreRun(ss[1], es[1..], ss[1..]);
    }
  }

  lemma StatesConcat(s: Sys, es: seq<Event>, ss: seq<Sys>, fs: seq<Event>, ts: seq<Sys>)
    requires States(s, es, ss) && States(ss[|es|], fs, ts)
    ensures States(s, es + fs, ss + ts[1..])
  {
    forall k | 0 <= k < |es + fs| ensures MoveAt(ss + ts[1..], es + fs, k) {
      if k < |es| { assert MoveAt(ss, es, k); } else { assert MoveAt(ts, fs, k - |es|); }
    }
  }

  lemma RunConcat(s: Sys, es: seq<Event>, fs: seq<Event>)
    requires Possible(s, es) && Possible(Run(s, es), fs)
    ensures Possible(s, es + fs) && Run(s, es + fs) == Run(Run(s, es), fs)
  {
    var ss := RunHasStates(s, es);
    var ts := RunHasStates(Run(s, es), fs);
    StatesConcat(s, es, ss, fs, ts);
    StatesAreRun(s, es + fs, ss + ts[1..]);
  }

  /** The events es lead from s to t. */
  ghost predicate Goes(s: Sys, es: seq<Event>, t: Sys) {
    exists ss :: States(s, es, ss) && ss[|es|] == t
  }

  lemma Stay(s: Sys)
    ensures Goes(s, [], s)
  {
    assert States(s, [], [s]);
  }

  lemma Move(s: Sys, es: seq<Event>, t: Sys, i: nat, a: Act) returns (u: Sys)
    requires Goes(s, es, t) && i < |t.pcs| && InBounds(t, i) && Enabled(t, i, a)
    ensures u == Step(t, i, a) && Goes(s, es + [Event(i, a)], u)
  {
    u := Step(t, i, a);
    var ss :| States(s, es, ss) && ss[|es|] == t;
    var es', ss' := es + [Event(i, a)], ss + [u];
    forall k | 0 <= k < |es'| ensures MoveAt(ss', es', k) {
      if k < |es| { assert MoveAt(ss, es, k); }
    }
    assert States(s, es', ss');
  }

  lemma GoesOn(s: Sys, es: seq<Event>, t: Sys, fs: seq<Event>, u: Sys)
    requires Goes(s, es, t) && Goes(t, fs, u)
    ensures Goes(s, es + fs, u)
  {
    var ss :| States(s, es, ss) && ss[|es|] == t;
    var ts :| States(t, fs, ts) && ts[|fs|] == u;
    StatesConcat(s, es, ss, fs, ts);
    assert (ss + ts[1..])[|es + fs|] == u;
  }

  lemma GoesRun(s: Sys, es: seq<Event>, t: Sys)
    requires Goes(s, es, t)
    ensures Possible(s, es) && Run(s, es) == t
  {
    var ss :| States(s, es, ss) && ss[|es|] == t;
    StatesAreRun(s, es, ss);
  }

  // ----- phases of a call that is not disturbed

  predicate AllLocksFree(s: Sys) { s.pa.None? && s.l4.None? && s.l2.None? }

  /** n steps of thread i. */
  function Steps(i: nat, n: nat): (es: seq<Event>)
    ensures |es| == n
  {
    seq(n, _ => Event(i, Advance))
  }

  predicate OnlyBy(es: seq<Event>, i: nat) {
    forall k :: 0 <= k < |es| ==> es[k].thread == i
  }

  /** alloc_4kb on an empty 4 KiB list, up to its second attempt. */
  function SplitEvents(i: nat): seq<Event> { [Event(i, CallAlloc4)] + Steps(i, 5) }

  /** From the call to the lock of the 2 MiB list. */
  lemma LookPhase(s: Sys, i: nat)
    requires i < |s.pcs| && s.pcs[i] == AllocLock4 && AllLocksFree(s)
    requires Shaped(s.heap) && s.heap.free4 == [] && s.heap.free2 != []
    ensures Goes(s, Steps(i, 3), s.(l2 := Some(i), pcs := s.pcs[i := SplitDetach(s.heap.free2[0])]))
  {
    Stay(s);
    var e := Event(i, Advance);
    var s1 := Move(s, [], s, i, Advance);
    assert s1 == s.(pcs := s.pcs[i := AllocCheck2]);
    var s2 := Move(s, [] + [e], s1, i, Advance);
    assert s2 == s.(pcs := s.pcs[i := SplitLock2]);
    var s3 := Move(s, [] + [e] + [e], s2, i, Advance);
    assert s3 == s.(l2 := Some(i), pcs := s.pcs[i := SplitDetach(s.heap.free2[0])]);
    assert [] + [e] + [e] + [e] == Steps(i, 3);
  }

  /** From there through both critical sections. */
  lemma ScatterPhase(s: Sys, i: nat)
    requires i < |s.pcs| && s.pa.None? && s.l4.None? && s.l2 == Some(i) && Shaped(s.heap)
    requires s.heap.free2 != [] && s.heap.free2[0] + 512 <= |s.heap.state| && s.pcs[i] == SplitDetach(s.heap.free2[0])
    ensures Goes(s, Steps(i, 2), s.(heap := Split(s.heap), l2 := None, pcs := s.pcs[i := AllocLock4]))
  {
    Stay(s);
    var e := Event(i, Advance);
    var h := s.heap.free2[0];
    var s1 := Move(s, [], s, i, Advance);
    assert s1 == s.(heap := DetachFree2(s.heap), pa := Some(i), l2 := None, pcs := s.pcs[i := SplitScatter(h)]);
    var s2 := Move(s, [] + [e], s1, i, Advance);
    assert s2 == s.(heap := Split(s.heap), l2 := None, pcs := s.pcs[i := AllocLock4]);
    assert [] + [e] + [e] == Steps(i, 2);
  }

  lemma SplitPhase(s: Sys, i: nat)
    requires i < |s.pcs| && s.pcs[i] == Idle && AllLocksFree(s)
    requires Shaped(s.heap) && s.heap.free4 == [] && s.heap.free2 != [] && HeadsInRange(s.heap)
    ensures Goes(s, SplitEvents(i), s.(heap := Split(s.heap), pcs := s.pcs[i := AllocLock4]))
  {
    var s1 := Called(s, i, CallAlloc4);
    LookPhase(s1, i);
    var s2 := s1.(l2 := Some(i), pcs := s1.pcs[i := SplitDetach(s.heap.free2[0])]);
    ScatterPhase(s2, i);
    var s3 := s2.(heap := Split(s.heap), l2 := None, pcs := s2.pcs[i := AllocLock4]);
    GoesOn(s1, Steps(i, 3), s2, Steps(i, 2), s3);
    assert Steps(i, 3) + Steps(i, 2) == Steps(i, 5);
    GoesOn(s, [Event(i, CallAlloc4)], s1, Steps(i, 5), s3);
    assert s3 == s.(heap := Split(s.heap), pcs := s.pcs[i := AllocLock4]);
  }

  /** The call itself. */
  lemma Called(s: Sys, i: nat, a: Act) returns (t: Sys)
    requires i < |s.pcs| && InBounds(s, i) && Enabled(s, i, a) && !a.Advance?
    ensures t == Step(s, i, a) && Goes(s, [Event(i, a)], t)
  {
    Stay(s);
    t := Move(s, [], s, i, a);
    assert [] + [Event(i, a)] == [Event(i, a)];
  }

  /** The first critical section of free_4kb. */
  function FreeEvents(i: nat, q: nat): seq<Event> { [Event(i, CallFree4(q))] + Steps(i, 2) }

  function AfterFree(s: Sys, i: nat, q: nat): Sys
    requires Shaped(s.heap) && i < |s.pcs| && q < |s.heap.state|
  {
    var b := PushFreed(MarkFreed(s.heap, q), q);
    s.(heap := b, claim4 := s.claim4 - {q},
       pcs := s.pcs[i := if b.counter[Head(q)] == 512 then MergeLock(q) else Idle])
  }

  lemma FreePhase(s: Sys, i: nat, q: nat)
    requires Shaped(s.heap) && i < |s.pcs| && s.pcs[i] == Idle && AllLocksFree(s)
    requires q in s.claim4 && s.claim4[q] == None && q < |s.heap.state|
    ensures Goes(s, FreeEvents(i, q), AfterFree(s, i, q))
  {
    var s1 := Called(s, i, CallFree4(q));
    var e := Event(i, Advance);
    var b := MarkFreed(s.heap, q);
    Stay(s1);
    var s2 := Move(s1, [], s1, i, Advance);
    assert s1.claim4 - {q} == s.claim4 - {q};
    assert s2 == s.(heap := b, pa := Some(i), claim4 := s.claim4 - {q},
                    pcs := s.pcs[i := FreePush(q, b.counter[Head(q)] == 512)]);
    var s3 := Move(s1, [] + [e], s2, i, Advance);
    assert s3 == AfterFree(s, i, q);
    assert [] + [e] + [e] == Steps(i, 2);
    GoesOn(s, [Event(i, CallFree4(q))], s1, Steps(i, 2), s3);
  }

  /** alloc_4kb's attempt on a non-empty list. */
  lemma TakePhase(s: Sys, i: nat)
    requires i < |s.pcs| && s.pcs[i] == AllocLock4 && AllLocksFree(s)
    requires Shaped(s.heap) && s.heap.free4 != [] && s.heap.free4[0] < |s.heap.state|
    ensures Goes(s, Steps(i, 2),
                 s.(heap := TakeFree4(s.heap), claim4 := s.claim4[s.heap.free4[0] := None], pcs := s.pcs[i := Idle]))
  {
    Stay(s);
    var e := Event(i, Advance);
    var s1 := Move(s, [], s, i, Advance);
    assert s1 == s.(l4 := Some(i), pcs := s.pcs[i := AllocTake(s.heap.free4[0])]);
    var s2 := Move(s, [] + [e], s1, i, Advance);
    assert s2 == s.(heap := TakeFree4(s.heap), claim4 := s.claim4[s.heap.free4[0] := None], pcs := s.pcs[i := Idle]);
    assert [] + [e] + [e] == Steps(i, 2);
  }

  // ----- an undisturbed call does what its sequential specification says

  lemma SoloAlloc4(s: Sys, i: nat) returns (es: seq<Event>)
    requires i < |s.pcs| && s.pcs[i] == Idle && AllLocksFree(s) && Shaped(s.heap) && HeadsInRange(s.heap)
    ensures Possible(s, es) && OnlyBy(es, i)
    ensures var (b, r) := Alloc4(s.heap);
            Run(s, es) == s.(heap := b, claim4 := if r.Some? then s.claim4[r.value := None] else s.claim4)
  {
    if s.heap.free4 != [] {
      SoloTake(s, i);
      es := [Event(i, CallAlloc4)] + Steps(i, 2);
    } else if s.heap.free2 != [] {
      SoloSplit(s, i);
      es := SplitEvents(i) + Steps(i, 2);
    } else {
      SoloFail(s, i);
      es := [Event(i, CallAlloc4)] + Steps(i, 2);
    }
    var (b, r) := Alloc4(s.heap);
    GoesRun(s, es, s.(heap := b, claim4 := if r.Some? then s.claim4[r.value := None] else s.claim4));
  }

  lemma SoloTake(s: Sys, i: nat)
    requires i < |s.pcs| && s.pcs[i] == Idle && AllLocksFree(s) && Shaped(s.heap) && HeadsInRange(s.heap)
    requires s.heap.free4 != []
    ensures Goes(s, [Event(i, CallAlloc4)] + Steps(i, 2),
                 s.(heap := TakeFree4(s.heap), claim4 := s.claim4[s.heap.free4[0] := None]))
  {
    var s1 := Called(s, i, CallAlloc4);
    TakePhase(s1, i);
    assert s1.pcs[i := Idle] == s.pcs;
    GoesOn(s, [Event(i, CallAlloc4)], s1, Steps(i, 2),
           s.(heap := TakeFree4(s.heap), claim4 := s.claim4[s.heap.free4[0] := None]));
  }

  lemma SoloSplit(s: Sys, i: nat)
    requires i < |s.pcs| && s.pcs[i] == Idle && AllLocksFree(s) && Shaped(s.heap) && HeadsInRange(s.heap)
    requires s.heap.free4 == [] && s.heap.free2 != []
    ensures var b := Split(s.heap);
            Goes(s, SplitEvents(i) + Steps(i, 2), s.(heap := TakeFree4(b), claim4 := s.claim4[b.free4[0] := None]))
  {
    SplitPhase(s, i);
    var s1 := s.(heap := Split(s.heap), pcs := s.pcs[i := AllocLock4]);
    TakePhase(s1, i);
    assert s1.pcs[i := Idle] == s.pcs;
    GoesOn(s, SplitEvents(i), s1, Steps(i, 2),
           s.(heap := TakeFree4(s1.heap), claim4 := s.claim4[s1.heap.free4[0] := None]));
  }

  lemma SoloFail(s: Sys, i: nat)
    requires i < |s.pcs| && s.pcs[i] == Idle && AllLocksFree(s) && Shaped(s.heap)
    requires s.heap.free4 == [] && s.heap.free2 == []
    ensures Goes(s, [Event(i, CallAlloc4)] + Steps(i, 2), s)
  {
    var s1 := Called(s, i, CallAlloc4);
    var e := Event(i, Advance);
    var s2 := Move(s, [Event(i, CallAlloc4)], s1, i, Advance);
    assert s2 == s.(pcs := s.pcs[i := AllocCheck2]);
    var s3 := Move(s, [Event(i, CallAlloc4)] + [e], s2, i, Advance);
    assert s3.pcs == s.pcs;
    assert [Event(i, CallAlloc4)] + [e] + [e] == [Event(i, CallAlloc4)] + Steps(i, 2);
  }

  lemma SoloAlloc2(s: Sys, i: nat) returns (es: seq<Event>)
    requires i < |s.pcs| && s.pcs[i] == Idle && AllLocksFree(s) && Shaped(s.heap) && HeadsInRange(s.heap)
    ensures Possible(s, es) && OnlyBy(es, i)
    ensures var (b, r) := Alloc2(s.heap);
            Run(s, es) == s.(heap := b, claim2 := if r.Some? then s.claim2[r.value := None] else s.claim2)
  {
    var e := Event(i, Advance);
    es := [Event(i, CallAlloc2)] + [e];
    var t := Called(s, i, CallAlloc2);
    t := Move(s, [Event(i, CallAlloc2)], t, i, Advance);
    if s.heap.free2 != [] {
      assert t == s.(l2 := Some(i), pcs := s.pcs[i := Alloc2Take(s.heap.free2[0])]);
      t := Move(s, es, t, i, Advance);
      es := es + [e];
    }
    assert t.pcs == s.pcs;
    GoesRun(s, es, t);
  }

  lemma SoloFree2(s: Sys, i: nat, h: nat) returns (es: seq<Event>)
    requires i < |s.pcs| && s.pcs[i] == Idle && AllLocksFree(s) && Shaped(s.heap)
    requires h in s.claim2 && s.claim2[h] == None && h + 512 <= |s.heap.state| && h % 512 == 0
    requires s.heap.state[h] != Free2MB
    ensures Possible(s, es) && OnlyBy(es, i)
    ensures Run(s, es) == s.(heap := Free2(s.heap, h), claim2 := s.claim2 - {h})
  {
    HeadUnique(h, h);
    var e := Event(i, Advance);
    var c := Event(i, CallFree2(h));
    var s1 := Called(s, i, CallFree2(h));
    assert s1.claim2 - {h} == s.claim2 - {h};
    var s2 := Move(s, [c], s1, i, Advance);
    assert s2 == s.(heap := MarkFreed2(s.heap, h), pa := Some(i), claim2 := s.claim2 - {h},
                    pcs := s.pcs[i := BlockPush(h)]);
    var s3 := Move(s, [c] + [e], s2, i, Advance);
    assert s3.pcs == s.pcs;
    es := [c] + [e] + [e];
    GoesRun(s, es, s3);
  }

  /** The unlink loop after n iterations. */
  lemma {:induction false} UnlinkPhase(s: Sys, i: nat, h: nat, n: nat)
    requires i < |s.pcs| && s.pcs[i] == MergeUnlink(h, 0) && s.l4.None? && n <= 512
    requires Shaped(s.heap) && h + 512 <= |s.heap.state|
    ensures Goes(s, Steps(i, n), s.(heap := UnlinkUpTo(s.heap, h, n), pcs := s.pcs[i := MergeUnlink(h, n)]))
  {
    if n == 0 {
      Stay(s);
      UnlinkNone(s.heap, h);
      assert s.pcs[i := MergeUnlink(h, 0)] == s.pcs;
    } else {
      UnlinkPhase(s, i, h, n - 1);
      var t := s.(heap := UnlinkUpTo(s.heap, h, n - 1), pcs := s.pcs[i := MergeUnlink(h, n - 1)]);
      var u := Move(s, Steps(i, n - 1), t, i, Advance);
      UnlinkOneMore(s.heap, h, n - 1);
      assert u.pcs == s.pcs[i := MergeUnlink(h, n)];
      assert Steps(i, n - 1) + [Event(i, Advance)] == Steps(i, n);
    }
  }

  lemma MergePhase(s: Sys, i: nat, p: nat) returns (es: seq<Event>)
    requires i < |s.pcs| && s.pcs[i] == MergeLock(p) && AllLocksFree(s) && Shaped(s.heap) && p < |s.heap.state|
    ensures OnlyBy(es, i) && Goes(s, es, s.(heap := TryMerge(s.heap, p), pcs := s.pcs[i := Idle]))
  {
    var h := Head(p);
    Stay(s);
    var s1 := Move(s, [], s, i, Advance);
    es := [] + [Event(i, Advance)];
    if AllFree(s.heap.state, h, h + 512) {
      assert s1 == s.(pa := Some(i), pcs := s.pcs[i := MergeUnlink(h, 0)]);
      UnlinkPhase(s1, i, h, 512);
      var s2 := s1.(heap := UnlinkUpTo(s.heap, h, 512), pcs := s1.pcs[i := MergeUnlink(h, 512)]);
      GoesOn(s, es, s1, Steps(i, 512), s2);
      AdoptPhase(s2, i, h);
      var s3 := s.(heap := TryMerge(s.heap, p), pcs := s.pcs[i := Idle]);
      assert s2.pcs[i := Idle] == s3.pcs;
      GoesOn(s, es + Steps(i, 512), s2, Steps(i, 2), s3);
      es := es + Steps(i, 512) + Steps(i, 2);
    }
  }

  lemma AdoptPhase(s: Sys, i: nat, h: nat)
    requires i < |s.pcs| && s.pcs[i] == MergeUnlink(h, 512) && s.l2.None?
    requires Shaped(s.heap) && h + 512 <= |s.heap.state|
    ensures Goes(s, Steps(i, 2),
                 s.(heap := PushBlock(MarkMerged(s.heap, h), h), pa := None, pcs := s.pcs[i := Idle]))
  {
    Stay(s);
    var e := Event(i, Advance);
    var s1 := Move(s, [], s, i, Advance);
    assert s1 == s.(heap := MarkMerged(s.heap, h), pcs := s.pcs[i := BlockPush(h)]);
    var s2 := Move(s, [] + [e], s1, i, Advance);
    assert s2.pcs == s.pcs[i := Idle];
    assert [] + [e] + [e] == Steps(i, 2);
  }

  lemma UnlinkNone(a: Heap, h: nat)
    requires Shaped(a) && h <= |a.state|
    ensures UnlinkUpTo(a, h, 0) == a
  {
    WithoutNone(a.free4, h, h);
    assert UnlinkUpTo(a, h, 0).owner == a.owner;
  }

  lemma SoloFree4(s: Sys, i: nat, q: nat) returns (es: seq<Event>)
    requires i < |s.pcs| && s.pcs[i] == Idle && AllLocksFree(s) && Shaped(s.heap)
    requires q in s.claim4 && s.claim4[q] == None && q < |s.heap.state| && s.heap.state[q] != Free4KB
    ensures Possible(s, es) && OnlyBy(es, i)
    ensures Run(s, es) == s.(heap := Free4(s.heap, q), claim4 := s.claim4 - {q})
  {
    var t := s.(heap := Free4(s.heap, q), claim4 := s.claim4 - {q});
    FreePhase(s, i, q);
    es := FreeEvents(i, q);
    var s1 := AfterFree(s, i, q);
    if s1.pcs[i] == MergeLock(q) {
      var fs := MergePhase(s1, i, q);
      assert s1.pcs[i := Idle] == s.pcs;
      GoesOn(s, es, s1, fs, t);
      es := es + fs;
    } else {
      assert s1.pcs == s.pcs;
    }
    GoesRun(s, es, t);
  }

  // ----- coalescing is a property of sequential calls only

  /** The heap all three phases leave behind. */
  function Uncoalesced(a: Heap, q: nat): Heap
    requires Shaped(a) && HeadsInRange(a) && a.free2 != [] && q < |a.state|
  {
    TakeFree4(PushFreed(MarkFreed(Split(a), q), q))
  }

  lemma ThreePhases(s: Sys, q: nat)
    requires |s.pcs| == 2 && s.pcs == [Idle, Idle] && AllLocksFree(s)
    requires Shaped(s.heap) && s.heap.free4 == [] && s.heap.free2 != [] && HeadsInRange(s.heap)
    requires q in s.claim4 && s.claim4[q] == None && q < |s.heap.state|
    requires SatAdd(Split(s.heap).counter[Head(q)]) != 512
    ensures var es := SplitEvents(0) + (FreeEvents(1, q) + Steps(0, 2));
            Possible(s, es)
            && Run(s, es).pcs == [Idle, Idle] && AllLocksFree(Run(s, es))
            && Run(s, es).heap == Uncoalesced(s.heap, q)
  {
    SplitPhase(s, 0);
    var t := s.(heap := Split(s.heap), pcs := s.pcs[0 := AllocLock4]);
    assert t.pcs == [AllocLock4, Idle];
    var u := FreeThenTake(t, q);
    GoesOn(s, SplitEvents(0), t, FreeEvents(1, q) + Steps(0, 2), u);
    GoesRun(s, SplitEvents(0) + (FreeEvents(1, q) + Steps(0, 2)), u);
  }

  lemma FreeThenTake(s: Sys, q: nat) returns (t: Sys)
    requires |s.pcs| == 2 && s.pcs == [AllocLock4, Idle] && AllLocksFree(s) && Shaped(s.heap)
    requires q in s.claim4 && s.claim4[q] == None && q < |s.heap.state|
    requires SatAdd(s.heap.counter[Head(q)]) != 512
    ensures Goes(s, FreeEvents(1, q) + Steps(0, 2), t)
    ensures t.pcs == [Idle, Idle] && AllLocksFree(t)
    ensures t.heap == TakeFree4(PushFreed(MarkFreed(s.heap, q), q))
  {
    FreePhase(s, 1, q);
    var u := AfterFree(s, 1, q);
    assert u.pcs == s.pcs;
    TakePhase(u, 0);
    t := u.(heap := TakeFree4(u.heap), claim4 := u.claim4[u.heap.free4[0] := None], pcs := u.pcs[0 := Idle]);
    GoesOn(s, FreeEvents(1, q), u, Steps(0, 2), t);
  }

  lemma UncoalescedAway(a: Heap, q: nat)
    requires Shaped(a) && HeadsInRange(a) && a.free2 != [] && q < |a.state|
    requires a.free2[0] % 512 == 0 && !InBlock(a.free2[0], q) && NoDup(a.free2) && a.free2[0] in a.tracked
    ensures var h := a.free2[0];
            var b := Uncoalesced(a, q);
            Shaped(b) && h + 512 <= |b.state| && Head(q) != h
            && AllFree(b.state, h, h + 512) && !Whole(b, h) && h in b.tracked && h !in b.free2
  {
    PopFacts(a.free2);
  }

  lemma UncoalescedHeap(a: Heap, q: nat)
    requires Inv(a, Nothing) && HeadsInRange(a) && a.free2 != [] && q < |a.state| && a.owner[q] == User4
    ensures var h := a.free2[0];
            var b := Uncoalesced(a, q);
            Shaped(b) && h + 512 <= |b.state| && Head(q) != h
            && AllFree(b.state, h, h + 512) && !Whole(b, h) && h in b.tracked && h !in b.free2
  {
    var h := a.free2[0];
    assert h in a.free2;
    BlockOwner(a, h);
    assert BlockOk(a, h) && PageOk(a, h);
    UncoalescedAway(a, q);
  }

  /** Interleaving can leave a superpage broken although all its pages are free and nothing is
      pending: between thread 0's split and its second attempt, thread 1 frees another page, and
      thread 0 takes that one. Sequential calls never do this (RunTheorems.RunCoalesced). */
  lemma CoalescingNeedsSequentialCalls(s: Sys, q: nat)
    requires SysInv(s) && |s.pcs| == 2 && s.pcs == [Idle, Idle] && AllLocksFree(s)
    requires s.heap.free4 == [] && s.heap.free2 != []
    requires q in s.claim4 && s.claim4[q] == None && q < |s.heap.state|
    requires SatAdd(s.heap.counter[Head(q)]) != 512
    ensures var es := SplitEvents(0) + (FreeEvents(1, q) + Steps(0, 2));
            var h := s.heap.free2[0];
            Possible(s, es)
            && var t := Run(s, es);
               t.pcs == [Idle, Idle] && AllLocksFree(t) && Shaped(t.heap) && h + 512 <= |t.heap.state|
               && AllFree(t.heap.state, h, h + 512) && !Whole(t.heap, h)
               && h in t.heap.tracked && h !in t.heap.free2
  {
    HeadsOk(s.heap, Flight(s));
    UncoalescedHeap(s.heap, q);
    ThreePhases(s, q);
  }
}
