/** Allocator calls of any number of CPUs, interleaved at every lock acquisition. A thread stands
    between two locks; one step takes the next lock it needs and runs to the point where it needs
    another or has released what it holds. Metadata is written only while `page_array` is held. */
module Interleaving {
  import opened PageModel

  datatype Pc =
    | Idle
    | AllocLock4                      // alloc_4kb: about to lock the 4 KiB list
    | AllocTake(p: nat)               // holds that list, whose head is p; needs page_array
    | AllocCheck2                     // found it empty, dropped it; about to look at the 2 MiB list
    | SplitLock2                      // split_2mb: about to lock the 2 MiB list
    | SplitDetach(h: nat)             // holds it, head is h; needs page_array
    | SplitScatter(h: nat)            // holds page_array, superpage h detached; needs the 4 KiB list
    | Alloc2Lock                      // alloc_2mb: about to lock the 2 MiB list
    | Alloc2Take(h: nat)              // holds it, head is h; needs page_array
    | FreeLock(p: nat)                // free_4kb: needs page_array
    | FreePush(p: nat, merge: bool)   // holds page_array, page marked free; needs the 4 KiB list
    | MergeLock(p: nat)               // everything released; try_merge needs page_array
    | MergeUnlink(h: nat, n: nat)     // holds page_array, scan passed, n pages unlinked
    | BlockPush(h: nat)               // holds page_array, superpage h to be pushed; needs the 2 MiB list
    | Free2Lock(h: nat)               // free_2mb: needs page_array

  /** Which thread holds each lock, and who may free what: a claim is None while the page is in a
      caller's hands and Some(i) once thread i has been told to free it. */
  datatype Sys = Sys(
    heap: Heap,
    pa: Option<nat>,
    l4: Option<nat>,
    l2: Option<nat>,
    pcs: seq<Pc>,
    claim4: map<nat, Option<nat>>,
    claim2: map<nat, Option<nat>>
  )

  datatype Act = CallAlloc4 | CallAlloc2 | CallFree4(p: nat) | CallFree2(h: nat) | Advance

  predicate HoldsPA(pc: Pc) { pc.SplitScatter? || pc.FreePush? || pc.MergeUnlink? || pc.BlockPush? }
  predicate Holds4(pc: Pc) { pc.AllocTake? }
  predicate Holds2(pc: Pc) { pc.SplitDetach? || pc.Alloc2Take? }

  function FlightOf(pc: Pc): InFlight {
    match pc
    case SplitScatter(h) => WholeBlock(h)
    case FreePush(p, _) => OnePage(p)
    case MergeUnlink(h, n) => Prefix(h, n)
    case BlockPush(h) => WholeBlock(h)
    case _ => Nothing
  }

  function Flight(s: Sys): InFlight {
    if s.pa.Some? && s.pa.value < |s.pcs| then FlightOf(s.pcs[s.pa.value]) else Nothing
  }

  // ----- the invariant

  /** What thread i holds, has read and has been told to free. */
  predicate ThreadOk(s: Sys, i: nat)
    requires i < |s.pcs|
  {
    var pc := s.pcs[i];
    && (s.pa == Some(i) <==> HoldsPA(pc))
    && (s.l4 == Some(i) <==> Holds4(pc))
    && (s.l2 == Some(i) <==> Holds2(pc))
    && (pc.AllocTake? ==> s.heap.free4 != [] && s.heap.free4[0] == pc.p)
    && (pc.SplitDetach? ==> s.heap.free2 != [] && s.heap.free2[0] == pc.h)
    && (pc.Alloc2Take? ==> s.heap.free2 != [] && s.heap.free2[0] == pc.h)
    && (pc.FreeLock? ==> pc.p in s.claim4 && s.claim4[pc.p] == Some(i))
    && (pc.Free2Lock? ==> pc.h in s.claim2 && s.claim2[pc.h] == Some(i))
    && (pc.MergeLock? ==> pc.p < |s.heap.state|)
  }

  ghost predicate LocksOk(s: Sys) {
    && (s.pa.Some? ==> s.pa.value < |s.pcs|)
    && (s.l4.Some? ==> s.l4.value < |s.pcs|)
    && (s.l2.Some? ==> s.l2.value < |s.pcs|)
  }

  /** Claims are exactly the allocated pages, and a claim handed to a thread is the one it frees. */
  ghost predicate ClaimsOk(s: Sys)
    requires Shaped(s.heap)
  {
    && (forall p :: p in s.claim4 ==> p < |s.heap.state| && s.heap.owner[p] == User4)
    && (forall p :: 0 <= p < |s.heap.state| && s.heap.owner[p] == User4 ==> p in s.claim4)
    && (forall h :: h in s.claim2 ==> h < |s.heap.state| && h % 512 == 0 && s.heap.owner[h] == User2)
    && (forall h :: 0 <= h < |s.heap.state| && h % 512 == 0 && s.heap.owner[h] == User2 ==> h in s.claim2)
  }

  ghost predicate PendingOk(s: Sys) {
    && (forall p :: p in s.claim4 && s.claim4[p].Some? ==>
          s.claim4[p].value < |s.pcs| && s.pcs[s.claim4[p].value] == FreeLock(p))
    && (forall h :: h in s.claim2 && s.claim2[h].Some? ==>
          s.claim2[h].value < |s.pcs| && s.pcs[s.claim2[h].value] == Free2Lock(h))
  }

  /** The bookkeeping of locks, program counters and pending frees. */
  ghost predicate ThreadsOk(s: Sys) {
    && LocksOk(s)
    && (forall i :: 0 <= i < |s.pcs| ==> ThreadOk(s, i))
    && PendingOk(s)
  }

  ghost predicate SysInv(s: Sys) {
    && ThreadsOk(s)
    && Inv(s.heap, Flight(s))
    && ClaimsOk(s)
  }

  // ----- the steps

  /** The lock the next step must find free. */
  predicate Enabled(s: Sys, i: nat, a: Act)
    requires i < |s.pcs|
  {
    match a
    case CallAlloc4 => s.pcs[i].Idle?
    case CallAlloc2 => s.pcs[i].Idle?
    case CallFree4(p) => s.pcs[i].Idle? && p in s.claim4 && s.claim4[p] == None
    case CallFree2(h) => s.pcs[i].Idle? && h in s.claim2 && s.claim2[h] == None
    case Advance =>
      match s.pcs[i]
      case Idle => false
      case AllocLock4 => s.l4.None?
      case AllocTake(p) => s.pa.None?
      case AllocCheck2 => s.l2.None?
      case SplitLock2 => s.l2.None?
      case SplitDetach(h) => s.pa.None?
      case SplitScatter(h) => s.l4.None?
      case Alloc2Lock => s.l2.None?
      case Alloc2Take(h) => s.pa.None?
      case FreeLock(p) => s.pa.None?
      case FreePush(p, _) => s.l4.None?
      case MergeLock(p) => s.pa.None?
      case MergeUnlink(h, n) =>
        // the list head is locked only to unlink the page it names
        n < 512 && s.heap.free4 != [] && s.heap.free4[0] == h + n ==> s.l4.None?
      case BlockPush(h) => s.l2.None?
      case Free2Lock(h) => s.pa.None?
  }

  /** The indices thread i will use are in range; StepInBounds shows that they always are. */
  predicate InBounds(s: Sys, i: nat)
    requires i < |s.pcs|
  {
    var a := s.heap;
    && Shaped(a)
    && match s.pcs[i]
       case AllocTake(p) => a.free4 != [] && a.free4[0] < |a.state|
       case SplitDetach(h) => a.free2 != [] && a.free2[0] + 512 <= |a.state|
       case SplitScatter(h) => h + 512 <= |a.state|
       case Alloc2Take(h) => a.free2 != [] && a.free2[0] + 512 <= |a.state|
       case FreeLock(p) => p < |a.state|
       case FreePush(p, _) => p < |a.state|
       case MergeLock(p) => p < |a.state|
       case MergeUnlink(h, n) => n <= 512 && h + 512 <= |a.state|
       case BlockPush(h) => h + 512 <= |a.state|
       case Free2Lock(h) => h + 512 <= |a.state|
       case _ => true
  }

  function Goto(s: Sys, i: nat, pc: Pc): Sys
    requires i < |s.pcs|
  {
    s.(pcs := s.pcs[i := pc])
  }

  function Step(s: Sys, i: nat, a: Act): Sys
    requires i < |s.pcs| && InBounds(s, i) && Enabled(s, i, a)
  {
    match a
    case CallAlloc4 => Goto(s, i, AllocLock4)
    case CallAlloc2 => Goto(s, i, Alloc2Lock)
    case CallFree4(p) => Goto(s.(claim4 := s.claim4[p := Some(i)]), i, FreeLock(p))
    case CallFree2(h) => Goto(s.(claim2 := s.claim2[h := Some(i)]), i, Free2Lock(h))
    case Advance =>
      match s.pcs[i]
      case Idle => s
      case AllocLock4 =>
        if s.heap.free4 == [] then Goto(s, i, AllocCheck2)
        else Goto(s.(l4 := Some(i)), i, AllocTake(s.heap.free4[0]))
      case AllocTake(p) =>
        Goto(s.(heap := TakeFree4(s.heap), l4 := None, claim4 := s.claim4[s.heap.free4[0] := None]), i, Idle)
      case AllocCheck2 => Goto(s, i, if s.heap.free2 == [] then Idle else SplitLock2)
      case SplitLock2 =>
        if s.heap.free2 == [] then Goto(s, i, Idle)
        else Goto(s.(l2 := Some(i)), i, SplitDetach(s.heap.free2[0]))
      case SplitDetach(h) =>
        Goto(s.(heap := DetachFree2(s.heap), pa := Some(i), l2 := None), i, SplitScatter(s.heap.free2[0]))
      case SplitScatter(h) => Goto(s.(heap := Scatter(s.heap, h), pa := None), i, AllocLock4)
      case Alloc2Lock =>
        if s.heap.free2 == [] then Goto(s, i, Idle)
        else Goto(s.(l2 := Some(i)), i, Alloc2Take(s.heap.free2[0]))
      case Alloc2Take(h) =>
        Goto(s.(heap := TakeFree2(s.heap), l2 := None, claim2 := s.claim2[s.heap.free2[0] := None]), i, Idle)
      case FreeLock(p) =>
        var b := MarkFreed(s.heap, p);
        Goto(s.(heap := b, pa := Some(i), claim4 := s.claim4 - {p}), i, FreePush(p, b.counter[Head(p)] == 512))
      case FreePush(p, merge) =>
        Goto(s.(heap := PushFreed(s.heap, p), pa := None), i, if merge then MergeLock(p) else Idle)
      case MergeLock(p) =>
        if AllFree(s.heap.state, Head(p), Head(p) + 512) then Goto(s.(pa := Some(i)), i, MergeUnlink(Head(p), 0))
        else Goto(s, i, Idle)
      case MergeUnlink(h, n) =>
        if n < 512 then Goto(s.(heap := UnlinkPage(s.heap, h + n)), i, MergeUnlink(h, n + 1))
        else Goto(s.(heap := MarkMerged(s.heap, h)), i, BlockPush(h))
      case BlockPush(h) => Goto(s.(heap := PushBlock(s.heap, h), pa := None), i, Idle)
      case Free2Lock(h) =>
        Goto(s.(heap := MarkFreed2(s.heap, h), pa := Some(i), claim2 := s.claim2 - {h}), i, BlockPush(h))
  }
}
