/** A page that is on neither free list carries no links: what alloc_4kb, alloc_2mb and try_merge clear stays
    cleared, in every interleaving. Only the head of a superpage that split_2mb has detached still has the
    links it had on its list, until its pages are pushed. */
module InterleavingCleanLinks {
  import opened PageModel
  import opened HeapSteps
  import opened Links
  import opened Interleaving
  import opened InterleavingSafety
  import opened InterleavingRuns
  import opened InterleavingLinks

  ghost predicate Clean(m: seq<PageMetadata>, a: Heap, skip: Option<nat>) {
    forall p: nat :: p < |m| && p !in a.free4 && p !in a.free2 && Some(p) != skip ==> NoLinks(m[p])
  }

  /** The superpage in the hands of split_2mb. */
  function BeingSplit(s: Sys): Option<nat> {
    if s.pa.Some? && s.pa.value < |s.pcs| && s.pcs[s.pa.value].SplitScatter? then Some(s.pcs[s.pa.value].h)
    else None
  }

  // ----- the writes of each step

  /** The successor of a page on a list is on that list. */
  lemma NextListed(m: seq<PageMetadata>, head: Option<nat>, s: seq<nat>, i: nat)
    requires Linked(m, head, s) && i < |s|
    ensures s[i] < |m| && NeighboursInRange(m, s[i])
    ensures m[s[i]].next.Some? ==> m[s[i]].next.value in s && m[s[i]].next.value != s[i]
    ensures m[s[i]].prev.Some? ==> m[s[i]].prev.value in s && m[s[i]].prev.value != s[i]
  {
    assert NodeOk(m, s, i);
    if i + 1 < |s| { assert NodeOk(m, s, i + 1) && s[i + 1] in s; }
    if i > 0 { assert NodeOk(m, s, i - 1) && s[i - 1] in s; }
  }

  lemma CleanTake(t: Store, a: Heap, p: nat)
    requires Stands(t, a) && a.free4 != [] && a.free4[0] == p && Clean(t.pages, a, None)
    requires StoreInBounds(t, AllocTake(p))
    ensures Clean(StoreStep(t, AllocTake(p)).pages, TakeFree4(a), None)
  {
    NextListed(t.pages, t.head4, a.free4, 0);
    PopFacts(a.free4);
  }

  lemma CleanTake2(t: Store, a: Heap, h: nat)
    requires Stands(t, a) && a.free2 != [] && a.free2[0] == h && h + 512 <= |a.state| && Clean(t.pages, a, None)
    requires StoreInBounds(t, Alloc2Take(h))
    ensures Clean(StoreStep(t, Alloc2Take(h)).pages, TakeFree2(a), None)
  {
    NextListed(t.pages, t.head2, a.free2, 0);
    PopFacts(a.free2);
  }

  lemma CleanDetach(t: Store, a: Heap, h: nat)
    requires Stands(t, a) && a.free2 != [] && a.free2[0] == h && h + 512 <= |a.state| && Clean(t.pages, a, None)
    requires StoreInBounds(t, SplitDetach(h))
    ensures Clean(StoreStep(t, SplitDetach(h)).pages, DetachFree2(a), Some(h))
  {
    NextListed(t.pages, t.head2, a.free2, 0);
    PopFacts(a.free2);
  }

  /** split_2mb's loop writes the links of its own pages and of the page that headed the list. */
  lemma {:induction false} ScatterFrame(m: seq<PageMetadata>, head: Option<nat>, h: nat, n: nat, q: nat)
    requires h + 512 <= |m| && n <= 512 && HeadInRange(m, head)
    requires q < |m| && !InBlock(h, q) && head != Some(q)
    ensures var r := ScatterWords(m, head, h, n); r[q].next == m[q].next && r[q].prev == m[q].prev
  {
    if n > 0 { ScatterFrame(m, head, h, n - 1, q); }
  }

  lemma CleanScatter(t: Store, a: Heap, h: nat)
    requires Stands(t, a) && h + 512 <= |a.state| && Clean(t.pages, a, Some(h))
    requires StoreInBounds(t, SplitScatter(h))
    ensures Clean(StoreStep(t, SplitScatter(h)).pages, Scatter(a, h), None)
  {
    var r, b := StoreStep(t, SplitScatter(h)).pages, Scatter(a, h);
    if a.free4 != [] { NextListed(t.pages, t.head4, a.free4, 0); }
    assert forall x :: x in a.free4 ==> x in Descending(h, 512) + a.free4;
    forall q: nat | q < |r| && q !in b.free4 && q !in b.free2 ensures NoLinks(r[q]) {
      assert InBlock(h, q) ==> b.free4[h + 511 - q] == q;
      ScatterFrame(t.pages, t.head4, h, 512, q);
    }
  }

  lemma CleanPush(t: Store, a: Heap, p: nat, merge: bool)
    requires Stands(t, a) && p < |a.state| && Clean(t.pages, a, None) && StoreInBounds(t, FreePush(p, merge))
    ensures Clean(StoreStep(t, FreePush(p, merge)).pages, PushFreed(a, p), None)
  {
    assert forall q :: q in [p] + a.free4 <==> q == p || q in a.free4;
    if a.free4 != [] { NextListed(t.pages, t.head4, a.free4, 0); }
  }

  lemma CleanBlockPush(t: Store, a: Heap, h: nat)
    requires Stands(t, a) && h + 512 <= |a.state| && Clean(t.pages, a, None) && StoreInBounds(t, BlockPush(h))
    ensures Clean(StoreStep(t, BlockPush(h)).pages, PushBlock(a, h), None)
  {
    assert forall q :: q in [h] + a.free2 <==> q == h || q in a.free2;
    if a.free2 != [] { NextListed(t.pages, t.head2, a.free2, 0); }
  }

  /** Unlinking clears the page's own links and writes otherwise only links of pages on the list. */
  lemma UnlinkLocal(m: seq<PageMetadata>, head: Option<nat>, s: seq<nat>, i: nat)
    requires Linked(m, head, s) && i < |s| && s[i] < |m| && NeighboursInRange(m, s[i])
    ensures NoLinks(Unlink(m, s[i])[s[i]])
    ensures forall q: nat :: q < |m| && q !in s ==> Unlink(m, s[i])[q] == m[q]
  {
    NextListed(m, head, s, i);
    assert s[i] in s;
  }

  lemma CleanUnlink(t: Store, a: Heap, h: nat, n: nat)
    requires Stands(t, a) && h + 512 <= |a.state| && n < 512 && h + n in a.free4 && Clean(t.pages, a, None)
    requires StoreInBounds(t, MergeUnlink(h, n))
    ensures Clean(StoreStep(t, MergeUnlink(h, n)).pages, UnlinkPage(a, h + n), None)
  {
    var p := h + n;
    var i :| 0 <= i < |a.free4| && a.free4[i] == p;
    UnlinkLocal(t.pages, t.head4, a.free4, i);
    forall q: nat ensures q in UnlinkPage(a, p).free4 <==> q in a.free4 && q != p { WithoutIn(a.free4, p, p + 1, q); }
  }

  // ----- every step

  /** Thread i can move, holds page_array or finds it free, and the links are clean. */
  ghost predicate Tidy(c: Machine, s: Sys, i: nat) {
    && c.pcs == s.pcs && Stands(c.store, s.heap) && i < |s.pcs| && InBounds(s, i) && Enabled(s, i, Advance)
    && StoreInBounds(c.store, c.pcs[i]) && ThreadOk(s, i) && s.pa in {None, Some(i)}
    && Clean(c.store.pages, s.heap, if s.pcs[i].SplitScatter? then Some(s.pcs[i].h) else None)
  }

  /** The links after its step. */
  ghost predicate StaysTidy(c: Machine, s: Sys, i: nat)
    requires Tidy(c, s, i)
  {
    Clean(StoreStep(c.store, c.pcs[i]).pages, Step(s, i, Advance).heap,
          if s.pcs[i].SplitDetach? then Some(s.pcs[i].h) else None)
  }

  lemma TidyTake(c: Machine, s: Sys, i: nat)
    requires Tidy(c, s, i) && (s.pcs[i].AllocTake? || s.pcs[i].Alloc2Take?)
    ensures StaysTidy(c, s, i)
  {
    match s.pcs[i]
    case AllocTake(p) => CleanTake(c.store, s.heap, p);
    case Alloc2Take(h) => CleanTake2(c.store, s.heap, h);
  }

  lemma TidySplit(c: Machine, s: Sys, i: nat)
    requires Tidy(c, s, i) && (s.pcs[i].SplitDetach? || s.pcs[i].SplitScatter?)
    ensures StaysTidy(c, s, i)
  {
    match s.pcs[i]
    case SplitDetach(h) => CleanDetach(c.store, s.heap, h);
    case SplitScatter(h) => CleanScatter(c.store, s.heap, h);
  }

  lemma TidyPush(c: Machine, s: Sys, i: nat)
    requires Tidy(c, s, i) && (s.pcs[i].FreePush? || s.pcs[i].BlockPush?)
    ensures StaysTidy(c, s, i)
  {
    match s.pcs[i]
    case FreePush(p, merge) => CleanPush(c.store, s.heap, p, merge);
    case BlockPush(h) => CleanBlockPush(c.store, s.heap, h);
  }

  lemma TidyUnlink(c: Machine, s: Sys, i: nat)
    requires Tidy(c, s, i) && s.pcs[i].MergeUnlink? && s.pcs[i].n < 512
    requires s.pcs[i].h + s.pcs[i].n in s.heap.free4
    ensures StaysTidy(c, s, i)
  {
    var h, n := s.pcs[i].h, s.pcs[i].n;
    assert c.pcs[i] == MergeUnlink(h, n) && Step(s, i, Advance).heap == UnlinkPage(s.heap, h + n);
    assert Clean(StoreStep(c.store, c.pcs[i]).pages, UnlinkPage(s.heap, h + n), None) by {
      CleanUnlink(c.store, s.heap, h, n);
    }
  }

  /** These write no link. */
  lemma TidyRest(c: Machine, s: Sys, i: nat)
    requires Tidy(c, s, i) && Agree(c, s, i)
    requires
      || Looking(s.pcs[i]) || s.pcs[i].FreeLock? || s.pcs[i].Free2Lock? || s.pcs[i].MergeLock?
      || (s.pcs[i].MergeUnlink? && s.pcs[i].n == 512)
    ensures StaysTidy(c, s, i)
  {}

  lemma AdvanceClean(c: Machine, s: Sys, i: nat)
    requires Tidy(c, s, i) && Agree(c, s, i) && Inv(s.heap, Flight(s))
    ensures StaysTidy(c, s, i)
  {
    match s.pcs[i]
    case AllocTake(_) => TidyTake(c, s, i);
    case Alloc2Take(_) => TidyTake(c, s, i);
    case SplitDetach(_) => TidySplit(c, s, i);
    case SplitScatter(_) => TidySplit(c, s, i);
    case FreePush(_, _) => TidyPush(c, s, i);
    case BlockPush(_) => TidyPush(c, s, i);
    case MergeUnlink(h, n) =>
      if n < 512 {
        assert h + n in s.heap.free4 by { UnlinkPageKeeps(s.heap, h, n); }
        TidyUnlink(c, s, i);
      } else {
        TidyRest(c, s, i);
      }
    case _ => TidyRest(c, s, i);
  }

  /** Any step of any thread leaves the links of pages on neither list clear. */
  lemma StepClean(c: Machine, s: Sys, i: nat, a: Act)
    requires SysInv(s) && Represents(c, s) && i < |s.pcs| && MachineEnabled(c, i, a)
    requires Clean(c.store.pages, s.heap, BeingSplit(s))
    ensures Enabled(s, i, a) && InBounds(s, i) && StoreInBounds(c.store, c.pcs[i])
    ensures Clean(MachineStep(c, i, a).store.pages, Step(s, i, a).heap, BeingSplit(Step(s, i, a)))
  {
    StepSimulated(c, s, i, a);
    assert ThreadOk(s, i);
    if a.Advance? && s.pa in {None, Some(i)} {
      AdvanceWords(c, s, i);
      SameBranch(c, s, i);
      AdvanceClean(c, s, i);
      SplitAfter(s, i);
    } else {
      Elsewhere(c, s, i, a);
    }
  }

  lemma SplitAfter(s: Sys, i: nat)
    requires i < |s.pcs| && InBounds(s, i) && Enabled(s, i, Advance) && ThreadOk(s, i) && s.pa in {None, Some(i)}
    ensures BeingSplit(Step(s, i, Advance)) == if s.pcs[i].SplitDetach? then Some(s.pcs[i].h) else None
  {}

  /** A step of a thread that does not use page_array writes no word. */
  lemma Elsewhere(c: Machine, s: Sys, i: nat, a: Act)
    requires SameControl(c, s) && i < |s.pcs| && InBounds(s, i) && Enabled(s, i, a) && ThreadOk(s, i)
    requires StoreInBounds(c.store, c.pcs[i]) && MachineEnabled(c, i, a)
    requires !a.Advance? || s.pa !in {None, Some(i)}
    ensures MachineStep(c, i, a).store == c.store && Step(s, i, a).heap == s.heap
    ensures BeingSplit(Step(s, i, a)) == BeingSplit(s)
  {}

  /** After every schedule of any number of threads. */
  lemma {:induction false} RunClean(c: Machine, s: Sys, es: seq<Event>)
    requires SysInv(s) && Represents(c, s) && Clean(c.store.pages, s.heap, BeingSplit(s)) && MachinePossible(c, es)
    ensures Possible(s, es) && Clean(MachineRun(c, es).store.pages, Run(s, es).heap, BeingSplit(Run(s, es)))
    decreases |es|
  {
    if es != [] {
      var i, a := es[0].thread, es[0].act;
      StepSimulated(c, s, i, a);
      StepKeeps(s, i, a);
      StepClean(c, s, i, a);
      RunClean(MachineStep(c, i, a), Step(s, i, a), es[1..]);
    }
  }

  /** So no page in a caller's hands ever carries a link. */
  lemma HandedOutWithoutLinks(t: Store, a: Heap, n: nat, es: seq<Event>, p: nat)
    requires Stands(t, a) && Inv(a, Nothing) && Clean(t.pages, a, None) && MachinePossible(Boot(t, n), es)
    requires forall p :: 0 <= p < |a.state| ==> a.owner[p] != User4 && a.owner[p] != User2
    requires p in MachineRun(Boot(t, n), es).claim4 || p in MachineRun(Boot(t, n), es).claim2
    ensures var m := MachineRun(Boot(t, n), es).store.pages; p < |m| && m[p].next == None && m[p].prev == None
  {
    StartOk(a, n);
    assert Boot(t, n).pcs == Start(a, n).pcs;
    MachineSafe(t, a, n, es);
    RunClean(Boot(t, n), Start(a, n), es);
    ClaimedUnlisted(Run(Start(a, n), es), p);
  }

  lemma ClaimedUnlisted(s: Sys, p: nat)
    requires SysInv(s) && (p in s.claim4 || p in s.claim2)
    ensures p < |s.heap.state| && p !in s.heap.free4 && p !in s.heap.free2 && Some(p) != BeingSplit(s)
  {
    assert Some(p) == BeingSplit(s) ==> Flying(Flight(s), p);
  }
}
