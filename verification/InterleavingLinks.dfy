/** The interleaved machine on the words the code writes: the metadata array with its next and prev
    links and the two list heads, and no sequence of free pages anywhere. Each step performs the writes
    of the source, follows the links it finds there, and stands for one step of the abstract machine. */
module InterleavingLinks {
  import opened PageModel
  import opened Links
  import opened Refinement
  import opened Interleaving
  import opened InterleavingSafety
  import opened InterleavingRuns

  /** What the locks protect. */
  datatype Store = Store(pages: seq<PageMetadata>, head4: Option<nat>, head2: Option<nat>)

  datatype Machine = Machine(
    store: Store,
    pa: Option<nat>,
    l4: Option<nat>,
    l2: Option<nat>,
    pcs: seq<Pc>,
    claim4: map<nat, Option<nat>>,
    claim2: map<nat, Option<nat>>
  )

  // ----- the writes

  predicate HeadInRange(m: seq<PageMetadata>, head: Option<nat>) { head.Some? ==> head.value < |m| }

  /** Every index the step at `pc` uses, links included, lies in the array. */
  predicate StoreInBounds(t: Store, pc: Pc) {
    var m := t.pages;
    match pc
    case AllocTake(p) => p < |m| && NeighboursInRange(m, p)
    case SplitDetach(h) => h < |m| && NeighboursInRange(m, h)
    case SplitScatter(h) => h + 512 <= |m| && HeadInRange(m, t.head4)
    case Alloc2Take(h) => h < |m| && NeighboursInRange(m, h)
    case FreePush(p, _) => p < |m| && HeadInRange(m, t.head4)
    case MergeLock(p) => Head(p) + 512 <= |m|
    case MergeUnlink(h, n) => n <= 512 && h + 512 <= |m| && (n < 512 ==> NeighboursInRange(m, h + n))
    case BlockPush(h) => h < |m| && HeadInRange(m, t.head2)
    case Free2Lock(h) => Head(h) < |m|
    case _ => true
  }

  predicate BlockIsFree(m: seq<PageMetadata>, h: nat)
    requires h + 512 <= |m|
  {
    forall q :: h <= q < h + 512 ==> m[q].state == Free4KB
  }

  function ScatterHead(head: Option<nat>, h: nat, n: nat): Option<nat> {
    if n == 0 then head else Some(h + n - 1)
  }

  /** split_2mb's loop after n iterations, the list head being `head` before it. */
  function ScatterWords(m: seq<PageMetadata>, head: Option<nat>, h: nat, n: nat): (r: seq<PageMetadata>)
    requires h + 512 <= |m| && n <= 512 && HeadInRange(m, head)
    ensures |r| == |m|
  {
    if n == 0 then SetCounter(m, h, 512)
    else
      var r := SetState(ScatterWords(m, head, h, n - 1), h + n - 1, Free4KB);
      PushFront(r, ScatterHead(head, h, n - 1), h + n - 1)
  }

  /** free_4kb's writes before it needs the list; a page out of range or already free is left alone. */
  function FreeMark(m: seq<PageMetadata>, p: nat): (r: seq<PageMetadata>)
    requires p < |m|
  {
    SetCounter(SetState(m, p, Free4KB), Head(p), SatAdd(m[Head(p)].counter))
  }

  predicate FreeRefused(m: seq<PageMetadata>, p: nat) { p >= |m| || m[p].state == Free4KB }

  function StoreStep(t: Store, pc: Pc): Store
    requires StoreInBounds(t, pc)
  {
    var m := t.pages;
    match pc
    case AllocTake(p) =>
      var r := Grant(m, p);
      t.(pages := SetCounter(r, Head(p), SatSub(r[Head(p)].counter)), head4 := m[p].next)
    case SplitDetach(h) => t.(pages := PopFront(m, h), head2 := m[h].next)
    case SplitScatter(h) => t.(pages := ScatterWords(m, t.head4, h, 512), head4 := ScatterHead(t.head4, h, 512))
    case Alloc2Take(h) => t.(pages := Grant(m, h), head2 := m[h].next)
    case FreeLock(p) => if FreeRefused(m, p) then t else t.(pages := FreeMark(m, p))
    case FreePush(p, _) => t.(pages := PushFront(m, t.head4, p), head4 := Some(p))
    case MergeUnlink(h, n) =>
      if n < 512 then
        t.(pages := Unlink(m, h + n), head4 := if m[h + n].prev.Some? then t.head4 else m[h + n].next)
      else t.(pages := Word2MB(m, h))
    case BlockPush(h) => t.(pages := PushFront(m, t.head2, h), head2 := Some(h))
    case Free2Lock(h) => if m[Head(h)].state == Free2MB then t else t.(pages := Word2MB(m, Head(h)))
    case _ => t
  }

  // ----- the machine

  predicate MachineEnabled(c: Machine, i: nat, a: Act)
    requires i < |c.pcs|
  {
    match a
    case CallAlloc4 => c.pcs[i].Idle?
    case CallAlloc2 => c.pcs[i].Idle?
    case CallFree4(p) => c.pcs[i].Idle? && p in c.claim4 && c.claim4[p] == None
    case CallFree2(h) => c.pcs[i].Idle? && h in c.claim2 && c.claim2[h] == None
    case Advance =>
      match c.pcs[i]
      case Idle => false
      case AllocLock4 => c.l4.None?
      case AllocCheck2 => c.l2.None?
      case SplitLock2 => c.l2.None?
      case Alloc2Lock => c.l2.None?
      case SplitScatter(_) => c.l4.None?
      case FreePush(_, _) => c.l4.None?
      case BlockPush(_) => c.l2.None?
      case MergeUnlink(h, n) =>
        // a page without a prev link is the head of its list
        n < 512 && h + n < |c.store.pages| && c.store.pages[h + n].prev.None? ==> c.l4.None?
      case _ => c.pa.None?
  }

  function Jump(c: Machine, i: nat, pc: Pc): Machine
    requires i < |c.pcs|
  {
    c.(pcs := c.pcs[i := pc])
  }

  function MachineStep(c: Machine, i: nat, a: Act): Machine
    requires i < |c.pcs| && StoreInBounds(c.store, c.pcs[i]) && MachineEnabled(c, i, a)
  {
    var t := c.store;
    match a
    case CallAlloc4 => Jump(c, i, AllocLock4)
    case CallAlloc2 => Jump(c, i, Alloc2Lock)
    case CallFree4(p) => Jump(c.(claim4 := c.claim4[p := Some(i)]), i, FreeLock(p))
    case CallFree2(h) => Jump(c.(claim2 := c.claim2[h := Some(i)]), i, Free2Lock(h))
    case Advance =>
      var u := StoreStep(t, c.pcs[i]);
      match c.pcs[i]
      case Idle => c
      case AllocLock4 =>
        if t.head4.None? then Jump(c, i, AllocCheck2) else Jump(c.(l4 := Some(i)), i, AllocTake(t.head4.value))
      case AllocTake(p) => Jump(c.(store := u, l4 := None, claim4 := c.claim4[p := None]), i, Idle)
      case AllocCheck2 => Jump(c, i, if t.head2.None? then Idle else SplitLock2)
      case SplitLock2 =>
        if t.head2.None? then Jump(c, i, Idle) else Jump(c.(l2 := Some(i)), i, SplitDetach(t.head2.value))
      case SplitDetach(h) => Jump(c.(store := u, pa := Some(i), l2 := None), i, SplitScatter(h))
      case SplitScatter(h) => Jump(c.(store := u, pa := None), i, AllocLock4)
      case Alloc2Lock =>
        if t.head2.None? then Jump(c, i, Idle) else Jump(c.(l2 := Some(i)), i, Alloc2Take(t.head2.value))
      case Alloc2Take(h) => Jump(c.(store := u, l2 := None, claim2 := c.claim2[h := None]), i, Idle)
      case FreeLock(p) =>
        if FreeRefused(t.pages, p) then Jump(c, i, Idle)
        else Jump(c.(store := u, pa := Some(i), claim4 := c.claim4 - {p}), i,
                  FreePush(p, u.pages[Head(p)].counter == 512))
      case FreePush(p, merge) => Jump(c.(store := u, pa := None), i, if merge then MergeLock(p) else Idle)
      case MergeLock(p) =>
        if BlockIsFree(t.pages, Head(p)) then Jump(c.(pa := Some(i)), i, MergeUnlink(Head(p), 0))
        else Jump(c, i, Idle)
      case MergeUnlink(h, n) => Jump(c.(store := u), i, if n < 512 then MergeUnlink(h, n + 1) else BlockPush(h))
      case BlockPush(h) => Jump(c.(store := u, pa := None), i, Idle)
      case Free2Lock(h) =>
        if t.pages[Head(h)].state == Free2MB then Jump(c, i, Idle)
        else Jump(c.(store := u, pa := Some(i), claim2 := c.claim2 - {h}), i, BlockPush(Head(h)))
  }

  // ----- what a store stands for

  ghost predicate Stands(t: Store, a: Heap) { Refines(t.pages, t.head4, t.head2, a) }

  /** The machine's words stand for the abstract heap; locks, threads and claims are the same. */
  ghost predicate Represents(c: Machine, s: Sys) {
    Stands(c.store, s.heap) && SameControl(c, s)
  }

  predicate SameControl(c: Machine, s: Sys) {
    && c.pa == s.pa && c.l4 == s.l4 && c.l2 == s.l2
    && c.pcs == s.pcs && c.claim4 == s.claim4 && c.claim2 == s.claim2
  }

  predicate IsHead(head: Option<nat>, s: seq<nat>) { head == if s == [] then None else Some(s[0]) }

  /** What thread i tests next in the words agrees with what the abstract machine tests. */
  predicate Agree(c: Machine, s: Sys, i: nat)
    requires i < |s.pcs| && c.pcs == s.pcs && InBounds(s, i) && StoreInBounds(c.store, c.pcs[i])
  {
    match s.pcs[i]
    case AllocLock4 => IsHead(c.store.head4, s.heap.free4)
    case AllocCheck2 => IsHead(c.store.head2, s.heap.free2)
    case SplitLock2 => IsHead(c.store.head2, s.heap.free2)
    case Alloc2Lock => IsHead(c.store.head2, s.heap.free2)
    case AllocTake(p) => s.heap.free4[0] == p
    case SplitDetach(h) => s.heap.free2[0] == h
    case Alloc2Take(h) => s.heap.free2[0] == h
    case FreeLock(p) =>
      !FreeRefused(c.store.pages, p)
      && FreeMark(c.store.pages, p)[Head(p)].counter == MarkFreed(s.heap, p).counter[Head(p)]
    case MergeLock(p) =>
      BlockIsFree(c.store.pages, Head(p)) <==> AllFree(s.heap.state, Head(p), Head(p) + 512)
    case Free2Lock(h) => Head(h) == h && c.store.pages[h].state != Free2MB
    case _ => true
  }

  /** Then both machines take the same branch, and end up with the same locks, threads and claims. */
  lemma SameBranch(c: Machine, s: Sys, i: nat)
    requires SameControl(c, s) && i < |s.pcs| && InBounds(s, i) && Enabled(s, i, Advance)
    requires StoreInBounds(c.store, c.pcs[i]) && MachineEnabled(c, i, Advance) && Agree(c, s, i)
    ensures SameControl(MachineStep(c, i, Advance), Step(s, i, Advance))
    ensures MachineStep(c, i, Advance).store == StoreStep(c.store, c.pcs[i])
  {
    if Looking(s.pcs[i]) || s.pcs[i].MergeLock? {
      BranchLook(c, s, i);
    } else if s.pcs[i].MergeUnlink? || s.pcs[i].FreeLock? || s.pcs[i].Free2Lock? {
      BranchFree(c, s, i);
    } else {
      BranchRest(c, s, i);
    }
  }

  lemma BranchLook(c: Machine, s: Sys, i: nat)
    requires SameControl(c, s) && i < |s.pcs| && InBounds(s, i) && Enabled(s, i, Advance)
    requires StoreInBounds(c.store, c.pcs[i]) && MachineEnabled(c, i, Advance) && Agree(c, s, i)
    requires Looking(s.pcs[i]) || s.pcs[i].MergeLock?
    ensures SameControl(MachineStep(c, i, Advance), Step(s, i, Advance))
    ensures MachineStep(c, i, Advance).store == c.store == StoreStep(c.store, c.pcs[i])
  {}

  lemma BranchFree(c: Machine, s: Sys, i: nat)
    requires SameControl(c, s) && i < |s.pcs| && InBounds(s, i) && Enabled(s, i, Advance)
    requires StoreInBounds(c.store, c.pcs[i]) && MachineEnabled(c, i, Advance) && Agree(c, s, i)
    requires s.pcs[i].MergeUnlink? || s.pcs[i].FreeLock? || s.pcs[i].Free2Lock?
    ensures SameControl(MachineStep(c, i, Advance), Step(s, i, Advance))
    ensures MachineStep(c, i, Advance).store == StoreStep(c.store, c.pcs[i])
  {}

  lemma BranchRest(c: Machine, s: Sys, i: nat)
    requires SameControl(c, s) && i < |s.pcs| && InBounds(s, i) && Enabled(s, i, Advance)
    requires StoreInBounds(c.store, c.pcs[i]) && MachineEnabled(c, i, Advance) && Agree(c, s, i)
    requires !Looking(s.pcs[i]) && !s.pcs[i].MergeLock?
    requires !s.pcs[i].MergeUnlink? && !s.pcs[i].FreeLock? && !s.pcs[i].Free2Lock?
    ensures SameControl(MachineStep(c, i, Advance), Step(s, i, Advance))
    ensures MachineStep(c, i, Advance).store == StoreStep(c.store, c.pcs[i])
  {}

  lemma TakeStands(t: Store, a: Heap, p: nat)
    requires Stands(t, a) && Inv(a, Nothing) && a.free4 != [] && a.free4[0] == p
    ensures StoreInBounds(t, AllocTake(p)) && p < |a.state| && Stands(StoreStep(t, AllocTake(p)), TakeFree4(a))
  {
    Take4Refines(t.pages, t.head4, t.head2, a);
  }

  lemma DetachStands(t: Store, a: Heap, h: nat)
    requires Stands(t, a) && Inv(a, Nothing) && a.free2 != [] && a.free2[0] == h
    ensures StoreInBounds(t, SplitDetach(h)) && StoreInBounds(t, Alloc2Take(h)) && h + 512 <= |a.state|
    ensures Stands(StoreStep(t, SplitDetach(h)), DetachFree2(a))
    ensures Stands(StoreStep(t, Alloc2Take(h)), TakeFree2(a))
  {
    Take2Refines(t.pages, t.head4, t.head2, a);
  }

  lemma {:induction false} ScatterWordsRefine(m: seq<PageMetadata>, h4: Option<nat>, h2: Option<nat>,
                                              a: Heap, h: nat, n: nat)
    requires Refines(m, h4, h2, a) && Inv(a, WholeBlock(h)) && n <= 512 && HeadInRange(m, h4)
    ensures h + 512 <= |m| && Refines(ScatterWords(m, h4, h, n), ScatterHead(h4, h, n), h2, ScatterUpTo(a, h, n))
  {
    if n == 0 {
      ScatterBeginRefines(m, h4, h2, a, h);
    } else {
      ScatterWordsRefine(m, h4, h2, a, h, n - 1);
      ScatterStepRefines(ScatterWords(m, h4, h, n - 1), ScatterHead(h4, h, n - 1), h2, a, h, n - 1);
    }
  }

  lemma ScatterStands(t: Store, a: Heap, h: nat)
    requires Stands(t, a) && Inv(a, WholeBlock(h))
    ensures StoreInBounds(t, SplitScatter(h)) && h + 512 <= |a.state|
    ensures Stands(StoreStep(t, SplitScatter(h)), Scatter(a, h))
  {
    HeadWord(t.pages, t.head4, a.free4);
    ScatterBeginRefines(t.pages, t.head4, t.head2, a, h);
    ScatterWordsRefine(t.pages, t.head4, t.head2, a, h, 512);
  }

  lemma FreeStands(t: Store, a: Heap, p: nat)
    requires Stands(t, a) && p < |a.state| && a.state[p] == Allocated
    ensures !FreeRefused(t.pages, p)
    ensures Stands(StoreStep(t, FreeLock(p)), MarkFreed(a, p))
  {
    MarkFreedRefines(t.pages, t.head4, t.head2, a, p);
  }

  lemma PushStands(t: Store, a: Heap, p: nat, merge: bool)
    requires Stands(t, a) && Inv(a, OnePage(p))
    ensures StoreInBounds(t, FreePush(p, merge)) && p < |a.state|
    ensures Stands(StoreStep(t, FreePush(p, merge)), PushFreed(a, p))
  {
    ListsDisjoint(a, OnePage(p));
    assert Flying(OnePage(p), p);
    Push4Refines(t.pages, t.head4, t.head2, a, PushFreed(a, p), p);
  }

  lemma UnlinkStands(t: Store, a: Heap, h: nat, n: nat)
    requires Stands(t, a) && Inv(a, Prefix(h, n)) && n < 512
    ensures StoreInBounds(t, MergeUnlink(h, n)) && h + n < |a.state|
    ensures t.pages[h + n].prev.None? <==> a.free4 != [] && a.free4[0] == h + n
    ensures Stands(StoreStep(t, MergeUnlink(h, n)), UnlinkPage(a, h + n))
  {
    assert forall q :: q in a.free4 ==> q !in a.free2 by { ListsDisjoint(a, Prefix(h, n)); }
    assert h + n in a.free4 by { assert a.owner[h + n] == List4; }
    UnlinkWords(t, a, h, n);
  }

  lemma UnlinkWords(t: Store, a: Heap, h: nat, n: nat)
    requires Stands(t, a) && h + 512 <= |a.state| && n < 512 && h + n in a.free4
    requires forall q :: q in a.free4 ==> q !in a.free2
    ensures StoreInBounds(t, MergeUnlink(h, n))
    ensures t.pages[h + n].prev.None? <==> a.free4 != [] && a.free4[0] == h + n
    ensures Stands(StoreStep(t, MergeUnlink(h, n)), UnlinkPage(a, h + n))
  {
    UnlinkRefines(t.pages, t.head4, t.head2, a, h + n);
  }

  lemma MergedStands(t: Store, a: Heap, h: nat)
    requires Stands(t, a) && Inv(a, Prefix(h, 512))
    ensures StoreInBounds(t, MergeUnlink(h, 512)) && h < |a.state|
    ensures Stands(StoreStep(t, MergeUnlink(h, 512)), MarkMerged(a, h))
  {
    MarkMergedRefines(t.pages, t.head4, t.head2, a, h);
  }

  lemma BlockPushStands(t: Store, a: Heap, h: nat)
    requires Stands(t, a) && Inv(a, WholeBlock(h))
    ensures StoreInBounds(t, BlockPush(h)) && h + 512 <= |a.state|
    ensures Stands(StoreStep(t, BlockPush(h)), PushBlock(a, h))
  {
    ListsDisjoint(a, WholeBlock(h));
    assert Flying(WholeBlock(h), h);
    Push2Refines(t.pages, t.head4, t.head2, a, PushBlock(a, h), h);
  }

  lemma Free2Stands(t: Store, a: Heap, h: nat)
    requires Stands(t, a) && h % 512 == 0 && h + 512 <= |a.state| && a.state[h] == Allocated
    ensures StoreInBounds(t, Free2Lock(h)) && Head(h) == h && t.pages[h].state != Free2MB
    ensures Stands(StoreStep(t, Free2Lock(h)), MarkFreed2(a, h))
  {
    HeadUnique(h, h);
    MarkFreed2Refines(t.pages, t.head4, t.head2, a, h);
  }

  // ----- each step of the machine is a step of the abstract one

  /** Thread i can move, and the words stand for what the abstract machine sees. */
  ghost predicate Acting(c: Machine, s: Sys, i: nat) {
    && Represents(c, s) && i < |s.pcs| && InBounds(s, i) && Enabled(s, i, Advance)
    && Inv(s.heap, Flight(s)) && ThreadOk(s, i)
  }

  /** The step's indices are in range, it takes the abstract step's branch and stands for its effect. */
  ghost predicate WordsOk(c: Machine, s: Sys, i: nat)
    requires i < |s.pcs| && c.pcs == s.pcs && InBounds(s, i) && Enabled(s, i, Advance)
  {
    && StoreInBounds(c.store, c.pcs[i]) && Agree(c, s, i)
    && Stands(StoreStep(c.store, c.pcs[i]), Step(s, i, Advance).heap)
  }

  lemma WordsTake(c: Machine, s: Sys, i: nat)
    requires Acting(c, s, i) && s.pcs[i].AllocTake?
    ensures WordsOk(c, s, i)
  {
    TakeStands(c.store, s.heap, s.pcs[i].p);
  }

  lemma WordsDetach(c: Machine, s: Sys, i: nat)
    requires Acting(c, s, i) && (s.pcs[i].SplitDetach? || s.pcs[i].Alloc2Take?)
    ensures WordsOk(c, s, i)
  {
    DetachStands(c.store, s.heap, s.pcs[i].h);
  }

  lemma WordsScatter(c: Machine, s: Sys, i: nat)
    requires Acting(c, s, i) && s.pcs[i].SplitScatter?
    ensures WordsOk(c, s, i)
  {
    ScatterStands(c.store, s.heap, s.pcs[i].h);
  }

  lemma WordsPush(c: Machine, s: Sys, i: nat)
    requires Acting(c, s, i) && s.pcs[i].FreePush?
    ensures WordsOk(c, s, i)
  {
    PushStands(c.store, s.heap, s.pcs[i].p, s.pcs[i].merge);
  }

  lemma WordsBlockPush(c: Machine, s: Sys, i: nat)
    requires Acting(c, s, i) && s.pcs[i].BlockPush?
    ensures WordsOk(c, s, i)
  {
    BlockPushStands(c.store, s.heap, s.pcs[i].h);
  }

  lemma WordsFree(c: Machine, s: Sys, i: nat)
    requires Acting(c, s, i) && ClaimsOk(s) && s.pcs[i].FreeLock?
    ensures WordsOk(c, s, i)
  {
    assert PageOk(s.heap, s.pcs[i].p);
    FreeStands(c.store, s.heap, s.pcs[i].p);
  }

  lemma WordsFree2(c: Machine, s: Sys, i: nat)
    requires Acting(c, s, i) && ClaimsOk(s) && s.pcs[i].Free2Lock?
    ensures WordsOk(c, s, i)
  {
    assert PageOk(s.heap, s.pcs[i].h);
    Free2Stands(c.store, s.heap, s.pcs[i].h);
  }

  lemma WordsUnlink(c: Machine, s: Sys, i: nat)
    requires Acting(c, s, i) && s.pcs[i].MergeUnlink? && s.pcs[i].n < 512
    ensures WordsOk(c, s, i)
  {
    UnlinkStands(c.store, s.heap, s.pcs[i].h, s.pcs[i].n);
  }

  lemma WordsMerged(c: Machine, s: Sys, i: nat)
    requires Acting(c, s, i) && s.pcs[i].MergeUnlink? && s.pcs[i].n == 512
    ensures WordsOk(c, s, i)
  {
    MergedStands(c.store, s.heap, s.pcs[i].h);
  }

  lemma WordsLook(c: Machine, s: Sys, i: nat)
    requires Acting(c, s, i) && Looking(s.pcs[i])
    ensures WordsOk(c, s, i)
  {
    assert IsHead(c.store.head4, s.heap.free4) by { HeadWord(c.store.pages, c.store.head4, s.heap.free4); }
    assert IsHead(c.store.head2, s.heap.free2) by { HeadWord(c.store.pages, c.store.head2, s.heap.free2); }
  }

  lemma WordsScan(c: Machine, s: Sys, i: nat)
    requires Acting(c, s, i) && s.pcs[i].MergeLock?
    ensures WordsOk(c, s, i)
  {}

  lemma AdvanceWords(c: Machine, s: Sys, i: nat)
    requires Acting(c, s, i) && ClaimsOk(s)
    ensures WordsOk(c, s, i)
  {
    match s.pcs[i]
    case AllocTake(_) => WordsTake(c, s, i);
    case SplitDetach(_) => WordsDetach(c, s, i);
    case Alloc2Take(_) => WordsDetach(c, s, i);
    case SplitScatter(_) => WordsScatter(c, s, i);
    case FreePush(_, _) => WordsPush(c, s, i);
    case BlockPush(_) => WordsBlockPush(c, s, i);
    case FreeLock(_) => WordsFree(c, s, i);
    case Free2Lock(_) => WordsFree2(c, s, i);
    case MergeUnlink(_, n) => if n < 512 { WordsUnlink(c, s, i); } else { WordsMerged(c, s, i); }
    case MergeLock(_) => WordsScan(c, s, i);
    case _ => WordsLook(c, s, i);
  }

  /** A thread can move in the machine exactly if it can in the abstract machine: the one lock that
      depends on the links, that of the list head in try_merge, is asked for at the same pages. */
  lemma SameEnabled(c: Machine, s: Sys, i: nat, a: Act)
    requires SysInv(s) && Represents(c, s) && i < |s.pcs|
    ensures MachineEnabled(c, i, a) <==> Enabled(s, i, a)
  {
    assert ThreadOk(s, i);
    if a.Advance? && s.pcs[i].MergeUnlink? && s.pcs[i].n < 512 {
      assert Inv(s.heap, Prefix(s.pcs[i].h, s.pcs[i].n));
      HeadByLink(c.store, s.heap, s.pcs[i].h + s.pcs[i].n, s.pcs[i].h, s.pcs[i].n);
    }
  }

  /** The next page to unlink has no prev link exactly if it heads the 4 KiB list. */
  lemma HeadByLink(t: Store, a: Heap, p: nat, h: nat, n: nat)
    requires Stands(t, a) && Inv(a, Prefix(h, n)) && n < 512 && p == h + n
    ensures p < |t.pages| && (t.pages[p].prev.None? <==> a.free4 != [] && a.free4[0] == p)
  {
    UnlinkStands(t, a, h, n);
  }

  /** Any step of any thread: the indices and links it uses are in range and the words it writes stand
      for the abstract step. */
  lemma StepSimulated(c: Machine, s: Sys, i: nat, a: Act)
    requires SysInv(s) && Represents(c, s) && i < |s.pcs| && MachineEnabled(c, i, a)
    ensures Enabled(s, i, a) && InBounds(s, i) && StoreInBounds(c.store, c.pcs[i])
    ensures Represents(MachineStep(c, i, a), Step(s, i, a))
  {
    SameEnabled(c, s, i, a);
    StepInBounds(s, i);
    assert ThreadOk(s, i);
    if a.Advance? {
      AdvanceWords(c, s, i);
      SameBranch(c, s, i);
    }
  }

  // ----- whole runs

  predicate MachinePossible(c: Machine, es: seq<Event>)
    decreases |es|
  {
    es == [] ||
    (es[0].thread < |c.pcs| && StoreInBounds(c.store, c.pcs[es[0].thread])
     && MachineEnabled(c, es[0].thread, es[0].act)
     && MachinePossible(MachineStep(c, es[0].thread, es[0].act), es[1..]))
  }

  function MachineRun(c: Machine, es: seq<Event>): Machine
    requires MachinePossible(c, es)
    decreases |es|
  {
    if es == [] then c else MachineRun(MachineStep(c, es[0].thread, es[0].act), es[1..])
  }

  /** The schedules of the machine are exactly those of the abstract machine, and after each of them
      the links in the array still spell out the two free lists, forwards and backwards. */
  lemma {:induction false} RunSimulated(c: Machine, s: Sys, es: seq<Event>)
    requires SysInv(s) && Represents(c, s)
    ensures MachinePossible(c, es) <==> Possible(s, es)
    ensures MachinePossible(c, es) ==>
              SysInv(Run(s, es)) && Represents(MachineRun(c, es), Run(s, es))
    decreases |es|
  {
    if es != [] && es[0].thread < |s.pcs| {
      var i, a := es[0].thread, es[0].act;
      SameEnabled(c, s, i, a);
      if Enabled(s, i, a) {
        StepSimulated(c, s, i, a);
        StepKeeps(s, i, a);
        RunSimulated(MachineStep(c, i, a), Step(s, i, a), es[1..]);
      }
    }
  }

  /** n idle threads on the words that init leaves. */
  function Boot(t: Store, n: nat): Machine {
    Machine(t, None, None, None, seq(n, _ => Idle), map[], map[])
  }

  /** From a state in which nothing has been handed out, every schedule of any number of threads keeps
      the words standing for a heap that satisfies the invariant. */
  lemma MachineSafe(t: Store, a: Heap, n: nat, es: seq<Event>)
    requires Stands(t, a) && Inv(a, Nothing) && MachinePossible(Boot(t, n), es)
    requires forall p :: 0 <= p < |a.state| ==> a.owner[p] != User4 && a.owner[p] != User2
    ensures Possible(Start(a, n), es)
    ensures SysInv(Run(Start(a, n), es)) && Represents(MachineRun(Boot(t, n), es), Run(Start(a, n), es))
  {
    StartOk(a, n);
    assert Boot(t, n).pcs == Start(a, n).pcs;
    RunSimulated(Boot(t, n), Start(a, n), es);
  }

  /** While a thread holds the 4 KiB list, or the 2 MiB list, the head it read stays the head and has no
      predecessor, whatever the holder of page_array unlinks meanwhile. */
  lemma HeldHeadStays(c: Machine, s: Sys, i: nat)
    requires SysInv(s) && Represents(c, s) && i < |s.pcs|
    ensures c.pcs[i].AllocTake? ==>
              var p := c.pcs[i].p;
              c.store.head4 == Some(p) && p < |c.store.pages| && c.store.pages[p].prev == None
    ensures c.pcs[i].SplitDetach? || c.pcs[i].Alloc2Take? ==>
              var h := c.pcs[i].h;
              c.store.head2 == Some(h) && h < |c.store.pages| && c.store.pages[h].prev == None
  {
    assert ThreadOk(s, i);
    if c.pcs[i].AllocTake? { NeighbourWords(c.store.pages, c.store.head4, s.heap.free4, 0); }
    if c.pcs[i].SplitDetach? || c.pcs[i].Alloc2Take? {
      NeighbourWords(c.store.pages, c.store.head2, s.heap.free2, 0);
    }
  }
}
