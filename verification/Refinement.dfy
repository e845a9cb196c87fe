/** Each in-place step on the metadata array stands for the corresponding step on the abstract heap. */
module Refinement {
  import opened PageModel
  import opened HeapSteps
  import opened Links

  lemma ListsDisjoint(a: Heap, f: InFlight)
    requires Inv(a, f)
    ensures forall q :: q in a.free4 ==> q !in a.free2
    ensures forall q :: Flying(f, q) ==> q !in a.free2 && q !in a.free4
  {}

  // ----- words written, links untouched

  function SetState(m: seq<PageMetadata>, p: nat, s: PageState): (r: seq<PageMetadata>)
    requires p < |m|
  {
    m[p := m[p].(state := s)]
  }

  function SetCounter(m: seq<PageMetadata>, p: nat, c: nat): (r: seq<PageMetadata>)
    requires p < |m|
  {
    m[p := m[p].(counter := c)]
  }

  /** Writing state and counter words keeps every list. */
  lemma WordsRefine(m: seq<PageMetadata>, r: seq<PageMetadata>, h4: Option<nat>, h2: Option<nat>, a: Heap, b: Heap)
    requires Refines(m, h4, h2, a) && Shaped(b) && |r| == |m| && |b.state| == |a.state|
    requires a.free4 == b.free4 && a.free2 == b.free2
    requires forall p :: 0 <= p < |m| ==> r[p].next == m[p].next && r[p].prev == m[p].prev
    requires forall p :: 0 <= p < |m| ==> r[p].state == b.state[p] && r[p].counter == b.counter[p]
    ensures Refines(r, h4, h2, b)
  {
    LinkedFrame(m, r, h4, a.free4);
    LinkedFrame(m, r, h2, a.free2);
  }

  lemma MarkFreedRefines(m: seq<PageMetadata>, h4: Option<nat>, h2: Option<nat>, a: Heap, p: nat)
    requires Refines(m, h4, h2, a) && p < |m|
    ensures Refines(SetCounter(SetState(m, p, Free4KB), Head(p), SatAdd(m[Head(p)].counter)), h4, h2, MarkFreed(a, p))
  {
    var r := SetCounter(SetState(m, p, Free4KB), Head(p), SatAdd(m[Head(p)].counter));
    WordsRefine(m, r, h4, h2, a, MarkFreed(a, p));
  }

  function Word2MB(m: seq<PageMetadata>, h: nat): seq<PageMetadata>
    requires h < |m|
  {
    SetCounter(SetState(m, h, Free2MB), h, 512)
  }

  lemma MarkFreed2Refines(m: seq<PageMetadata>, h4: Option<nat>, h2: Option<nat>, a: Heap, h: nat)
    requires Refines(m, h4, h2, a) && h + 512 <= |m|
    ensures Refines(Word2MB(m, h), h4, h2, MarkFreed2(a, h))
  {
    WordsRefine(m, Word2MB(m, h), h4, h2, a, MarkFreed2(a, h));
  }

  lemma MarkMergedRefines(m: seq<PageMetadata>, h4: Option<nat>, h2: Option<nat>, a: Heap, h: nat)
    requires Refines(m, h4, h2, a) && h < |m|
    ensures Refines(Word2MB(m, h), h4, h2, MarkMerged(a, h))
  {
    WordsRefine(m, Word2MB(m, h), h4, h2, a, MarkMerged(a, h));
  }

  // ----- pushes

  /** Pushing a page that is on neither list onto the 4 KiB list. */
  lemma Push4Refines(m: seq<PageMetadata>, h4: Option<nat>, h2: Option<nat>, a: Heap, b: Heap, p: nat)
    requires Refines(m, h4, h2, a) && p < |m| && p !in a.free4 && p !in a.free2
    requires forall q :: q in a.free4 ==> q !in a.free2
    requires Shaped(b) && b.state == a.state && b.counter == a.counter
    requires b.free4 == [p] + a.free4 && b.free2 == a.free2
    ensures h4.Some? ==> h4.value < |m|
    ensures Refines(PushFront(m, h4, p), Some(p), h2, b)
  {
    HeadWord(m, h4, a.free4);
    PushFrontLinked(m, h4, a.free4, p);
    LinkedFrame(m, PushFront(m, h4, p), h2, a.free2);
  }

  /** The same for the 2 MiB list. */
  lemma Push2Refines(m: seq<PageMetadata>, h4: Option<nat>, h2: Option<nat>, a: Heap, b: Heap, p: nat)
    requires Refines(m, h4, h2, a) && p < |m| && p !in a.free4 && p !in a.free2
    requires forall q :: q in a.free4 ==> q !in a.free2
    requires Shaped(b) && b.state == a.state && b.counter == a.counter
    requires b.free2 == [p] + a.free2 && b.free4 == a.free4
    ensures h2.Some? ==> h2.value < |m|
    ensures Refines(PushFront(m, h2, p), h4, Some(p), b)
  {
    HeadWord(m, h2, a.free2);
    PushFrontLinked(m, h2, a.free2, p);
    LinkedFrame(m, PushFront(m, h2, p), h4, a.free4);
  }

  // ----- pops

  /** The words written when head `p` of a list is handed to a caller. */
  function Grant(m: seq<PageMetadata>, p: nat): (r: seq<PageMetadata>)
    requires p < |m| && NeighboursInRange(m, p)
    ensures |r| == |m|
  {
    var r := PopFront(m, p);
    r[p := r[p].(state := Allocated, next := None, prev := None)]
  }

  lemma Take4Refines(m: seq<PageMetadata>, h4: Option<nat>, h2: Option<nat>, a: Heap)
    requires Refines(m, h4, h2, a) && Inv(a, Nothing) && a.free4 != []
    ensures var p := a.free4[0];
            h4 == Some(p) && p < |m| && NeighboursInRange(m, p)
            && Refines(SetCounter(Grant(m, p), Head(p), SatSub(Grant(m, p)[Head(p)].counter)),
                       m[p].next, h2, TakeFree4(a))
  {
    HeadWord(m, h4, a.free4);
    PopFrontLinked(m, h4, a.free4);
    PopFacts(a.free4);
    NeighbourWords(m, h4, a.free4, 0);
    ListsDisjoint(a, Nothing);
    var p := a.free4[0];
    var t := PopFront(m, p);
    var r := SetCounter(Grant(m, p), Head(p), SatSub(Grant(m, p)[Head(p)].counter));
    LinkedFrame(t, r, m[p].next, a.free4[1..]);
    LinkedFrame(m, r, h2, a.free2);
  }

  lemma Take2Refines(m: seq<PageMetadata>, h4: Option<nat>, h2: Option<nat>, a: Heap)
    requires Refines(m, h4, h2, a) && Inv(a, Nothing) && a.free2 != []
    ensures var h := a.free2[0];
            h2 == Some(h) && h + 512 <= |m| && NeighboursInRange(m, h)
            && Refines(Grant(m, h), h4, m[h].next, TakeFree2(a))
            && Refines(PopFront(m, h), h4, m[h].next, DetachFree2(a))
  {
    HeadsOk(a, Nothing);
    HeadWord(m, h2, a.free2);
    PopFrontLinked(m, h2, a.free2);
    PopFacts(a.free2);
    NeighbourWords(m, h2, a.free2, 0);
    ListsDisjoint(a, Nothing);
    var h := a.free2[0];
    var t := PopFront(m, h);
    var r := Grant(m, h);
    LinkedFrame(t, r, m[h].next, a.free2[1..]);
    LinkedFrame(m, r, h4, a.free4);
    LinkedFrame(m, t, h4, a.free4);
  }

  // ----- the two loops over a block

  /** split_2mb's loop after n iterations. */
  function ScatterUpTo(a: Heap, h: nat, n: nat): (b: Heap)
    requires Shaped(a) && h + n <= |a.state| && h < |a.state|
    ensures Shaped(b)
  {
    a.(counter := a.counter[h := 512],
       state := Fill(a.state, h, h + n, Free4KB),
       free4 := Descending(h, n) + a.free4,
       owner := Fill(a.owner, h, h + n, List4))
  }

  lemma ScatterBeginRefines(m: seq<PageMetadata>, h4: Option<nat>, h2: Option<nat>, a: Heap, h: nat)
    requires Refines(m, h4, h2, a) && h + 512 <= |m|
    ensures Refines(SetCounter(m, h, 512), h4, h2, ScatterUpTo(a, h, 0))
    ensures ScatterUpTo(a, h, 512) == Scatter(a, h)
  {
    assert ScatterUpTo(a, h, 0).state == a.state;
    assert ScatterUpTo(a, h, 0).free4 == a.free4;
    WordsRefine(m, SetCounter(m, h, 512), h4, h2, a, ScatterUpTo(a, h, 0));
  }

  lemma ScatterStepRefines(m: seq<PageMetadata>, h4: Option<nat>, h2: Option<nat>, a: Heap, h: nat, n: nat)
    requires Inv(a, WholeBlock(h)) && n < 512
    requires Refines(m, h4, h2, ScatterUpTo(a, h, n))
    ensures h + n < |m| && (h4.Some? ==> h4.value < |m|)
    ensures Refines(PushFront(SetState(m, h + n, Free4KB), h4, h + n), Some(h + n), h2, ScatterUpTo(a, h, n + 1))
  {
    var p := h + n;
    var b := ScatterUpTo(a, h, n);
    var b' := b.(state := b.state[p := Free4KB]);
    StateRefines(m, h4, h2, b, p, Free4KB);
    ScatterApart(a, h, n);
    ScatterNext(a, h, n);
    Push4Refines(SetState(m, p, Free4KB), h4, h2, b', ScatterUpTo(a, h, n + 1), p);
  }

  lemma StateRefines(m: seq<PageMetadata>, h4: Option<nat>, h2: Option<nat>, a: Heap, p: nat, s: PageState)
    requires Refines(m, h4, h2, a) && p < |m|
    ensures Refines(SetState(m, p, s), h4, h2, a.(state := a.state[p := s]))
  {
    WordsRefine(m, SetState(m, p, s), h4, h2, a, a.(state := a.state[p := s]));
  }

  lemma ScatterNext(a: Heap, h: nat, n: nat)
    requires Shaped(a) && h + n < |a.state|
    ensures var b, c := ScatterUpTo(a, h, n), ScatterUpTo(a, h, n + 1);
            c.state == b.state[h + n := Free4KB] && c.counter == b.counter
            && c.free4 == [h + n] + b.free4 && c.free2 == b.free2
  {
    assert Descending(h, n + 1) == [h + n] + Descending(h, n);
  }

  /** Half-way through the loop the next page is on neither list, and the lists do not overlap. */
  lemma ScatterApart(a: Heap, h: nat, n: nat)
    requires Inv(a, WholeBlock(h)) && n < 512
    ensures var b := ScatterUpTo(a, h, n);
            h + n !in b.free4 && h + n !in b.free2 && forall q :: q in b.free4 ==> q !in b.free2
  {
    ListsDisjoint(a, WholeBlock(h));
    assert forall q :: h <= q < h + 512 ==> Flying(WholeBlock(h), q);
    DescendingFacts(h, n, a.free4);
  }

  /** try_merge's unlink loop, one iteration. */
  lemma UnlinkRefines(m: seq<PageMetadata>, h4: Option<nat>, h2: Option<nat>, a: Heap, p: nat)
    requires Refines(m, h4, h2, a) && p in a.free4 && forall q :: q in a.free4 ==> q !in a.free2
    ensures p < |m| && NeighboursInRange(m, p)
    ensures m[p].prev.None? <==> h4 == Some(p)
    ensures Refines(Unlink(m, p), if m[p].prev.Some? then h4 else m[p].next, h2, UnlinkPage(a, p))
  {
    var k :| 0 <= k < |a.free4| && a.free4[k] == p;
    NeighbourWords(m, h4, a.free4, k);
    UnlinkLists(m, h4, h2, a, k);
  }

  lemma UnlinkLists(m: seq<PageMetadata>, h4: Option<nat>, h2: Option<nat>, a: Heap, k: nat)
    requires Refines(m, h4, h2, a) && k < |a.free4| && forall q :: q in a.free4 ==> q !in a.free2
    requires a.free4[k] < |m| && NeighboursInRange(m, a.free4[k])
    ensures var p := a.free4[k];
            Linked(Unlink(m, p), if m[p].prev.Some? then h4 else m[p].next, Without(a.free4, p, p + 1))
            && Linked(Unlink(m, p), h2, a.free2)
  {
    UnlinkLinked(m, h4, a.free4, k);
    WithoutOne(a.free4, k);
    NeighbourWords(m, h4, a.free4, k);
    LinkedFrame(m, Unlink(m, a.free4[k]), h2, a.free2);
  }
}
