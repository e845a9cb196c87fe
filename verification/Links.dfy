/** The metadata array as a sequence, its next/prev words, and the list surgery the allocator
    performs on them. `Linked` says which list of frame numbers a chain of words stands for. */
module Links {
  import opened PageModel
  import opened HeapSteps

  datatype PageMetadata = PageMetadata(state: PageState, next: Option<nat>, prev: Option<nat>, counter: nat)

  const FRESH_PAGE := PageMetadata(Unavailable, None, None, 0)

  predicate NoLinks(w: PageMetadata) { w.next == None && w.prev == None }

  function At(s: seq<nat>, i: int): Option<nat> {
    if 0 <= i < |s| then Some(s[i]) else None
  }

  predicate NodeOk(m: seq<PageMetadata>, s: seq<nat>, i: nat)
    requires i < |s|
  {
    s[i] < |m| && m[s[i]].next == At(s, i + 1) && m[s[i]].prev == At(s, i - 1)
  }

  /** From `head`, the next words spell out `s`, and the prev words spell it backwards. */
  ghost predicate Linked(m: seq<PageMetadata>, head: Option<nat>, s: seq<nat>) {
    && NoDup(s)
    && head == At(s, 0)
    && forall i :: 0 <= i < |s| ==> NodeOk(m, s, i)
  }

  /** The array and the two heads stand for the abstract heap. */
  ghost predicate Refines(m: seq<PageMetadata>, head4: Option<nat>, head2: Option<nat>, a: Heap) {
    && Shaped(a)
    && |m| == |a.state|
    && (forall p :: 0 <= p < |m| ==> m[p].state == a.state[p] && m[p].counter == a.counter[p])
    && Linked(m, head4, a.free4)
    && Linked(m, head2, a.free2)
  }

  // ----- surgery

  /** Make `p` the new head. */
  function PushFront(m: seq<PageMetadata>, head: Option<nat>, p: nat): (r: seq<PageMetadata>)
    requires p < |m| && (head.Some? ==> head.value < |m|)
    ensures |r| == |m|
    ensures forall q :: 0 <= q < |m| && q != p && head != Some(q) ==> r[q] == m[q]
    ensures forall q :: 0 <= q < |m| ==> r[q].state == m[q].state && r[q].counter == m[q].counter
  {
    var r := m[p := m[p].(next := head, prev := None)];
    if head.Some? then r[head.value := r[head.value].(prev := Some(p))] else r
  }

  /** Detach the head `p`: its successor loses its prev word. */
  function PopFront(m: seq<PageMetadata>, p: nat): (r: seq<PageMetadata>)
    requires p < |m| && (m[p].next.Some? ==> m[p].next.value < |m|)
    ensures |r| == |m|
    ensures forall q :: 0 <= q < |m| && m[p].next != Some(q) ==> r[q] == m[q]
    ensures forall q :: 0 <= q < |m| ==> r[q].state == m[q].state && r[q].counter == m[q].counter
  {
    if m[p].next.Some? then m[m[p].next.value := m[m[p].next.value].(prev := None)] else m
  }

  predicate NeighboursInRange(m: seq<PageMetadata>, p: nat)
    requires p < |m|
  {
    (m[p].next.Some? ==> m[p].next.value < |m|) && (m[p].prev.Some? ==> m[p].prev.value < |m|)
  }

  /** Take `p` out of the middle of its list. */
  function Unlink(m: seq<PageMetadata>, p: nat): (r: seq<PageMetadata>)
    requires p < |m| && NeighboursInRange(m, p)
    ensures |r| == |m|
    ensures forall q :: 0 <= q < |m| && q != p && m[p].next != Some(q) && m[p].prev != Some(q) ==> r[q] == m[q]
    ensures forall q :: 0 <= q < |m| ==> r[q].state == m[q].state && r[q].counter == m[q].counter
  {
    var prev, next := m[p].prev, m[p].next;
    var r := if prev.Some? then m[prev.value := m[prev.value].(next := next)] else m;
    var r := if next.Some? then r[next.value := r[next.value].(prev := prev)] else r;
    r[p := r[p].(next := None, prev := None)]
  }

  // ----- what surgery does to the lists

  /** Lists whose words are untouched stay as they are. */
  lemma LinkedFrame(m: seq<PageMetadata>, r: seq<PageMetadata>, head: Option<nat>, s: seq<nat>)
    requires Linked(m, head, s) && |r| == |m|
    requires forall q :: q in s && q < |m| ==> r[q].next == m[q].next && r[q].prev == m[q].prev
    ensures Linked(r, head, s)
  {
    forall i | 0 <= i < |s| ensures NodeOk(r, s, i) {
      assert NodeOk(m, s, i);
      assert s[i] in s;
    }
  }

  lemma HeadWord(m: seq<PageMetadata>, head: Option<nat>, s: seq<nat>)
    requires Linked(m, head, s)
    ensures s != [] ==> head == Some(s[0]) && s[0] < |m|
    ensures s == [] ==> head == None
    ensures head.Some? ==> head.value < |m| && head.value in s
  {
    if s != [] { assert NodeOk(m, s, 0); }
  }

  /** The neighbours of a node are nodes of the same list. */
  lemma NeighbourWords(m: seq<PageMetadata>, head: Option<nat>, s: seq<nat>, k: nat)
    requires Linked(m, head, s) && k < |s|
    ensures s[k] < |m| && NeighboursInRange(m, s[k])
    ensures m[s[k]].next == At(s, k + 1) && m[s[k]].prev == At(s, k - 1)
    ensures m[s[k]].next.Some? ==> m[s[k]].next.value in s
    ensures m[s[k]].prev.Some? ==> m[s[k]].prev.value in s
  {
    assert NodeOk(m, s, k);
    if k + 1 < |s| { assert NodeOk(m, s, k + 1); }
    if k > 0 { assert NodeOk(m, s, k - 1); }
  }

  /** In a linked list next and prev are inverse to each other, and only the head has no prev. */
  lemma LinksInverse(m: seq<PageMetadata>, head: Option<nat>, s: seq<nat>, p: nat, q: nat)
    requires Linked(m, head, s) && p in s && q in s
    ensures p < |m| && q < |m|
    ensures m[p].next == Some(q) <==> m[q].prev == Some(p)
    ensures m[p].prev == None <==> head == Some(p)
  {
    var i :| 0 <= i < |s| && s[i] == p;
    var j :| 0 <= j < |s| && s[j] == q;
    NeighbourWords(m, head, s, i);
    NeighbourWords(m, head, s, j);
    assert At(s, i + 1) == Some(q) <==> j == i + 1;
    assert At(s, j - 1) == Some(p) <==> i == j - 1;
  }

  lemma PushFrontLinked(m: seq<PageMetadata>, head: Option<nat>, s: seq<nat>, p: nat)
    requires Linked(m, head, s) && p < |m| && p !in s
    ensures head.Some? ==> head.value < |m|
    ensures Linked(PushFront(m, head, p), Some(p), [p] + s)
  {
    HeadWord(m, head, s);
    PushFacts(s, p);
    var r := PushFront(m, head, p);
    var t := [p] + s;
    forall i | 0 <= i < |t| ensures NodeOk(r, t, i) {
      if i > 0 {
        assert NodeOk(m, s, i - 1);
        assert t[i] == s[i - 1] && At(t, i + 1) == At(s, i);
        assert i > 1 ==> t[i - 1] == s[i - 2];
        assert s[i - 1] in s;
      }
    }
  }

  lemma PopFrontLinked(m: seq<PageMetadata>, head: Option<nat>, s: seq<nat>)
    requires Linked(m, head, s) && s != []
    ensures s[0] < |m| && NeighboursInRange(m, s[0])
    ensures Linked(PopFront(m, s[0]), m[s[0]].next, s[1..])
  {
    NeighbourWords(m, head, s, 0);
    var r := PopFront(m, s[0]);
    var t := s[1..];
    forall i | 0 <= i < |t| ensures NodeOk(r, t, i) {
      assert NodeOk(m, s, i + 1);
      assert t[i] == s[i + 1] && At(t, i + 1) == At(s, i + 2);
      assert i > 0 ==> t[i - 1] == s[i];
    }
  }

  lemma UnlinkLinked(m: seq<PageMetadata>, head: Option<nat>, s: seq<nat>, k: nat)
    requires Linked(m, head, s) && k < |s|
    ensures s[k] < |m| && NeighboursInRange(m, s[k])
    ensures Linked(Unlink(m, s[k]),
                   if m[s[k]].prev.Some? then head else m[s[k]].next,
                   s[..k] + s[k + 1..])
  {
    NeighbourWords(m, head, s, k);
    var r := Unlink(m, s[k]);
    var t := s[..k] + s[k + 1..];
    forall i | 0 <= i < |t| ensures NodeOk(r, t, i) {
      var j := if i < k then i else i + 1;
      assert NodeOk(m, s, j);
      assert t[i] == s[j] && s[j] != s[k];
      assert At(t, i + 1) == if i + 1 == k then At(s, k + 1) else At(s, j + 1);
      assert At(t, i - 1) == if i == k then At(s, k - 1) else At(s, j - 1);
    }
  }

  lemma {:induction false} WithoutOne(s: seq<nat>, k: nat)
    requires NoDup(s) && k < |s|
    ensures Without(s, s[k], s[k] + 1) == s[..k] + s[k + 1..]
  {
    var rest := s[1..];
    assert s[0] !in rest && NoDup(rest) by { PopFacts(s); }
    if k == 0 {
      WithoutNone(rest, s[0], s[0] + 1);
      assert s[..0] + rest == rest;
    } else {
      assert rest[k - 1] == s[k] && s[0] != s[k];
      assert Without(s, s[k], s[k] + 1) == [s[0]] + (rest[..k - 1] + rest[k..]) by { WithoutOne(rest, k - 1); }
      assert s[..k] + s[k + 1..] == [s[0]] + (rest[..k - 1] + rest[k..]);
    }
  }
}
