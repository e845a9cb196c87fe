/** Every step of every operation keeps the structural invariant. */
module HeapSteps {
  import opened PageModel

  // ----- counting

  lemma {:induction false} CountSame(s: seq<PageState>, t: seq<PageState>, lo: nat, hi: nat)
    requires lo <= hi <= |s| && |s| == |t|
    requires forall p :: lo <= p < hi ==> s[p] == t[p]
    ensures CountFree(s, lo, hi) == CountFree(t, lo, hi)
    decreases hi - lo
  {
    if lo < hi { CountSame(s, t, lo, hi - 1); }
  }

  lemma {:induction false} CountUpdate(s: seq<PageState>, lo: nat, hi: nat, p: nat, x: PageState)
    requires lo <= p < hi <= |s|
    ensures CountFree(s[p := x], lo, hi) ==
            CountFree(s, lo, hi) - (if s[p] == Free4KB then 1 else 0) + (if x == Free4KB then 1 else 0)
    decreases hi - lo
  {
    if p == hi - 1 {
      CountSame(s, s[p := x], lo, hi - 1);
    } else {
      CountUpdate(s, lo, hi - 1, p, x);
    }
  }

  /** A full count means every page is free, and conversely. */
  lemma {:induction false} CountFull(s: seq<PageState>, lo: nat, hi: nat)
    requires lo <= hi <= |s|
    ensures CountFree(s, lo, hi) == hi - lo <==> AllFree(s, lo, hi)
    decreases hi - lo
  {
    if lo < hi { CountFull(s, lo, hi - 1); }
  }

  /** A block whose pages keep their states keeps its counter clause. */
  lemma BlockFrame(a: Heap, b: Heap, h: nat)
    requires Shaped(a) && Shaped(b) && |a.state| == |b.state|
    requires h % 512 == 0 && h + 512 <= |a.state| && BlockOk(a, h)
    requires a.counter[h] == b.counter[h] && (h in a.tracked <==> h in b.tracked)
    requires forall p :: h <= p < h + 512 ==> a.state[p] == b.state[p]
    requires forall p :: h <= p < h + 512 ==> a.owner[p] == b.owner[p]
    ensures BlockOk(b, h)
  {
    CountSame(a.state, b.state, h, h + 512);
    assert a.state[h] == b.state[h] && a.owner[h] == b.owner[h];
  }

  /** The same, for all blocks but one. */
  lemma OtherBlocks(a: Heap, b: Heap, k: nat)
    requires Shaped(a) && Shaped(b) && |a.state| == |b.state| && BlocksOk(a)
    requires k % 512 == 0 && k + 512 <= |a.state| && BlockOk(b, k)
    requires forall p :: 0 <= p < |a.state| && !(k <= p < k + 512) ==>
               a.state[p] == b.state[p] && a.owner[p] == b.owner[p] && a.counter[p] == b.counter[p]
    requires a.tracked - {k} == b.tracked - {k}
    ensures BlocksOk(b)
  {
    forall h | 0 <= h < |a.state| && h % 512 == 0
      ensures BlockOk(b, h)
    {
      if h != k {
        assert BlockOk(a, h);
        assert h in a.tracked <==> h in a.tracked - {k};
        assert h in b.tracked <==> h in b.tracked - {k};
        BlockFrame(a, b, h);
      }
    }
  }

  /** Pages of the other blocks stay consistent. */
  lemma OtherPages(a: Heap, b: Heap, k: nat)
    requires Shaped(a) && Shaped(b) && |a.state| == |b.state| && PagesOk(a)
    requires k % 512 == 0 && k + 512 <= |a.state|
    requires forall p :: k <= p < k + 512 ==> PageOk(b, p)
    requires forall p :: 0 <= p < |a.state| && !(k <= p < k + 512) ==>
               a.state[p] == b.state[p] && a.owner[p] == b.owner[p]
    ensures PagesOk(b)
  {
    forall p | 0 <= p < |a.state|
      ensures PageOk(b, p)
    {
      if !(k <= p < k + 512) {
        assert PageOk(a, p);
        assert !(k <= Head(p) < k + 512);
      }
    }
  }

  // ----- the two lists

  lemma PopFacts(s: seq<nat>)
    requires s != [] && NoDup(s)
    ensures s[0] in s && NoDup(s[1..])
    ensures forall x :: x in s[1..] <==> x in s && x != s[0]
  {
    forall x ensures x in s[1..] <==> x in s && x != s[0] {
      if x in s && x != s[0] {
        var i :| 0 <= i < |s| && s[i] == x;
        assert s[1..][i - 1] == x;
      }
    }
  }

  lemma PushFacts(s: seq<nat>, x: nat)
    requires NoDup(s) && x !in s
    ensures NoDup([x] + s)
    ensures forall y :: y in [x] + s <==> y == x || y in s
  {}

  lemma DescendingFacts(h: nat, n: nat, s: seq<nat>)
    requires NoDup(s) && forall x :: x in s ==> !(h <= x < h + n)
    ensures NoDup(Descending(h, n) + s)
    ensures forall x :: x in Descending(h, n) + s <==> h <= x < h + n || x in s
  {
    var d := Descending(h, n);
    forall x ensures x in d <==> h <= x < h + n {
      if h <= x < h + n { assert d[h + n - 1 - x] == x; }
    }
    forall i, j | 0 <= i < j < |d + s| ensures (d + s)[i] != (d + s)[j] {
      assert (d + s)[i] == if i < n then d[i] else s[i - n];
      assert (d + s)[j] == if j < n then d[j] else s[j - n];
      if i < n <= j { assert d[i] in d && s[j - n] in s; }
    }
  }

  lemma HeadsOk(a: Heap, f: InFlight)
    requires Inv(a, f)
    ensures HeadsInRange(a)
  {
    if a.free4 != [] { assert a.free4[0] in a.free4; }
    if a.free2 != [] { assert a.free2[0] in a.free2; }
  }

  lemma {:induction false} WithoutIn(s: seq<nat>, lo: nat, hi: nat, x: nat)
    ensures x in Without(s, lo, hi) <==> x in s && !(lo <= x < hi)
  {
    if s != [] {
      WithoutIn(s[1..], lo, hi, x);
      assert x in s <==> x == s[0] || x in s[1..];
    }
  }

  lemma {:induction false} WithoutNoDup(s: seq<nat>, lo: nat, hi: nat)
    requires NoDup(s)
    ensures NoDup(Without(s, lo, hi))
  {
    if s != [] {
      WithoutNoDup(s[1..], lo, hi);
      WithoutIn(s[1..], lo, hi, s[0]);
      assert s[0] !in s[1..];
    }
  }

  lemma {:induction false} WithoutNone(s: seq<nat>, lo: nat, hi: nat)
    requires forall x :: x in s ==> !(lo <= x < hi)
    ensures Without(s, lo, hi) == s
  {
    if s != [] {
      assert s[0] in s && forall x :: x in s[1..] ==> x in s;
      WithoutNone(s[1..], lo, hi);
    }
  }

  /** Filtering in two adjacent ranges is filtering in their union. */
  lemma {:induction false} WithoutTwice(s: seq<nat>, lo: nat, mid: nat, hi: nat)
    requires lo <= mid <= hi
    ensures Without(Without(s, lo, mid), mid, hi) == Without(s, lo, hi)
  {
    if s != [] { WithoutTwice(s[1..], lo, mid, hi); }
  }

  lemma {:induction false} WithoutAll(s: seq<nat>, lo: nat, hi: nat)
    requires forall x :: x in s ==> lo <= x < hi
    ensures Without(s, lo, hi) == []
  {
    if s != [] {
      assert s[0] in s && forall x :: x in s[1..] ==> x in s;
      WithoutAll(s[1..], lo, hi);
    }
  }

  /** The pages of a superpage share its owner, so none is on the 4 KiB list. */
  lemma BlockOwner(a: Heap, h: nat)
    requires Shaped(a) && PagesOk(a) && h % 512 == 0 && h + 512 <= |a.state|
    requires IsWholeOwner(a.owner[h])
    ensures forall p :: h <= p < h + 512 ==> a.owner[p] == a.owner[h]
  {
    forall p | h <= p < h + 512 ensures a.owner[p] == a.owner[h] {
      assert PageOk(a, p);
      HeadUnique(p, h);
    }
  }

  predicate OutsideSame(a: Heap, b: Heap, k: nat)
    requires Shaped(a) && Shaped(b) && |a.state| == |b.state|
  {
    forall p :: 0 <= p < |a.state| && !(k <= p < k + 512) ==>
      a.state[p] == b.state[p] && a.owner[p] == b.owner[p] && a.counter[p] == b.counter[p]
  }

  /** If only block k changes, the page and counter clauses follow from what holds of block k. */
  lemma Local(a: Heap, b: Heap, k: nat)
    requires Shaped(a) && Shaped(b) && |a.state| == |b.state| && PagesOk(a) && BlocksOk(a)
    requires k % 512 == 0 && k + 512 <= |a.state| && OutsideSame(a, b, k)
    requires a.tracked - {k} == b.tracked - {k}
    requires BlockOk(b, k)
    requires forall p :: k <= p < k + 512 ==> PageOk(b, p)
    ensures PagesOk(b) && BlocksOk(b)
  {
    OtherBlocks(a, b, k);
    OtherPages(a, b, k);
  }

  /** If only page p of a broken block changes, only p and its counter need checking. */
  lemma LocalPage(a: Heap, b: Heap, p: nat)
    requires Shaped(a) && Shaped(b) && |a.state| == |b.state| && PagesOk(a) && BlocksOk(a)
    requires p < |a.state| && !Whole(a, Head(p)) && !Whole(b, Head(p))
    requires a.tracked == b.tracked
    requires forall q :: 0 <= q < |a.state| && q != p ==> a.state[q] == b.state[q] && a.owner[q] == b.owner[q]
    requires forall q :: 0 <= q < |a.state| && q != Head(p) ==> a.counter[q] == b.counter[q]
    requires PageOk(b, p) && BlockOk(b, Head(p))
    ensures PagesOk(b) && BlocksOk(b)
  {
    var h := Head(p);
    forall q | h <= q < h + 512 ensures PageOk(b, q) {
      if q != p {
        assert PageOk(a, q);
        HeadUnique(q, h);
      }
    }
    Local(a, b, h);
  }

  /** A change confined to a block with no page on the 4 KiB list, before or after. */
  lemma List4Same(a: Heap, b: Heap, k: nat)
    requires Shaped(a) && Shaped(b) && |a.state| == |b.state| && OutsideSame(a, b, k)
    requires k + 512 <= |a.state|
    requires forall p :: k <= p < k + 512 ==> a.owner[p] != List4 && b.owner[p] != List4
    requires List4Ok(a) && b.free4 == a.free4
    ensures List4Ok(b)
  {}

  /** A change confined to a block whose head is not on the 2 MiB list, before or after. */
  lemma List2Same(a: Heap, b: Heap, k: nat)
    requires Shaped(a) && Shaped(b) && |a.state| == |b.state| && OutsideSame(a, b, k)
    requires k % 512 == 0 && k + 512 <= |a.state| && a.owner[k] != List2 && b.owner[k] != List2
    requires List2Ok(a) && b.free2 == a.free2
    ensures List2Ok(b)
  {
    assert forall h :: k < h < k + 512 ==> h % 512 != 0;
  }

  /** The head block leaves the 2 MiB list. */
  lemma List2Popped(a: Heap, b: Heap)
    requires Shaped(a) && Shaped(b) && |a.state| == |b.state| && List2Ok(a) && a.free2 != []
    requires a.free2[0] + 512 <= |a.state| && OutsideSame(a, b, a.free2[0])
    requires b.free2 == a.free2[1..] && b.owner[a.free2[0]] != List2
    ensures List2Ok(b)
  {
    PopFacts(a.free2);
    var h := a.free2[0];
    forall k | k % 512 == 0 && h < k < h + 512 ensures false { HeadUnique(k, h); HeadUnique(k, k); }
  }

  /** Block h heads the 2 MiB list. */
  lemma List2Pushed(a: Heap, b: Heap, h: nat)
    requires Shaped(a) && Shaped(b) && |a.state| == |b.state| && List2Ok(a)
    requires h % 512 == 0 && h + 512 <= |a.state| && OutsideSame(a, b, h)
    requires b.free2 == [h] + a.free2 && a.owner[h] != List2 && b.owner[h] == List2
    ensures List2Ok(b)
  {
    PushFacts(a.free2, h);
    forall k | k % 512 == 0 && h < k < h + 512 ensures false { HeadUnique(k, h); HeadUnique(k, k); }
  }

  // ----- pages and counters after each step

  lemma TakenPages(a: Heap)
    requires Shaped(a) && PagesOk(a) && BlocksOk(a)
    requires a.free4 != [] && a.free4[0] < |a.state| && a.owner[a.free4[0]] == List4
    requires a.owner[Head(a.free4[0])] != Moving
    ensures PagesOk(TakeFree4(a)) && BlocksOk(TakeFree4(a))
  {
    var p := a.free4[0];
    var h := Head(p);
    var b := TakeFree4(a);
    assert a.state[p] == Free4KB && !Whole(a, h) by { assert PageOk(a, p) && PageOk(a, h); }
    assert BlockOk(b, h) by {
      assert BlockOk(a, h);
      CountUpdate(a.state, h, h + 512, p, Allocated);
    }
    assert PageOk(b, p) by { assert PageOk(a, p); }
    LocalPage(a, b, p);
  }

  lemma FreedPages(a: Heap, p: nat)
    requires Shaped(a) && PagesOk(a) && BlocksOk(a) && p < |a.state| && a.owner[p] == User4
    ensures PagesOk(MarkFreed(a, p)) && BlocksOk(MarkFreed(a, p)) && !Whole(MarkFreed(a, p), Head(p))
  {
    var h := Head(p);
    var b := MarkFreed(a, p);
    assert PageOk(a, p) && PageOk(a, h) && BlockOk(a, h);
    assert BlockOk(b, h) by { CountUpdate(a.state, h, h + 512, p, Free4KB); }
    LocalPage(a, b, p);
  }

  /** A free page of a broken block moves between the list and the hands of the lock holder. */
  lemma MovedPages(a: Heap, b: Heap, p: nat)
    requires Shaped(a) && PagesOk(a) && BlocksOk(a) && p < |a.state| && a.owner[p] in {List4, Moving}
    requires !Whole(a, Head(p)) && a.state[p] == Free4KB
    requires b.state == a.state && b.counter == a.counter && b.tracked == a.tracked
    requires b.owner == a.owner[p := List4] || b.owner == a.owner[p := Moving]
    ensures PagesOk(b) && BlocksOk(b)
  {
    assert PageOk(a, p) && BlockOk(a, Head(p));
    LocalPage(a, b, p);
  }

  /** A whole block changes hands and stays whole; only its head word may change. */
  lemma WholePages(a: Heap, b: Heap, h: nat, o: Owner, x: Owner)
    requires Shaped(a) && PagesOk(a) && BlocksOk(a) && h % 512 == 0 && h + 512 <= |a.state|
    requires Whole(a, h) && o in {List2, User2, Moving} && x in {List2, User2, Moving}
    requires forall p :: h <= p < h + 512 ==> a.owner[p] == o
    requires |b.state| == |a.state| && b.owner == Fill(a.owner, h, h + 512, x)
    requires b.state == a.state[h := if x == User2 then Allocated else Free2MB]
    requires b.counter == a.counter[h := 512] && b.tracked == a.tracked
    ensures PagesOk(b) && BlocksOk(b)
  {
    assert BlockOk(a, h);
    forall q | h <= q < h + 512 ensures PageOk(b, q) { assert PageOk(a, q); HeadUnique(q, h); }
    Local(a, b, h);
  }

  lemma ScatteredPages(a: Heap, h: nat)
    requires Shaped(a) && PagesOk(a) && BlocksOk(a) && h % 512 == 0 && h + 512 <= |a.state| && Whole(a, h)
    ensures PagesOk(Scatter(a, h)) && BlocksOk(Scatter(a, h))
  {
    var b := Scatter(a, h);
    assert BlockOk(a, h);
    assert BlockOk(b, h) by { CountFull(b.state, h, h + 512); }
    forall q | h <= q < h + 512 ensures PageOk(b, q) { HeadUnique(q, h); }
    Local(a, b, h);
  }

  lemma MergedPages(a: Heap, h: nat)
    requires Shaped(a) && PagesOk(a) && BlocksOk(a) && h % 512 == 0 && h + 512 <= |a.state|
    requires AllFree(a.state, h, h + 512) && forall p :: h <= p < h + 512 ==> a.owner[p] == Moving
    ensures PagesOk(MarkMerged(a, h)) && BlocksOk(MarkMerged(a, h))
  {
    var b := MarkMerged(a, h);
    forall q | h <= q < h + 512 ensures PageOk(b, q) { assert PageOk(a, q); HeadUnique(q, h); }
    Local(a, b, h);
  }

  // ----- allocation steps

  lemma TakeFree4Keeps(a: Heap)
    requires Inv(a, Nothing) && a.free4 != []
    ensures a.free4[0] < |a.state| && a.owner[a.free4[0]] == List4
    ensures Inv(TakeFree4(a), Nothing)
  {
    assert a.free4[0] in a.free4;
    var b := TakeFree4(a);
    assert !Flying(Nothing, Head(a.free4[0]));
    TakenPages(a);
    assert List4Ok(b) by { PopFacts(a.free4); }
    assert List2Ok(b);
  }

  lemma TakeFree2Keeps(a: Heap)
    requires Inv(a, Nothing) && a.free2 != []
    ensures a.free2[0] % 512 == 0 && a.free2[0] + 512 <= |a.state| && a.owner[a.free2[0]] == List2
    ensures Inv(TakeFree2(a), Nothing)
  {
    var h := a.free2[0];
    FirstBlock(a);
    var b := TakeFree2(a);
    assert b.counter == a.counter[h := 512];
    assert PagesOk(b) && BlocksOk(b) by { WholePages(a, b, h, List2, User2); }
    assert List4Ok(b) by { List4Same(a, b, h); }
    assert List2Ok(b) by { List2Popped(a, b); }
  }

  lemma DetachFree2Keeps(a: Heap)
    requires Inv(a, Nothing) && a.free2 != []
    ensures a.free2[0] % 512 == 0 && a.free2[0] + 512 <= |a.state| && a.owner[a.free2[0]] == List2
    ensures Inv(DetachFree2(a), WholeBlock(a.free2[0]))
  {
    var h := a.free2[0];
    FirstBlock(a);
    var b := DetachFree2(a);
    assert b.state == a.state[h := Free2MB] && b.counter == a.counter[h := 512];
    assert PagesOk(b) && BlocksOk(b) by { WholePages(a, b, h, List2, Moving); }
    assert List4Ok(b) by { List4Same(a, b, h); }
    assert List2Ok(b) by { List2Popped(a, b); }
  }

  /** What heads the 2 MiB list is a whole block of free pages. */
  lemma FirstBlock(a: Heap)
    requires Shaped(a) && PagesOk(a) && BlocksOk(a) && List2Ok(a) && a.free2 != []
    ensures var h := a.free2[0];
            h % 512 == 0 && h + 512 <= |a.state| && a.state[h] == Free2MB && a.counter[h] == 512 && Whole(a, h)
            && forall p :: h <= p < h + 512 ==> a.owner[p] == List2
  {
    var h := a.free2[0];
    assert h in a.free2;
    BlockOwner(a, h);
    HeadUnique(h, h);
    assert PageOk(a, h) && BlockOk(a, h);
  }

  lemma ScatterKeeps(a: Heap, h: nat)
    requires Inv(a, WholeBlock(h))
    ensures Inv(Scatter(a, h), Nothing)
  {
    var b := Scatter(a, h);
    AllMoving(a, WholeBlock(h), h);
    ScatteredPages(a, h);
    assert List4Ok(b) by { DescendingFacts(h, 512, a.free4); }
    assert List2Ok(b) by { List2Same(a, b, h); }
  }

  /** A block in the hands of the lock holder. */
  lemma AllMoving(a: Heap, f: InFlight, h: nat)
    requires Shaped(a) && FlightOk(a, f) && h + 512 <= |a.state| && f in {WholeBlock(h), Prefix(h, 512)}
    ensures forall p :: h <= p < h + 512 ==> a.owner[p] == Moving
  {
    assert forall p :: h <= p < h + 512 ==> Flying(f, p);
  }

  // ----- release steps

  lemma MarkFreedKeeps(a: Heap, p: nat)
    requires Inv(a, Nothing) && p < |a.state| && a.owner[p] == User4
    ensures Inv(MarkFreed(a, p), OnePage(p))
  {
    var b := MarkFreed(a, p);
    FreedPages(a, p);
    assert List4Ok(b) && List2Ok(b);
  }

  lemma PushFreedKeeps(a: Heap, p: nat)
    requires Inv(a, OnePage(p))
    ensures Inv(PushFreed(a, p), Nothing)
  {
    var b := PushFreed(a, p);
    assert a.owner[p] == Moving by { assert Flying(OnePage(p), p); }
    assert PagesOk(b) && BlocksOk(b) by {
      assert PageOk(a, p);
      MovedPages(a, b, p);
    }
    assert List4Ok(b) by { PushFacts(a.free4, p); }
    assert List2Ok(b);
  }

  lemma MarkFreed2Keeps(a: Heap, h: nat)
    requires Inv(a, Nothing) && h < |a.state| && h % 512 == 0 && a.owner[h] == User2
    ensures Inv(MarkFreed2(a, h), WholeBlock(h))
  {
    var b := MarkFreed2(a, h);
    assert forall p :: h <= p < h + 512 ==> a.owner[p] == User2 by { BlockOwner(a, h); }
    assert PagesOk(b) && BlocksOk(b) by { WholePages(a, b, h, User2, Moving); }
    assert List4Ok(b) by { List4Same(a, b, h); }
    assert List2Ok(b) by { List2Same(a, b, h); }
  }

  lemma PushBlockKeeps(a: Heap, h: nat)
    requires Inv(a, WholeBlock(h))
    ensures Inv(PushBlock(a, h), Nothing)
  {
    var b := PushBlock(a, h);
    AllMoving(a, WholeBlock(h), h);
    assert PagesOk(b) && BlocksOk(b) by {
      assert BlockOk(a, h);
      assert b.state == a.state[h := Free2MB] && b.counter == a.counter[h := 512];
      WholePages(a, b, h, Moving, List2);
    }
    assert List4Ok(b) by { List4Same(a, b, h); }
    assert List2Ok(b) by { List2Pushed(a, b, h); }
  }

  // ----- merge steps

  /** try_merge's scan accepts a block only if all its pages are on the 4 KiB list: whatever other
      calls did since the counter was read, no allocated page can be absorbed. */
  lemma ScanIsSafe(a: Heap, h: nat)
    requires Inv(a, Nothing) && h % 512 == 0 && h + 512 <= |a.state|
    requires AllFree(a.state, h, h + 512)
    ensures forall p :: h <= p < h + 512 ==> a.owner[p] == List4 && p in a.free4
    ensures Inv(a, Prefix(h, 0))
  {
    assert a.state[h] == Free4KB;
    forall p | h <= p < h + 512 ensures a.owner[p] == List4 {
      assert PageOk(a, p) && PageOk(a, h);
      HeadUnique(p, h);
    }
  }

  lemma UnlinkPageKeeps(a: Heap, h: nat, n: nat)
    requires n < 512 && Inv(a, Prefix(h, n))
    ensures h + n < |a.state| && h + n in a.free4
    ensures Inv(UnlinkPage(a, h + n), Prefix(h, n + 1))
  {
    var p := h + n;
    var b := UnlinkPage(a, p);
    assert a.owner[p] == List4 && a.owner[h] != List2;
    assert PagesOk(b) && BlocksOk(b) by {
      HeadUnique(p, h);
      assert PageOk(a, h);
      MovedPages(a, b, p);
    }
    assert List4Ok(b) by { UnlinkList4(a, p); }
    assert List2Ok(b);
  }

  lemma UnlinkList4(a: Heap, p: nat)
    requires Shaped(a) && List4Ok(a) && p < |a.state|
    ensures List4Ok(UnlinkPage(a, p))
  {
    WithoutNoDup(a.free4, p, p + 1);
    forall q ensures q in UnlinkPage(a, p).free4 <==> q in a.free4 && q != p { WithoutIn(a.free4, p, p + 1, q); }
  }

  lemma MarkMergedKeeps(a: Heap, h: nat)
    requires Inv(a, Prefix(h, 512))
    ensures Inv(MarkMerged(a, h), WholeBlock(h))
  {
    var b := MarkMerged(a, h);
    AllMoving(a, Prefix(h, 512), h);
    MergedPages(a, h);
    assert List4Ok(b) && List2Ok(b);
  }
}
