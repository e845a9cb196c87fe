/** Whole calls executed one after the other, and runs of them. */
module Sequential {
  import opened PageModel
  import opened HeapSteps

  /** What holds between sequential calls. */
  ghost predicate Quiet(a: Heap) {
    Inv(a, Nothing) && Settled(a)
  }

  // ----- merging

  lemma UnlinkOneMore(a: Heap, h: nat, n: nat)
    requires Shaped(a) && h + n < |a.state|
    ensures UnlinkPage(UnlinkUpTo(a, h, n), h + n) == UnlinkUpTo(a, h, n + 1)
  {
    WithoutTwice(a.free4, h, h + n, h + n + 1);
    assert UnlinkPage(UnlinkUpTo(a, h, n), h + n).owner == UnlinkUpTo(a, h, n + 1).owner;
  }

  lemma {:induction false} UnlinkUpToKeeps(a: Heap, h: nat, n: nat)
    requires Inv(a, Prefix(h, 0)) && n <= 512
    ensures Inv(UnlinkUpTo(a, h, n), Prefix(h, n))
    decreases n
  {
    if n == 0 {
      WithoutNone(a.free4, h, h);
      assert UnlinkUpTo(a, h, 0).owner == a.owner;
      assert UnlinkUpTo(a, h, 0) == a;
    } else {
      UnlinkUpToKeeps(a, h, n - 1);
      UnlinkPageKeeps(UnlinkUpTo(a, h, n - 1), h, n - 1);
      UnlinkOneMore(a, h, n - 1);
    }
  }

  lemma TryMergeKeeps(a: Heap, p: nat)
    requires Inv(a, Nothing) && p < |a.state|
    ensures Inv(TryMerge(a, p), Nothing)
  {
    var h := Head(p);
    if AllFree(a.state, h, h + 512) {
      ScanIsSafe(a, h);
      UnlinkUpToKeeps(a, h, 512);
      MarkMergedKeeps(UnlinkUpTo(a, h, 512), h);
      PushBlockKeeps(MarkMerged(UnlinkUpTo(a, h, 512), h), h);
    }
  }

  /** A counter that reached 512 is never wrong: the re-scan of the block succeeds. */
  lemma FullCounterMeansFree(a: Heap, h: nat)
    requires Inv(a, Nothing) && h % 512 == 0 && h + 512 <= |a.state|
    requires !Whole(a, h) && a.counter[h] == 512
    ensures AllFree(a.state, h, h + 512)
  {
    assert BlockOk(a, h);
    CountFull(a.state, h, h + 512);
  }

  // ----- each call

  lemma Alloc4Keeps(a: Heap)
    requires Quiet(a)
    ensures HeadsInRange(a) && Quiet(Alloc4(a).0)
    ensures Alloc4(a).1.None? <==> a.free4 == [] && a.free2 == []
    ensures Alloc4(a).1.None? ==> Alloc4(a).0 == a
    ensures Alloc4(a).1.Some? ==>
              var p := Alloc4(a).1.value;
              p < |a.state| && a.owner[p] in {List4, List2} && Alloc4(a).0.owner[p] == User4
  {
    assert HeadsInRange(a) by { HeadsOk(a, Nothing); }
    if a.free4 != [] {
      assert Inv(TakeFree4(a), Nothing) && a.owner[a.free4[0]] == List4 by { TakeFree4Keeps(a); }
      assert Settled(TakeFree4(a)) by { SettledAfterTake(a); }
    } else if a.free2 != [] {
      SplitThenTake(a);
    }
  }

  lemma SplitThenTake(a: Heap)
    requires Quiet(a) && HeadsInRange(a) && a.free4 == [] && a.free2 != []
    ensures var b := Split(a);
            b.free4 != [] && b.free4[0] < |a.state| && a.owner[b.free4[0]] == List2 && Quiet(TakeFree4(b))
  {
    var b := Split(a);
    SplitKeeps(a);
    assert InBlock(a.free2[0], b.free4[0]);
    assert Inv(TakeFree4(b), Nothing) by { TakeFree4Keeps(b); }
    assert Settled(TakeFree4(b)) by {
      HeadUnique(b.free4[0], a.free2[0]);
      SettledAfterTake(b);
    }
  }

  lemma SplitKeeps(a: Heap)
    requires Quiet(a) && a.free2 != []
    ensures HeadsInRange(a) && Inv(Split(a), Nothing)
    ensures a.free2[0] % 512 == 0 && Split(a).free4 != [] && Split(a).free4[0] == a.free2[0] + 511
    ensures forall p: nat :: InBlock(a.free2[0], p) ==> a.owner[p] == List2
    ensures forall h :: 0 <= h < |a.state| && h % 512 == 0 && !Whole(Split(a), h) && h != a.free2[0] ==>
              Split(a).counter[h] < 512
  {
    HeadsOk(a, Nothing);
    var h := a.free2[0];
    DetachFree2Keeps(a);
    BlockOwner(a, h);
    ScatterKeeps(DetachFree2(a), h);
    forall k | 0 <= k < |a.state| && k % 512 == 0 && !Whole(Split(a), k) && k != h
      ensures Split(a).counter[k] < 512
    {
      assert !Whole(a, k);
    }
  }

  lemma SettledAfterTake(a: Heap)
    requires Inv(a, Nothing) && a.free4 != []
    requires forall h :: 0 <= h < |a.state| && h % 512 == 0 && !Whole(a, h) && h != Head(a.free4[0]) ==>
               a.counter[h] < 512
    ensures HeadsInRange(a) && Settled(TakeFree4(a))
  {
    HeadsOk(a, Nothing);
    var p := a.free4[0];
    assert p in a.free4;
    assert PageOk(a, p) && BlockOk(a, Head(p));
    var b := TakeFree4(a);
    forall h | 0 <= h < |a.state| && h % 512 == 0 && !Whole(b, h) ensures b.counter[h] < 512 {
      if h == Head(p) {
        assert b.counter[h] == SatSub(a.counter[h]);
        assert a.counter[h] <= 512;
      } else {
        assert !Whole(a, h);
      }
    }
  }

  lemma Alloc2Keeps(a: Heap)
    requires Quiet(a)
    ensures HeadsInRange(a) && Quiet(Alloc2(a).0)
    ensures Alloc2(a).1.None? <==> a.free2 == []
    ensures Alloc2(a).1.Some? ==>
              var h := Alloc2(a).1.value;
              h % 512 == 0 && h + 512 <= |a.state|
              && forall p: nat :: InBlock(h, p) ==> a.owner[p] == List2 && Alloc2(a).0.owner[p] == User2
  {
    HeadsOk(a, Nothing);
    if a.free2 != [] {
      TakeFree2Keeps(a);
      BlockOwner(a, a.free2[0]);
      var b := TakeFree2(a);
      forall h | 0 <= h < |a.state| && h % 512 == 0 && !Whole(b, h) ensures b.counter[h] < 512 {
        assert h != a.free2[0] ==> !Whole(a, h);
      }
    }
  }

  /** The first critical section of free_4kb. */
  lemma ReleaseKeeps(a: Heap, p: nat)
    requires Inv(a, Nothing) && p < |a.state| && a.owner[p] == User4
    ensures Inv(PushFreed(MarkFreed(a, p), p), Nothing)
    ensures a.state[p] == Allocated && !Whole(a, Head(p))
    ensures !Whole(PushFreed(MarkFreed(a, p), p), Head(p))
    ensures PushFreed(MarkFreed(a, p), p).counter[Head(p)] == a.counter[Head(p)] + 1 <= 512
  {
    var h := Head(p);
    MarkFreedKeeps(a, p);
    PushFreedKeeps(MarkFreed(a, p), p);
    assert PageOk(a, p) && PageOk(a, h) && BlockOk(a, h);
    CountFull(a.state, h, h + 512);
  }

  lemma Free4Keeps(a: Heap, p: nat)
    requires Quiet(a) && CanFree4(a, p)
    ensures Quiet(Free4(a, p))
  {
    if p < |a.state| && a.state[p] != Free4KB {
      ReleaseKeeps(a, p);
      var h := Head(p);
      var b := PushFreed(MarkFreed(a, p), p);
      var c := Free4(a, p);
      if b.counter[h] == 512 {
        FullCounterMeansFree(b, h);
        TryMergeKeeps(b, p);
      }
      forall k | 0 <= k < |a.state| && k % 512 == 0 && !Whole(c, k) ensures c.counter[k] < 512 {
        if k != h { assert !Whole(a, k); }
      }
    }
  }

  lemma Free2Keeps(a: Heap, p: nat)
    requires Quiet(a) && CanFree2(a, p)
    ensures Quiet(Free2(a, p))
  {
    var h := Head(p);
    if a.state[h] != Free2MB {
      MarkFreed2Keeps(a, h);
      PushBlockKeeps(MarkFreed2(a, h), h);
      var c := Free2(a, p);
      forall k | 0 <= k < |a.state| && k % 512 == 0 && !Whole(c, k) ensures c.counter[k] < 512 {
        assert k != h && !Whole(a, k);
      }
    }
  }

  // ----- round trips

  /** The heap after allocating a page and freeing it again, word for word: the lists, owners and
      superpages are back; a counter that had saturated at 0 now reads 1; and the tail pages of a
      superpage that was split and merged back keep the state of single free pages. */
  function AfterRoundTrip(a: Heap): Heap
    requires Shaped(a) && HeadsInRange(a) && (a.free4 != [] || a.free2 != [])
  {
    if a.free4 != [] then
      var h := Head(a.free4[0]);
      a.(counter := a.counter[h := if a.counter[h] == 0 then 1 else a.counter[h]])
    else
      var h := a.free2[0];
      a.(state := Fill(a.state, h + 1, h + 512, Free4KB))
  }

  /** Freeing the page just allocated puts both lists back exactly, whether the allocation took
      the head of the 4 KiB list or had to split a superpage, which is then merged back. */
  lemma Alloc4RoundTrip(a: Heap)
    requires Quiet(a) && HeadsInRange(a) && Alloc4(a).1.Some?
    ensures var (b, r) := Alloc4(a);
            var c := Free4(b, r.value);
            c == AfterRoundTrip(a)
            && c.free4 == a.free4 && c.free2 == a.free2 && c.owner == a.owner && c.tracked == a.tracked
  {
    if a.free4 != [] {
      TakenPageReturns(a);
    } else {
      SplitPageReturns(a);
    }
  }

  lemma TakenPageReturns(a: Heap)
    requires Quiet(a) && HeadsInRange(a) && a.free4 != []
    ensures Free4(TakeFree4(a), a.free4[0]) == AfterRoundTrip(a)
  {
    var p := a.free4[0];
    assert p in a.free4;
    assert PageOk(a, p) && PageOk(a, Head(p));
    var b := TakeFree4(a);
    var c := PushFreed(MarkFreed(b, p), p);
    assert a.counter[Head(p)] < 512;
    assert Free4(b, p) == c;
    assert c.owner == a.owner && c.state == a.state;
    assert c.counter == AfterRoundTrip(a).counter;
    assert [p] + a.free4[1..] == a.free4;
  }

  lemma SplitPageReturns(a: Heap)
    requires Quiet(a) && HeadsInRange(a) && a.free4 == [] && a.free2 != []
    ensures Split(a).free4 != [] && Split(a).free4[0] == a.free2[0] + 511
    ensures Free4(TakeFree4(Split(a)), a.free2[0] + 511) == AfterRoundTrip(a)
  {
    var h := a.free2[0];
    assert h in a.free2;
    BlockOwner(a, h);
    assert PageOk(a, h) && BlockOk(a, h);
    MergedBack(a, h);
  }

  /** The block after its split, with one page taken and freed again but not yet merged. */
  lemma SplitAndReleased(a: Heap, h: nat)
    requires Shaped(a) && h % 512 == 0 && h + 512 <= |a.state| && a.free4 == [] && a.free2 != [] && a.free2[0] == h
    ensures Split(a).free4 == Descending(h, 512)
    ensures var c := PushFreed(MarkFreed(TakeFree4(Split(a)), h + 511), h + 511);
            c == Split(a) && TakeFree4(Split(a)).state[h + 511] == Allocated
  {
    HeadUnique(h + 511, h);
    var s := Split(a);
    var d := Descending(h, 512);
    assert s.free4 == d;
    assert [h + 511] + d[1..] == d;
    var c := PushFreed(MarkFreed(TakeFree4(s), h + 511), h + 511);
    assert c.state == s.state && c.counter == s.counter && c.owner == s.owner;
  }

  lemma MergedBack(a: Heap, h: nat)
    requires Shaped(a) && h % 512 == 0 && h + 512 <= |a.state| && a.free4 == [] && a.free2 != [] && a.free2[0] == h
    requires a.state[h] == Free2MB && a.counter[h] == 512 && h in a.tracked
    requires forall p :: h <= p < h + 512 ==> a.owner[p] == List2
    ensures Free4(TakeFree4(Split(a)), h + 511) == a.(state := Fill(a.state, h + 1, h + 512, Free4KB))
  {
    SplitAndReleased(a, h);
    HeadUnique(h + 511, h);
    var s := Split(a);
    assert AllFree(s.state, h, h + 512);
    WithoutAll(Descending(h, 512), h, h + 512);
    var e := PushBlock(MarkMerged(UnlinkUpTo(s, h, 512), h), h);
    assert TryMerge(s, h + 511) == e;
    assert [h] + a.free2[1..] == a.free2;
    assert e.owner == a.owner && e.counter == a.counter && e.tracked == a.tracked;
    assert e.state == Fill(a.state, h + 1, h + 512, Free4KB);
  }

  lemma Alloc2RoundTrip(a: Heap)
    requires Quiet(a) && HeadsInRange(a) && Alloc2(a).1.Some?
    ensures var (b, r) := Alloc2(a);
            Free2(b, r.value) == a
  {
    Alloc2Keeps(a);
    var h := a.free2[0];
    var b := TakeFree2(a);
    assert h in a.free2;
    assert PageOk(a, h) && BlockOk(a, h);
    HeadUnique(h, h);
    var c := Free2(b, h);
    assert c.owner == a.owner;
    assert c.state == a.state;
    assert c.counter == a.counter;
    assert [h] + a.free2[1..] == a.free2;
  }

  // ----- freeing twice

  /** The guard against a second free_4kb of the same page works for every page except the head of
      a block that the first free completes: there the merge has overwritten the state it tests. */
  lemma SecondFree4(a: Heap, p: nat)
    requires Quiet(a) && p < |a.state| && a.owner[p] == User4
    ensures Free4(Free4(a, p), p) == Free4(a, p) <==> !(p % 512 == 0 && a.counter[p] == 511)
  {
    ReleaseKeeps(a, p);
    var h := Head(p);
    var b := PushFreed(MarkFreed(a, p), p);
    var c := Free4(a, p);
    if a.counter[h] == 511 {
      FullCounterMeansFree(b, h);
      if p == h {
        assert c.state[p] == Free2MB;
        var d := PushFreed(MarkFreed(c, p), p);
        assert d.counter[h] == 513;
        assert Free4(c, p) == d;
        assert d.counter[h] != c.counter[h];
      }
    }
  }
}
