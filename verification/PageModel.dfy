/** The allocator's state as values: page states, superpage counters and the two free lists as
    sequences of page frame numbers, with the ghost ownership the code keeps only implicitly.
    Every operation is composed from small steps, cut where the code takes or releases a lock,
    so that sequential calls and interleaved calls are built from the same pieces. */
module PageModel {

  const PAGE_SIZE_4KB: nat := 4096
  const PAGE_SIZE_2MB: nat := 2 * 1024 * 1024
  const PAGES_PER_2MB: nat := 512
  const U16_MAX: nat := 0xFFFF

  datatype Option<+T> = None | Some(value: T)

  datatype PageSize = Size4KB | Size2MB

  datatype PageState = Unavailable | Free4KB | Free2MB | Allocated

  /** Who answers for a page. `Moving` pages are in the hands of the critical section that holds
      `page_array`: already off one list and not yet on another. */
  datatype Owner = Reserved | List4 | List2 | User4 | User2 | Moving

  datatype Heap = Heap(
    state: seq<PageState>,
    counter: seq<nat>,
    free4: seq<nat>,        // the 4 KiB free list, head first
    free2: seq<nat>,        // the 2 MiB free list, head first
    owner: seq<Owner>,
    tracked: set<nat>       // superpage heads carved whole at boot or merged since
  )

  /** What the holder of `page_array` has in its hands. */
  datatype InFlight =
    | Nothing
    | OnePage(p: nat)               // a 4 KiB page marked free but not yet linked
    | Prefix(head: nat, n: nat)     // the first n pages of a block being merged are unlinked
    | WholeBlock(head: nat)         // a whole superpage is off both lists

  // ----- arithmetic of blocks

  function Head(p: nat): (h: nat)
    ensures h % 512 == 0 && h <= p < h + 512
  {
    (p / PAGES_PER_2MB) * PAGES_PER_2MB
  }

  lemma HeadUnique(p: nat, h: nat)
    requires h % 512 == 0 && h <= p < h + 512
    ensures Head(p) == h
  {}

  predicate InBlock(h: nat, p: nat) { h <= p < h + 512 }

  function SatSub(c: nat): nat { if c == 0 then 0 else c - 1 }

  function SatAdd(c: nat): nat { if c >= U16_MAX then U16_MAX else c + 1 }

  /** The counter is a 16-bit word: it counts as that word does and stops where it would wrap. */
  lemma CounterIsWord(c: nat)
    requires c < 65536
    ensures SatAdd(c) == if (c + 1) % 65536 == 0 then c else (c + 1) % 65536
    ensures SatSub(c) == if c == 0 then c else (c - 1) % 65536
  {}

  // ----- sequences

  predicate NoDup(s: seq<nat>) {
    forall i, j :: 0 <= i < j < |s| ==> s[i] != s[j]
  }

  /** `s` with positions lo..hi overwritten by `x`. */
  function Fill<T>(s: seq<T>, lo: nat, hi: nat, x: T): (r: seq<T>)
    requires lo <= hi <= |s|
    ensures |r| == |s|
    ensures forall i :: 0 <= i < |s| ==> r[i] == if lo <= i < hi then x else s[i]
  {
    s[..lo] + seq(hi - lo, _ => x) + s[hi..]
  }

  /** `s` without the values lo..hi, order kept. */
  function Without(s: seq<nat>, lo: nat, hi: nat): seq<nat> {
    if s == [] then []
    else if lo <= s[0] < hi then Without(s[1..], lo, hi)
    else [s[0]] + Without(s[1..], lo, hi)
  }

  /** h+n-1, ..., h+1, h: the order in which n successive pushes leave a block. */
  function Descending(h: nat, n: nat): (s: seq<nat>)
    ensures |s| == n
    ensures forall i :: 0 <= i < n ==> s[i] == h + n - 1 - i
  {
    seq(n, i requires 0 <= i < n => h + n - 1 - i)
  }

  /** The number of pages in lo..hi whose state is Free4KB. */
  function CountFree(state: seq<PageState>, lo: nat, hi: nat): (n: nat)
    requires lo <= hi <= |state|
    ensures n <= hi - lo
    decreases hi - lo
  {
    if lo == hi then 0
    else CountFree(state, lo, hi - 1) + (if state[hi - 1] == Free4KB then 1 else 0)
  }

  predicate AllFree(state: seq<PageState>, lo: nat, hi: nat)
    requires lo <= hi <= |state|
  {
    forall p :: lo <= p < hi ==> state[p] == Free4KB
  }

  // ----- the invariant

  predicate Shaped(a: Heap) {
    && |a.counter| == |a.state|
    && |a.owner| == |a.state|
    && |a.state| % 512 == 0
  }

  ghost predicate List4Ok(a: Heap)
    requires Shaped(a)
  {
    && NoDup(a.free4)
    && (forall p :: p in a.free4 ==> p < |a.state| && a.owner[p] == List4)
    && (forall p :: 0 <= p < |a.state| && a.owner[p] == List4 ==> p in a.free4)
  }

  ghost predicate List2Ok(a: Heap)
    requires Shaped(a)
  {
    && NoDup(a.free2)
    && (forall h :: h in a.free2 ==> h < |a.state| && h % 512 == 0 && a.owner[h] == List2)
    && (forall h :: 0 <= h < |a.state| && h % 512 == 0 && a.owner[h] == List2 ==> h in a.free2)
  }

  predicate IsWholeOwner(o: Owner) { o == List2 || o == User2 }

  /** Block `h` is currently one superpage. */
  predicate Whole(a: Heap, h: nat)
    requires Shaped(a) && h < |a.state|
  {
    IsWholeOwner(a.owner[h]) || a.state[h] == Free2MB
  }

  /** Every page's state word agrees with its owner, and a superpage has one owner. */
  predicate PageOk(a: Heap, p: nat)
    requires Shaped(a) && p < |a.state|
  {
    var h := Head(p);
    && (IsWholeOwner(a.owner[p]) || IsWholeOwner(a.owner[h]) ==> a.owner[p] == a.owner[h])
    && (Whole(a, h) && p != h ==> a.state[p] == Unavailable || a.state[p] == Free4KB)
    && match a.owner[p]
       case Reserved => a.state[p] == Unavailable
       case List4 => a.state[p] == Free4KB
       case User4 => a.state[p] == Allocated
       case List2 => p == h ==> a.state[p] == Free2MB
       case User2 => p == h ==> a.state[p] == Allocated
       case Moving => if Whole(a, h) then a.owner[h] == Moving else a.state[p] == Free4KB
  }

  /** The counter on the head page of block `h` against what it is meant to count. */
  predicate BlockOk(a: Heap, h: nat)
    requires Shaped(a) && h % 512 == 0 && h + 512 <= |a.state|
  {
    && (Whole(a, h) ==> a.counter[h] == 512 && h in a.tracked)
    && (!Whole(a, h) ==> a.counter[h] <= CountFree(a.state, h, h + 512))
    && (!Whole(a, h) && h in a.tracked ==> a.counter[h] == CountFree(a.state, h, h + 512))
    && (h in a.tracked ==> forall p :: h <= p < h + 512 ==> a.owner[p] != Reserved)
  }

  ghost predicate PagesOk(a: Heap)
    requires Shaped(a)
  {
    forall p :: 0 <= p < |a.state| ==> PageOk(a, p)
  }

  ghost predicate BlocksOk(a: Heap)
    requires Shaped(a)
  {
    forall h :: 0 <= h < |a.state| && h % 512 == 0 ==> BlockOk(a, h)
  }

  predicate Flying(f: InFlight, p: nat) {
    match f
    case Nothing => false
    case OnePage(q) => p == q
    case Prefix(h, n) => h <= p < h + n
    case WholeBlock(h) => h <= p < h + 512
  }

  ghost predicate FlightOk(a: Heap, f: InFlight)
    requires Shaped(a)
  {
    && (forall p :: 0 <= p < |a.state| ==> (a.owner[p] == Moving <==> Flying(f, p)))
    && match f
       case Nothing => true
       case OnePage(p) => p < |a.state| && !Whole(a, Head(p))
       case Prefix(h, n) => n <= 512 && h % 512 == 0 && h + 512 <= |a.state|
                            && AllFree(a.state, h, h + 512)
                            && forall p :: h + n <= p < h + 512 ==> a.owner[p] == List4
       case WholeBlock(h) => h % 512 == 0 && h + 512 <= |a.state| && a.state[h] == Free2MB
  }

  /** The structural invariant, with `f` in the hands of the holder of `page_array`. */
  ghost predicate Inv(a: Heap, f: InFlight) {
    Shaped(a) && List4Ok(a) && List2Ok(a) && PagesOk(a) && BlocksOk(a) && FlightOk(a, f)
  }

  /** No broken block is ready to merge: what sequential calls leave behind. */
  ghost predicate Settled(a: Heap)
    requires Shaped(a)
  {
    forall h :: 0 <= h < |a.state| && h % 512 == 0 && !Whole(a, h) ==> a.counter[h] < 512
  }

  // ----- the steps

  /** alloc_4kb's critical section on a non-empty list. */
  function TakeFree4(a: Heap): (b: Heap)
    requires Shaped(a) && a.free4 != [] && a.free4[0] < |a.state|
  {
    var p := a.free4[0];
    var h := Head(p);
    a.(free4 := a.free4[1..],
       state := a.state[p := Allocated],
       counter := a.counter[h := SatSub(a.counter[h])],
       owner := a.owner[p := User4])
  }

  /** alloc_2mb's critical section on a non-empty list. */
  function TakeFree2(a: Heap): (b: Heap)
    requires Shaped(a) && a.free2 != [] && a.free2[0] + 512 <= |a.state|
  {
    var h := a.free2[0];
    a.(free2 := a.free2[1..],
       state := a.state[h := Allocated],
       owner := Fill(a.owner, h, h + 512, User2))
  }

  /** split_2mb up to the release of the 2 MiB list. */
  function DetachFree2(a: Heap): (b: Heap)
    requires Shaped(a) && a.free2 != [] && a.free2[0] + 512 <= |a.state|
  {
    var h := a.free2[0];
    a.(free2 := a.free2[1..], owner := Fill(a.owner, h, h + 512, Moving))
  }

  /** split_2mb once it holds the 4 KiB list: all 512 pages pushed in ascending order. */
  function Scatter(a: Heap, h: nat): (b: Heap)
    requires Shaped(a) && h + 512 <= |a.state|
  {
    a.(counter := a.counter[h := 512],
       state := Fill(a.state, h, h + 512, Free4KB),
       free4 := Descending(h, 512) + a.free4,
       owner := Fill(a.owner, h, h + 512, List4))
  }

  /** free_4kb up to the lock of the 4 KiB list. */
  function MarkFreed(a: Heap, p: nat): (b: Heap)
    requires Shaped(a) && p < |a.state|
  {
    var h := Head(p);
    a.(state := a.state[p := Free4KB],
       counter := a.counter[h := SatAdd(a.counter[h])],
       owner := a.owner[p := Moving])
  }

  /** free_4kb's push onto the 4 KiB list. */
  function PushFreed(a: Heap, p: nat): (b: Heap)
    requires Shaped(a) && p < |a.state|
  {
    a.(free4 := [p] + a.free4, owner := a.owner[p := List4])
  }

  /** One iteration of try_merge's unlink loop. */
  function UnlinkPage(a: Heap, p: nat): (b: Heap)
    requires Shaped(a) && p < |a.state|
  {
    a.(free4 := Without(a.free4, p, p + 1), owner := a.owner[p := Moving])
  }

  /** try_merge's conversion of a fully unlinked block. */
  function MarkMerged(a: Heap, h: nat): (b: Heap)
    requires Shaped(a) && h < |a.state|
  {
    a.(state := a.state[h := Free2MB], counter := a.counter[h := 512], tracked := a.tracked + {h})
  }

  /** free_2mb up to the lock of the 2 MiB list. */
  function MarkFreed2(a: Heap, h: nat): (b: Heap)
    requires Shaped(a) && h + 512 <= |a.state|
  {
    a.(state := a.state[h := Free2MB],
       counter := a.counter[h := 512],
       owner := Fill(a.owner, h, h + 512, Moving))
  }

  /** The push onto the 2 MiB list that ends both free_2mb and try_merge. */
  function PushBlock(a: Heap, h: nat): (b: Heap)
    requires Shaped(a) && h + 512 <= |a.state|
  {
    a.(free2 := [h] + a.free2, owner := Fill(a.owner, h, h + 512, List2))
  }

  // ----- whole operations, run without interference

  /** The unlink loop after n iterations. */
  function UnlinkUpTo(a: Heap, h: nat, n: nat): (b: Heap)
    requires Shaped(a) && h + n <= |a.state|
    ensures Shaped(b) && |b.state| == |a.state|
  {
    a.(free4 := Without(a.free4, h, h + n), owner := Fill(a.owner, h, h + n, Moving))
  }

  function TryMerge(a: Heap, p: nat): (b: Heap)
    requires Shaped(a) && p < |a.state|
  {
    var h := Head(p);
    if AllFree(a.state, h, h + 512) then
      PushBlock(MarkMerged(UnlinkUpTo(a, h, 512), h), h)
    else a
  }

  predicate CanFree4(a: Heap, p: nat)
    requires Shaped(a)
  {
    p >= |a.state| || a.state[p] == Free4KB || a.owner[p] == User4
  }

  function Free4(a: Heap, p: nat): (b: Heap)
    requires Shaped(a)
  {
    if p >= |a.state| || a.state[p] == Free4KB then a
    else
      var b := PushFreed(MarkFreed(a, p), p);
      if b.counter[Head(p)] == 512 then TryMerge(b, p) else b
  }

  predicate CanFree2(a: Heap, p: nat)
    requires Shaped(a)
  {
    p < |a.state| && (a.state[Head(p)] == Free2MB || a.owner[Head(p)] == User2)
  }

  function Free2(a: Heap, p: nat): (b: Heap)
    requires Shaped(a) && p < |a.state|
  {
    var h := Head(p);
    if a.state[h] == Free2MB then a else PushBlock(MarkFreed2(a, h), h)
  }

  function Split(a: Heap): (b: Heap)
    requires Shaped(a) && a.free2 != [] && a.free2[0] + 512 <= |a.state|
  {
    Scatter(DetachFree2(a), a.free2[0])
  }

  predicate HeadsInRange(a: Heap)
    requires Shaped(a)
  {
    && (a.free4 != [] ==> a.free4[0] < |a.state|)
    && (a.free2 != [] ==> a.free2[0] + 512 <= |a.state|)
  }

  function Alloc4(a: Heap): (r: (Heap, Option<nat>))
    requires Shaped(a) && HeadsInRange(a)
  {
    if a.free4 != [] then (TakeFree4(a), Some(a.free4[0]))
    else if a.free2 == [] then (a, None)
    else var b := Split(a); (TakeFree4(b), Some(b.free4[0]))
  }

  function Alloc2(a: Heap): (r: (Heap, Option<nat>))
    requires Shaped(a) && HeadsInRange(a)
  {
    if a.free2 == [] then (a, None) else (TakeFree2(a), Some(a.free2[0]))
  }
}
