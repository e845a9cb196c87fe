/** The boot-time carve: which pages and superpages the available areas of the memory map become. */
module Carve {
  import opened PageModel
  import opened HeapSteps
  import opened Sequential
  import opened Links
  import opened Multiboot2
  import opened Bits

  function Max(x: nat, y: nat): nat { if x < y then y else x }
  function Min(x: nat, y: nat): nat { if x < y then x else y }

  /** The frames lo..hi that mark_available visits for one area. */
  function Lo(a: MemoryArea, kernelPfn: nat): nat { Max(a.baseAddr / PAGE_SIZE_4KB, kernelPfn) }
  function Hi(a: MemoryArea, total: nat): nat { Min((a.baseAddr + a.length) / PAGE_SIZE_4KB, total) }

  predicate Available(a: MemoryArea) { a.typ == 1 }

  /** Block h lies wholly in lo..hi. */
  predicate FullBlock(lo: nat, hi: nat, h: nat) { lo <= h && h + 512 <= hi }

  /** What a page of the range lo..hi becomes. */
  function CarvedPage(lo: nat, hi: nat, p: nat): PageState {
    if FullBlock(lo, hi, Head(p)) then (if p == Head(p) then Free2MB else Unavailable) else Free4KB
  }

  function CarveWord(w: PageMetadata, lo: nat, hi: nat, p: nat): PageMetadata {
    if lo <= p < hi then
      w.(state := CarvedPage(lo, hi, p),
         counter := if CarvedPage(lo, hi, p) == Free2MB then 512 else w.counter)
    else w
  }

  function CarveRange(m: seq<PageMetadata>, lo: nat, hi: nat): (r: seq<PageMetadata>)
    requires hi <= |m|
    ensures |r| == |m|
    ensures forall p :: 0 <= p < |m| ==> r[p] == CarveWord(m[p], lo, hi, p)
  {
    seq(|m|, p requires 0 <= p < |m| => CarveWord(m[p], lo, hi, p))
  }

  function CarveArea(m: seq<PageMetadata>, a: MemoryArea, kernelPfn: nat): (r: seq<PageMetadata>)
    ensures |r| == |m|
  {
    if Available(a) then CarveRange(m, Lo(a, kernelPfn), Hi(a, |m|)) else m
  }

  /** The metadata after the first n areas. */
  function CarveAll(total: nat, areas: seq<MemoryArea>, kernelPfn: nat, n: nat): (r: seq<PageMetadata>)
    requires n <= |areas|
    ensures |r| == total
  {
    if n == 0 then seq(total, _ => FRESH_PAGE)
    else CarveArea(CarveAll(total, areas, kernelPfn, n - 1), areas[n - 1], kernelPfn)
  }

  // ----- the loop of mark_available

  /** Frames below n are carved; n is never inside a block that will become a superpage. */
  ghost predicate CarvedUpTo(s: seq<PageMetadata>, m: seq<PageMetadata>, lo: nat, hi: nat, n: nat) {
    && |s| == |m| && lo <= n && (n <= hi || n == lo)
    && (Head(n) < n ==> !FullBlock(lo, hi, Head(n)))
    && forall p :: 0 <= p < |m| ==> s[p] == if p < n then CarveWord(m[p], lo, hi, p) else m[p]
  }

  lemma AlignedFrame(pfn: nat)
    ensures (pfn * PAGE_SIZE_4KB) % PAGE_SIZE_2MB == 0 <==> pfn % 512 == 0
  {}

  /** What the loop body must write at frame n. */
  lemma CarveStep(m: seq<PageMetadata>, lo: nat, hi: nat, n: nat)
    requires lo <= n < hi <= |m|
    requires Head(n) < n ==> !FullBlock(lo, hi, Head(n))
    ensures !(n % 512 == 0 && n + 512 <= hi) ==>
              CarveWord(m[n], lo, hi, n) == m[n].(state := Free4KB)
              && (Head(n + 1) < n + 1 ==> !FullBlock(lo, hi, Head(n + 1)))
    ensures n % 512 == 0 ==> Head(n) == n && Head(n + 512) == n + 512
  {
    if Head(n + 1) < n + 1 { HeadUnique(n, Head(n + 1)); }
    if n % 512 == 0 {
      HeadUnique(n, n);
      HeadUnique(n + 512, n + 512);
    }
  }

  // ----- areas that do not overlap

  predicate Apart(a: MemoryArea, b: MemoryArea) {
    a.baseAddr + a.length <= b.baseAddr || b.baseAddr + b.length <= a.baseAddr
  }

  ghost predicate DisjointAreas(areas: seq<MemoryArea>) {
    forall i, j :: 0 <= i < j < |areas| && Available(areas[i]) && Available(areas[j]) ==> Apart(areas[i], areas[j])
  }

  predicate Covers(a: MemoryArea, kernelPfn: nat, total: nat, p: nat) {
    Available(a) && Lo(a, kernelPfn) <= p < Hi(a, total)
  }

  /** No page is covered by two areas. */
  lemma CoversOnce(areas: seq<MemoryArea>, kernelPfn: nat, total: nat, i: nat, j: nat, p: nat)
    requires DisjointAreas(areas) && i < |areas| && j < |areas| && i != j
    requires Covers(areas[i], kernelPfn, total, p)
    ensures !Covers(areas[j], kernelPfn, total, p)
  {
    var x, y := Min(i, j), Max(i, j);
    assert Available(areas[j]) ==> Apart(areas[x], areas[y]);
  }

  /** A page no area covers keeps its initial word. */
  lemma {:induction false} CarveNone(total: nat, areas: seq<MemoryArea>, k: nat, n: nat, p: nat)
    requires n <= |areas| && p < total
    requires forall i :: 0 <= i < n ==> !Covers(areas[i], k, total, p)
    ensures CarveAll(total, areas, k, n)[p] == FRESH_PAGE
  {
    if n > 0 { CarveNone(total, areas, k, n - 1, p); }
  }

  /** A page covered by area i is carved as that area alone prescribes. */
  lemma {:induction false} CarveOne(total: nat, areas: seq<MemoryArea>, k: nat, n: nat, i: nat, p: nat)
    requires DisjointAreas(areas) && i < n <= |areas| && p < total
    requires Covers(areas[i], k, total, p)
    ensures CarveAll(total, areas, k, n)[p] == CarveWord(FRESH_PAGE, Lo(areas[i], k), Hi(areas[i], total), p)
  {
    if i == n - 1 {
      forall j | 0 <= j < n - 1 ensures !Covers(areas[j], k, total, p) {
        CoversOnce(areas, k, total, i, j, p);
      }
      CarveNone(total, areas, k, n - 1, p);
    } else {
      CarveOne(total, areas, k, n - 1, i, p);
      CoversOnce(areas, k, total, i, n - 1, p);
    }
  }

  // ----- the carved array as a starting state

  /** Descending frame numbers below n in state s: what build_lists leaves on a list. */
  function DescWhere(m: seq<PageMetadata>, s: PageState, n: nat): seq<nat>
    requires n <= |m|
  {
    if n == 0 then []
    else if m[n - 1].state == s then [n - 1] + DescWhere(m, s, n - 1)
    else DescWhere(m, s, n - 1)
  }

  lemma {:induction false} DescWhereFacts(m: seq<PageMetadata>, s: PageState, n: nat)
    requires n <= |m|
    ensures NoDup(DescWhere(m, s, n))
    ensures forall p: nat :: p in DescWhere(m, s, n) <==> p < n && m[p].state == s
  {
    if n > 0 {
      DescWhereFacts(m, s, n - 1);
      if m[n - 1].state == s { PushFacts(DescWhere(m, s, n - 1), n - 1); }
    }
  }

  /** Carving sets states and counters and no links. */
  lemma {:induction false} CarveNoLinks(total: nat, areas: seq<MemoryArea>, k: nat, n: nat, p: nat)
    requires n <= |areas| && p < total
    ensures NoLinks(CarveAll(total, areas, k, n)[p])
  {
    if n > 0 { CarveNoLinks(total, areas, k, n - 1, p); }
  }

  /** Every page that build_lists leaves on neither list is without links. */
  ghost predicate ListedOnly(pages: seq<PageMetadata>, free4: seq<nat>, free2: seq<nat>) {
    forall p: nat :: p < |pages| && p !in free4 && p !in free2 ==> NoLinks(pages[p])
  }

  lemma UnlistedKept(m: seq<PageMetadata>, n: seq<PageMetadata>)
    requires |n| == |m| && forall p :: 0 <= p < |m| ==> NoLinks(m[p])
    requires forall p :: 0 <= p < |m| && m[p].state != Free4KB && m[p].state != Free2MB ==> n[p] == m[p]
    ensures ListedOnly(n, BootHeap(m).free4, BootHeap(m).free2)
  {
    DescWhereFacts(m, Free4KB, |m|);
    DescWhereFacts(m, Free2MB, |m|);
  }

  /** A page word that carving can leave behind, given the whole array. */
  predicate WordOk(m: seq<PageMetadata>, p: nat)
    requires p < |m| && |m| % 512 == 0
  {
    match m[p].state
    case Unavailable => m[p].counter == 0
    case Free4KB => m[p].counter == 0 && m[Head(p)].state != Free2MB
    case Free2MB => p % 512 == 0 && m[p].counter == 512
    case Allocated => false
  }

  ghost predicate Carved(m: seq<PageMetadata>) {
    |m| % 512 == 0 && forall p :: 0 <= p < |m| ==> WordOk(m, p)
  }

  function BootOwner(m: seq<PageMetadata>, p: nat): Owner
    requires p < |m|
  {
    if m[p].state == Free4KB then List4
    else if m[Head(p)].state == Free2MB then List2
    else Reserved
  }

  function BootHeap(m: seq<PageMetadata>): (a: Heap)
  {
    Heap(seq(|m|, p requires 0 <= p < |m| => m[p].state),
         seq(|m|, p requires 0 <= p < |m| => m[p].counter),
         DescWhere(m, Free4KB, |m|),
         DescWhere(m, Free2MB, |m|),
         seq(|m|, p requires 0 <= p < |m| => BootOwner(m, p)),
         set p | 0 <= p < |m| && m[p].state == Free2MB)
  }

  /** The state build_lists sets up satisfies everything the calls rely on. */
  lemma BootHeapQuiet(m: seq<PageMetadata>)
    requires Carved(m)
    ensures Quiet(BootHeap(m))
  {
    var a := BootHeap(m);
    forall p | 0 <= p < |m| ensures PageOk(a, p) { BootPage(m, p); }
    forall h | 0 <= h < |m| && h % 512 == 0 ensures BlockOk(a, h) { BootBlock(m, h); }
    BootLists(m);
    forall h | 0 <= h < |m| && h % 512 == 0 && !Whole(a, h) ensures a.counter[h] < 512 {
      assert WordOk(m, h);
    }
  }

  lemma BootPage(m: seq<PageMetadata>, p: nat)
    requires Carved(m) && p < |m|
    ensures PageOk(BootHeap(m), p)
  {
    assert WordOk(m, p) && WordOk(m, Head(p));
    HeadUnique(Head(p), Head(p));
  }

  lemma BootLists(m: seq<PageMetadata>)
    requires Carved(m)
    ensures List4Ok(BootHeap(m)) && List2Ok(BootHeap(m))
  {
    var a := BootHeap(m);
    DescWhereFacts(m, Free4KB, |m|);
    DescWhereFacts(m, Free2MB, |m|);
    forall h | h in a.free2 ensures h < |m| && h % 512 == 0 && a.owner[h] == List2 {
      assert WordOk(m, h);
      HeadUnique(h, h);
    }
    forall h | 0 <= h < |m| && h % 512 == 0 && a.owner[h] == List2 ensures h in a.free2 {
      HeadUnique(h, h);
    }
  }

  ghost predicate SameWords(m: seq<PageMetadata>, n: seq<PageMetadata>) {
    |m| == |n| && forall p :: 0 <= p < |m| ==> m[p].state == n[p].state && m[p].counter == n[p].counter
  }

  lemma BootRefines(m: seq<PageMetadata>, n: seq<PageMetadata>, h4: Option<nat>, h2: Option<nat>)
    requires |m| % 512 == 0 && SameWords(n, m)
    requires Linked(n, h4, DescWhere(m, Free4KB, |m|)) && Linked(n, h2, DescWhere(m, Free2MB, |m|))
    ensures Refines(n, h4, h2, BootHeap(m))
  {}

  lemma {:induction false} CountZero(s: seq<PageState>, lo: nat, hi: nat)
    requires lo <= hi <= |s|
    ensures CountFree(s, lo, hi) == 0 <==> forall p :: lo <= p < hi ==> s[p] != Free4KB
    decreases hi - lo
  {
    if lo < hi { CountZero(s, lo, hi - 1); }
  }

  /** Carving sets no counter for single pages, so right after boot the counter of a block that is not
      a superpage equals its number of free pages exactly when it has none. */
  lemma BootCounterExactIff(m: seq<PageMetadata>, h: nat)
    requires Carved(m) && h < |m| && h % 512 == 0 && m[h].state != Free2MB
    ensures var a := BootHeap(m);
            a.counter[h] == CountFree(a.state, h, h + 512) <==> forall p :: h <= p < h + 512 ==> p !in a.free4
  {
    var a := BootHeap(m);
    assert WordOk(m, h);
    DescWhereFacts(m, Free4KB, |m|);
    CountZero(a.state, h, h + 512);
    assert forall p :: h <= p < h + 512 ==> (a.state[p] == Free4KB <==> p in a.free4);
  }

  lemma BootBlock(m: seq<PageMetadata>, h: nat)
    requires Carved(m) && h < |m| && h % 512 == 0
    ensures BlockOk(BootHeap(m), h)
  {
    assert WordOk(m, h);
    HeadUnique(h, h);
    forall p | h <= p < h + 512 && m[h].state == Free2MB ensures BootHeap(m).owner[p] != Reserved {
      HeadUnique(p, h);
    }
  }

  /** Carving disjoint areas never lets one area's marking overwrite another's. */
  lemma CarveAllCarved(total: nat, areas: seq<MemoryArea>, k: nat)
    requires DisjointAreas(areas) && total % 512 == 0
    ensures Carved(CarveAll(total, areas, k, |areas|))
  {
    var m := CarveAll(total, areas, k, |areas|);
    forall p | 0 <= p < total ensures WordOk(m, p) {
      if i :| 0 <= i < |areas| && Covers(areas[i], k, total, p) {
        CarveOne(total, areas, k, |areas|, i, p);
        var h := Head(p);
        if m[h].state == Free2MB && m[p].state == Free4KB {
          BlockCovered(total, areas, k, h, p, i);
        }
      } else {
        CarveNone(total, areas, k, |areas|, p);
      }
    }
  }

  /** The head of a block is Free2MB only if one area covers the whole block. */
  lemma BlockCovered(total: nat, areas: seq<MemoryArea>, k: nat, h: nat, p: nat, i: nat)
    requires DisjointAreas(areas) && h == Head(p) && h < total && p < total && i < |areas|
    requires Covers(areas[i], k, total, p)
    requires CarveAll(total, areas, k, |areas|)[h].state == Free2MB
    ensures FullBlock(Lo(areas[i], k), Hi(areas[i], total), h)
  {
    var j := HeadCover(total, areas, k, h);
    assert Covers(areas[j], k, total, p);
    if i != j { CoversOnce(areas, k, total, i, j, p); }
  }

  lemma HeadCover(total: nat, areas: seq<MemoryArea>, k: nat, h: nat) returns (j: nat)
    requires DisjointAreas(areas) && h < total && h % 512 == 0
    requires CarveAll(total, areas, k, |areas|)[h].state == Free2MB
    ensures j < |areas| && Available(areas[j]) && FullBlock(Lo(areas[j], k), Hi(areas[j], total), h)
  {
    if i :| 0 <= i < |areas| && Covers(areas[i], k, total, h) {
      CarveOne(total, areas, k, |areas|, i, h);
      HeadUnique(h, h);
      j := i;
    } else {
      CarveNone(total, areas, k, |areas|, h);
      assert false;
    }
  }

  // ----- the sizes computed by init

  /** The highest end address among the first n areas that are available. */
  function ActualMax(areas: seq<MemoryArea>, n: nat): (r: nat)
    requires n <= |areas|
  {
    if n == 0 then 0
    else if Available(areas[n - 1]) then
      Max(ActualMax(areas, n - 1), areas[n - 1].baseAddr + areas[n - 1].length)
    else ActualMax(areas, n - 1)
  }

  function MetadataSize(totalPages: nat, entryBytes: nat): nat { totalPages * entryBytes }

  /** No sum or rounding in init leaves the 64-bit range. */
  predicate FitsWord(areas: seq<MemoryArea>, kernelSymbol: nat, entryBytes: nat) {
    && ActualMax(areas, |areas|) + PAGE_SIZE_2MB <= WORD
    && kernelSymbol + PAGE_SIZE_4KB <= WORD
    && RoundUp(kernelSymbol, PAGE_SIZE_4KB) + MetadataSize(TotalPages(areas), entryBytes) + PAGE_SIZE_4KB <= WORD
  }

  function TotalPages(areas: seq<MemoryArea>): nat
    requires ActualMax(areas, |areas|) + PAGE_SIZE_2MB <= WORD
  {
    RoundUp(ActualMax(areas, |areas|), PAGE_SIZE_2MB) / PAGE_SIZE_4KB
  }

  /** The end of the kernel image and of the metadata array placed behind it. */
  function FinalKernelEnd(areas: seq<MemoryArea>, kernelSymbol: nat, entryBytes: nat): nat
    requires FitsWord(areas, kernelSymbol, entryBytes)
  {
    RoundUp(RoundUp(kernelSymbol, PAGE_SIZE_4KB) + MetadataSize(TotalPages(areas), entryBytes), PAGE_SIZE_4KB)
  }

  lemma {:induction false} MaxIsBound(areas: seq<MemoryArea>, n: nat, i: nat)
    requires i < n <= |areas| && Available(areas[i])
    ensures areas[i].baseAddr + areas[i].length <= ActualMax(areas, n)
  {
    if i < n - 1 { MaxIsBound(areas, n - 1, i); }
  }

  /** And it is attained: the end of some area of type 1, or 0 if there is none. */
  lemma {:induction false} MaxIsSomeEnd(areas: seq<MemoryArea>, n: nat)
    requires n <= |areas|
    ensures ActualMax(areas, n) == 0
            || exists i :: 0 <= i < n && areas[i].typ == 1 && ActualMax(areas, n) == areas[i].baseAddr + areas[i].length
  {
    if n > 0 {
      MaxIsSomeEnd(areas, n - 1);
      if areas[n - 1].typ == 1 { assert areas[n - 1].typ == 1; }
    }
  }

  /** t pages reach the end of every area of type 1. */
  predicate Reaches(areas: seq<MemoryArea>, t: nat) {
    forall i :: 0 <= i < |areas| && areas[i].typ == 1 ==> areas[i].baseAddr + areas[i].length <= t * 4096
  }

  /** The array has the least number of whole superpages that reach the end of every area of type 1. */
  lemma TotalIsLeast(areas: seq<MemoryArea>)
    requires ActualMax(areas, |areas|) + PAGE_SIZE_2MB <= WORD
    ensures TotalPages(areas) % 512 == 0 && Reaches(areas, TotalPages(areas))
    ensures forall t: nat :: t % 512 == 0 && Reaches(areas, t) ==> TotalPages(areas) <= t
  {
    var max := ActualMax(areas, |areas|);
    assert TotalPages(areas) % 512 == 0 && max <= TotalPages(areas) * 4096 by { EnoughPages(max); }
    forall i | 0 <= i < |areas| && areas[i].typ == 1
      ensures areas[i].baseAddr + areas[i].length <= TotalPages(areas) * 4096
    {
      MaxIsBound(areas, |areas|, i);
    }
    forall t: nat | t % 512 == 0 && Reaches(areas, t) ensures TotalPages(areas) <= t {
      assert max <= t * 4096 by { MaxReached(areas, t); }
      LeastPages(max, t);
    }
  }

  lemma EnoughPages(max: nat)
    ensures var total := RoundUp(max, PAGE_SIZE_2MB) / PAGE_SIZE_4KB; total % 512 == 0 && max <= total * 4096
  {
    RoundUpIsLeast(max, PAGE_SIZE_2MB);
    WholeSuperpages(RoundUp(max, PAGE_SIZE_2MB));
  }

  lemma MaxReached(areas: seq<MemoryArea>, t: nat)
    requires Reaches(areas, t)
    ensures ActualMax(areas, |areas|) <= t * 4096
  {
    MaxIsSomeEnd(areas, |areas|);
  }

  lemma LeastPages(max: nat, t: nat)
    requires t % 512 == 0 && max <= t * 4096
    ensures RoundUp(max, PAGE_SIZE_2MB) / PAGE_SIZE_4KB <= t
  {
    AlignedFrame(t);
    RoundUpIsLeast(max, PAGE_SIZE_2MB);
  }

  /** The array has whole superpages only and reaches past every available area, so the bound check
      in mark_available never cuts an area short. */
  lemma TotalCovers(areas: seq<MemoryArea>)
    requires ActualMax(areas, |areas|) + PAGE_SIZE_2MB <= WORD
    ensures TotalPages(areas) % 512 == 0
    ensures forall i :: 0 <= i < |areas| && Available(areas[i]) ==>
              Hi(areas[i], TotalPages(areas)) == (areas[i].baseAddr + areas[i].length) / PAGE_SIZE_4KB
  {
    var max := ActualMax(areas, |areas|);
    RoundUpIsLeast(max, PAGE_SIZE_2MB);
    WholeSuperpages(RoundUp(max, PAGE_SIZE_2MB));
    forall i | 0 <= i < |areas| && Available(areas[i])
      ensures (areas[i].baseAddr + areas[i].length) / PAGE_SIZE_4KB <= TotalPages(areas)
    {
      MaxIsBound(areas, |areas|, i);
      FramesMonotone(areas[i].baseAddr + areas[i].length, RoundUp(max, PAGE_SIZE_2MB));
    }
  }

  lemma WholeSuperpages(r: nat)
    requires r % PAGE_SIZE_2MB == 0
    ensures (r / PAGE_SIZE_4KB) % 512 == 0
  {}

  lemma FramesMonotone(x: nat, y: nat)
    requires x <= y
    ensures x / PAGE_SIZE_4KB <= y / PAGE_SIZE_4KB
  {}

  /** Everything handed out later lies above the kernel image and the metadata array: the array of
      total * entryBytes bytes starts at the first page boundary behind the image, and the kernel ends at
      the first one behind the array. */
  lemma KernelBelow(areas: seq<MemoryArea>, kernelSymbol: nat, entryBytes: nat)
    requires FitsWord(areas, kernelSymbol, entryBytes)
    ensures var start := RoundUp(kernelSymbol, PAGE_SIZE_4KB);
            var end := FinalKernelEnd(areas, kernelSymbol, entryBytes);
            start % 4096 == 0 && kernelSymbol <= start < kernelSymbol + 4096
            && end % 4096 == 0
            && start + TotalPages(areas) * entryBytes <= end < start + TotalPages(areas) * entryBytes + 4096
  {
    RoundUpIsLeast(kernelSymbol, PAGE_SIZE_4KB);
    RoundUpIsLeast(RoundUp(kernelSymbol, PAGE_SIZE_4KB) + MetadataSize(TotalPages(areas), entryBytes), PAGE_SIZE_4KB);
  }

  /** The metadata array as init leaves it, before the lists are threaded. */
  function BootArray(areas: seq<MemoryArea>, kernelSymbol: nat, entryBytes: nat): seq<PageMetadata>
    requires FitsWord(areas, kernelSymbol, entryBytes)
  {
    CarveAll(TotalPages(areas), areas, FinalKernelEnd(areas, kernelSymbol, entryBytes) / PAGE_SIZE_4KB, |areas|)
  }

  // ----- areas of other types

  /** The first n areas without those that are not of type 1. */
  function OnlyRam(areas: seq<MemoryArea>, n: nat): seq<MemoryArea>
    requires n <= |areas|
  {
    if n == 0 then []
    else OnlyRam(areas, n - 1) + (if areas[n - 1].typ == 1 then [areas[n - 1]] else [])
  }

  lemma {:induction false} PrefixMax(xs: seq<MemoryArea>, ys: seq<MemoryArea>, n: nat)
    requires n <= |xs|
    ensures ActualMax(xs + ys, n) == ActualMax(xs, n)
  {
    if n > 0 { PrefixMax(xs, ys, n - 1); }
  }

  lemma {:induction false} PrefixCarve(total: nat, xs: seq<MemoryArea>, ys: seq<MemoryArea>, k: nat, n: nat)
    requires n <= |xs|
    ensures CarveAll(total, xs + ys, k, n) == CarveAll(total, xs, k, n)
  {
    if n > 0 { PrefixCarve(total, xs, ys, k, n - 1); }
  }

  lemma {:induction false} RamMax(areas: seq<MemoryArea>, n: nat)
    requires n <= |areas|
    ensures ActualMax(OnlyRam(areas, n), |OnlyRam(areas, n)|) == ActualMax(areas, n)
  {
    if n > 0 {
      RamMax(areas, n - 1);
      var ram := OnlyRam(areas, n - 1);
      if areas[n - 1].typ == 1 {
        PrefixMax(ram, [areas[n - 1]], |ram|);
      } else {
        assert OnlyRam(areas, n) == ram;
      }
    }
  }

  lemma {:induction false} RamCarve(total: nat, areas: seq<MemoryArea>, k: nat, n: nat)
    requires n <= |areas|
    ensures CarveAll(total, OnlyRam(areas, n), k, |OnlyRam(areas, n)|) == CarveAll(total, areas, k, n)
  {
    if n > 0 {
      RamCarve(total, areas, k, n - 1);
      var ram := OnlyRam(areas, n - 1);
      if areas[n - 1].typ == 1 {
        PrefixCarve(total, ram, [areas[n - 1]], k, |ram|);
      } else {
        assert OnlyRam(areas, n) == ram;
      }
    }
  }

  /** Areas of any other type change nothing: init computes the same sizes and the same array from the
      memory map without them. */
  lemma OtherTypesIgnored(areas: seq<MemoryArea>, kernelSymbol: nat, entryBytes: nat)
    requires FitsWord(areas, kernelSymbol, entryBytes)
    ensures var ram := OnlyRam(areas, |areas|);
            FitsWord(ram, kernelSymbol, entryBytes)
            && TotalPages(ram) == TotalPages(areas)
            && FinalKernelEnd(ram, kernelSymbol, entryBytes) == FinalKernelEnd(areas, kernelSymbol, entryBytes)
            && BootArray(ram, kernelSymbol, entryBytes) == BootArray(areas, kernelSymbol, entryBytes)
  {
    RamMax(areas, |areas|);
    SameSizes(OnlyRam(areas, |areas|), areas, kernelSymbol, entryBytes);
    RamCarve(TotalPages(areas), areas, FinalKernelEnd(areas, kernelSymbol, entryBytes) / PAGE_SIZE_4KB, |areas|);
  }

  /** The sizes depend on the map only through its highest available end. */
  lemma SameSizes(xs: seq<MemoryArea>, ys: seq<MemoryArea>, kernelSymbol: nat, entryBytes: nat)
    requires ActualMax(xs, |xs|) == ActualMax(ys, |ys|) && FitsWord(ys, kernelSymbol, entryBytes)
    ensures FitsWord(xs, kernelSymbol, entryBytes) && TotalPages(xs) == TotalPages(ys)
    ensures FinalKernelEnd(xs, kernelSymbol, entryBytes) == FinalKernelEnd(ys, kernelSymbol, entryBytes)
  {
    assert TotalPages(xs) == TotalPages(ys);
    assert MetadataSize(TotalPages(xs), entryBytes) == MetadataSize(TotalPages(ys), entryBytes);
  }

  // ----- the order of the lists

  predicate Falling(s: seq<nat>) {
    forall i, j :: 0 <= i < j < |s| ==> s[i] > s[j]
  }

  /** build_lists leaves the highest frame of each list first and the others in falling order. */
  lemma {:induction false} DescWhereFalls(m: seq<PageMetadata>, s: PageState, n: nat)
    requires n <= |m|
    ensures Falling(DescWhere(m, s, n))
  {
    if n > 0 {
      DescWhereFalls(m, s, n - 1);
      DescWhereFacts(m, s, n - 1);
      var rest := DescWhere(m, s, n - 1);
      assert forall i :: 0 <= i < |rest| ==> rest[i] in rest;
    }
  }
}
