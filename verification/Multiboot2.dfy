/** The boot information walk of section 3.6 of the Multiboot2 Specification: tags at 8-byte boundaries
    and the memory map entries of section 3.6.8. Memory is a byte sequence placed at address `base`. */
module Multiboot2 {
  import opened PageModel
  import opened Bits

  const TAG_TYPE_END: nat := 0
  const TAG_TYPE_MMAP: nat := 6

  type Byte = x: int | 0 <= x < 256

  // ----- little-endian words

  const WORD32: nat := 0x1_0000_0000

  /** Digit i of x in base 256. */
  function Digit(x: nat, i: nat): Byte {
    if i == 0 then x % 256 else Digit(x / 256, i - 1)
  }

  function Encode32(x: nat): (s: seq<Byte>)
    requires x < WORD32
    ensures |s| == 4
  {
    seq(4, i requires 0 <= i < 4 => Digit(x, i))
  }

  function Encode64(x: nat): (s: seq<Byte>)
    requires x < WORD
    ensures |s| == 8
  {
    Encode32(x % WORD32) + Encode32(x / WORD32)
  }

  function Read32(mem: seq<Byte>, off: nat): nat
    requires off + 4 <= |mem|
  {
    var w: nat := mem[off + 3];
    var z: nat := mem[off + 2] + 256 * w;
    var y: nat := mem[off + 1] + 256 * z;
    mem[off] + 256 * y
  }

  function Read64(mem: seq<Byte>, off: nat): nat
    requires off + 8 <= |mem|
  {
    Read32(mem, off) + WORD32 * Read32(mem, off + 4)
  }

  lemma ReadBack32(mem: seq<Byte>, off: nat, x: nat)
    requires x < WORD32 && off + 4 <= |mem| && mem[off..off + 4] == Encode32(x)
    ensures Read32(mem, off) == x
  {
    var s := Encode32(x);
    assert mem[off] == s[0] && mem[off + 1] == s[1] && mem[off + 2] == s[2] && mem[off + 3] == s[3];
    var y := x / 256;
    var z := y / 256;
    assert s[0] == x % 256;
    assert s[1] == Digit(x, 1) == Digit(y, 0) == y % 256;
    assert s[2] == Digit(x, 2) == Digit(y, 1) == Digit(z, 0) == z % 256;
    assert s[3] == Digit(x, 3) == Digit(y, 2) == Digit(z, 1) == (z / 256) % 256;
    assert z / 256 < 256;
  }

  lemma SubSlice(mem: seq<Byte>, off: nat, n: nat, i: nat, j: nat)
    requires i <= j <= n && off + n <= |mem|
    ensures mem[off..off + n][i..j] == mem[off + i..off + j]
  {
    var s, t := mem[off..off + n][i..j], mem[off + i..off + j];
    assert forall k :: 0 <= k < |s| ==> s[k] == t[k];
  }

  lemma ReadBack64(mem: seq<Byte>, off: nat, x: nat)
    requires x < WORD && off + 8 <= |mem| && mem[off..off + 8] == Encode64(x)
    ensures Read64(mem, off) == x
  {
    var m := mem[off..off + 8];
    assert m[..4] == mem[off..off + 4] && Encode64(x)[..4] == Encode32(x % WORD32);
    assert m[4..] == mem[off + 4..off + 8] && Encode64(x)[4..] == Encode32(x / WORD32);
    ReadBack32(mem, off, x % WORD32);
    ReadBack32(mem, off + 4, x / WORD32);
  }

  // ----- tags

  /** A tag without its header; `typ` is never the end marker. */
  datatype Tag = Tag(typ: nat, payload: seq<Byte>)

  function TagSize(t: Tag): nat { 8 + |t.payload| }

  /** The next multiple of 8. */
  function Align8(n: nat): nat {
    if n == 0 then 0 else if n <= 8 then 8 else 8 + Align8(n - 8)
  }

  lemma {:induction false} Align8Facts(n: nat)
    ensures Align8(n) % 8 == 0 && n <= Align8(n) < n + 8
  {
    if n > 8 { Align8Facts(n - 8); }
  }

  /** Where tag i starts, counted from the boot information structure. */
  function TagOffset(tags: seq<Tag>, i: nat): (off: nat)
    requires i <= |tags|
  {
    if i == 0 then 8 else TagOffset(tags, i - 1) + Align8(TagSize(tags[i - 1]))
  }

  /** The addresses of the first n tags, the end tag counting as the last one. */
  ghost function TagStarts(base: nat, tags: seq<Tag>, n: nat): (s: seq<nat>)
    requires n <= |tags| + 1
    ensures |s| == n
  {
    if n == 0 then [] else TagStarts(base, tags, n - 1) + [base + TagOffset(tags, n - 1)]
  }

  predicate TagAt(mem: seq<Byte>, off: nat, t: Tag) {
    && off + TagSize(t) <= |mem|
    && Read32(mem, off) == t.typ
    && Read32(mem, off + 4) == TagSize(t)
    && mem[off + 8..off + TagSize(t)] == t.payload
  }

  predicate HoldsTag(mem: seq<Byte>, tags: seq<Tag>, i: nat)
    requires i < |tags|
  {
    tags[i].typ != TAG_TYPE_END && TagAt(mem, TagOffset(tags, i), tags[i])
  }

  /** `mem` holds the given tags, then an end tag; padding and what follows are arbitrary. */
  ghost predicate Laid(mem: seq<Byte>, tags: seq<Tag>) {
    && (forall i :: 0 <= i < |tags| ==> HoldsTag(mem, tags, i))
    && TagOffset(tags, |tags|) + 8 <= |mem|
    && Read32(mem, TagOffset(tags, |tags|)) == TAG_TYPE_END
  }

  /** The index of the first tag of type `typ` among the first n. */
  function FirstOfType(tags: seq<Tag>, typ: nat, n: nat): (r: Option<nat>)
    requires n <= |tags|
    ensures r.Some? ==> r.value < n && tags[r.value].typ == typ && forall j :: 0 <= j < r.value ==> tags[j].typ != typ
    ensures r.None? ==> forall j :: 0 <= j < n ==> tags[j].typ != typ
  {
    if n == 0 then None
    else
      match FirstOfType(tags, typ, n - 1)
      case Some(j) => Some(j)
      case None => if tags[n - 1].typ == typ then Some(n - 1) else None
  }

  /** The step from one 8-aligned tag lands on the next boundary, and stands still only for a tag
      of size 0. */
  lemma NextTag(current: nat, size: nat)
    requires current % 8 == 0
    ensures RoundUp(current + size, 8) == current + Align8(size)
    ensures RoundUp(current + size, 8) % 8 == 0
    ensures RoundUp(current + size, 8) == current <==> size == 0
  {
    RoundUpIsLeast(current + size, 8);
    Align8Facts(size);
  }

  /** BootInfo::find_tag. The boot information starts at `base`; the result is an address. */
  method FindTag(mem: seq<Byte>, base: nat, tagType: nat, ghost tags: seq<Tag>)
    returns (r: Option<nat>, ghost visited: seq<nat>)
    requires base % 8 == 0 && base + |mem| + 8 <= WORD && Laid(mem, tags)
    ensures match FirstOfType(tags, tagType, |tags|)
            case None => r == None
            case Some(i) => r == Some(base + TagOffset(tags, i))
    ensures |visited| <= |tags| + 1 && visited == TagStarts(base, tags, |visited|)
  {
    var current: nat := base + 8;
    ghost var i: nat := 0;
    visited := [];
    while true
      invariant Walking(base, tags, tagType, i, current, visited) && current % 8 == 0
      decreases |tags| - i
    {
      AtTag(mem, tags, i, current - base);
      var typ := Read32(mem, current - base);
      WalkOn(base, tags, tagType, i, current, visited);
      visited := visited + [current];
      if typ == TAG_TYPE_END {
        return None, visited;
      }
      if typ == tagType {
        return Some(current), visited;
      }
      current := NextAddress(mem, base, current, tags[i]);
      i := i + 1;
    }
  }

  /** The walk stands at tag i, has passed all tags before it, and none of them was of the wanted type. */
  ghost predicate Walking(base: nat, tags: seq<Tag>, tagType: nat, i: nat, current: nat, visited: seq<nat>) {
    && i <= |tags| && current == base + TagOffset(tags, i)
    && |visited| == i && visited == TagStarts(base, tags, i)
    && FirstOfType(tags, tagType, i) == None
  }

  /** What the walk has found when tag i ends it, is the wanted one, or is passed. */
  lemma WalkOn(base: nat, tags: seq<Tag>, tagType: nat, i: nat, current: nat, visited: seq<nat>)
    requires Walking(base, tags, tagType, i, current, visited)
    ensures visited + [current] == TagStarts(base, tags, i + 1)
    ensures i < |tags| && tags[i].typ == tagType ==> FirstOfType(tags, tagType, |tags|) == Some(i)
    ensures i < |tags| && tags[i].typ != tagType ==>
              Walking(base, tags, tagType, i + 1, current + Align8(TagSize(tags[i])), visited + [current])
  {
    if i < |tags| { FirstStays(tags, tagType, i + 1, |tags|); }
  }

  lemma AtTag(mem: seq<Byte>, tags: seq<Tag>, i: nat, off: nat)
    requires Laid(mem, tags) && i <= |tags| && off == TagOffset(tags, i)
    ensures off + 8 <= |mem|
    ensures Read32(mem, off) == TAG_TYPE_END <==> i == |tags|
    ensures i < |tags| ==> TagAt(mem, off, tags[i]) && Read32(mem, off) == tags[i].typ
  {
    assert i < |tags| ==> HoldsTag(mem, tags, i);
  }

  /** The last line of the loop. */
  method NextAddress(mem: seq<Byte>, base: nat, current: nat, ghost t: Tag) returns (next: nat)
    requires current % 8 == 0 && base <= current && base + |mem| + 8 <= WORD
    requires TagAt(mem, current - base, t)
    ensures next == current + Align8(TagSize(t)) && next % 8 == 0
  {
    var size := Read32(mem, current - base + 4);
    next := AlignAddress(current, size);
  }

  method AlignAddress(current: nat, size: nat) returns (next: nat)
    requires current % 8 == 0 && current + size + 7 < WORD
    ensures next == current + Align8(size) && next % 8 == 0
  {
    NextTag(current, size);
    Granularities();
    next := AlignUp(current + size, 8, 3);
  }

  lemma {:induction false} FirstStays(tags: seq<Tag>, typ: nat, m: nat, n: nat)
    requires m <= n <= |tags|
    ensures FirstOfType(tags, typ, m).Some? ==> FirstOfType(tags, typ, n) == FirstOfType(tags, typ, m)
    decreases n
  {
    if m < n { FirstStays(tags, typ, m, n - 1); }
  }

  // ----- serialising tags

  predicate Encodable(t: Tag) {
    t.typ != TAG_TYPE_END && t.typ < WORD32 && TagSize(t) < WORD32
  }

  ghost predicate AllEncodable(tags: seq<Tag>) {
    forall i :: 0 <= i < |tags| ==> Encodable(tags[i])
  }

  function TagBytes(t: Tag): (s: seq<Byte>)
    requires Encodable(t)
    ensures |s| == TagSize(t)
  {
    Encode32(t.typ) + Encode32(TagSize(t)) + t.payload
  }

  function Pad(s: seq<Byte>): (r: seq<Byte>)
    ensures |r| == Align8(|s|) && s <= r
  {
    Align8Facts(|s|);
    s + seq(Align8(|s|) - |s|, _ => 0)
  }

  /** The header, the first n tags, each padded to 8 bytes. */
  ghost function Serialised(header: seq<Byte>, tags: seq<Tag>, n: nat): (s: seq<Byte>)
    requires |header| == 8 && n <= |tags| && AllEncodable(tags)
    ensures |s| == TagOffset(tags, n)
  {
    if n == 0 then header else Serialised(header, tags, n - 1) + Pad(TagBytes(tags[n - 1]))
  }

  ghost function BootInformation(header: seq<Byte>, tags: seq<Tag>, rest: seq<Byte>): seq<Byte>
    requires |header| == 8 && AllEncodable(tags)
  {
    Serialised(header, tags, |tags|) + (Encode32(TAG_TYPE_END) + Encode32(8)) + rest
  }

  lemma {:induction false} SerialisedPrefix(header: seq<Byte>, tags: seq<Tag>, m: nat, n: nat)
    requires |header| == 8 && m <= n <= |tags| && AllEncodable(tags)
    ensures Serialised(header, tags, m) <= Serialised(header, tags, n)
    decreases n
  {
    if m < n { SerialisedPrefix(header, tags, m, n - 1); }
  }

  /** A tag's bytes at an offset are read back as that tag. */
  lemma TagReadBack(mem: seq<Byte>, off: nat, t: Tag)
    requires Encodable(t) && off + TagSize(t) <= |mem| && mem[off..off + TagSize(t)] == TagBytes(t)
    ensures TagAt(mem, off, t)
  {
    var b := TagBytes(t);
    var n := TagSize(t);
    SubSlice(mem, off, n, 0, 4);
    SubSlice(mem, off, n, 4, 8);
    SubSlice(mem, off, n, 8, n);
    assert b[0..4] == Encode32(t.typ) && b[4..8] == Encode32(n) && b[8..n] == t.payload;
    ReadBack32(mem, off, t.typ);
    ReadBack32(mem, off + 4, n);
  }

  /** The bytes of tag i stand at its offset. */
  lemma SerialisedTag(header: seq<Byte>, tags: seq<Tag>, i: nat, mem: seq<Byte>)
    requires |header| == 8 && i < |tags| && AllEncodable(tags)
    requires Serialised(header, tags, i + 1) <= mem
    ensures var off := TagOffset(tags, i);
            off + TagSize(tags[i]) <= |mem| && mem[off..off + TagSize(tags[i])] == TagBytes(tags[i])
  {
    Placed(Serialised(header, tags, i), TagBytes(tags[i]), Pad(TagBytes(tags[i])), mem);
  }

  lemma Placed(before: seq<Byte>, b: seq<Byte>, padded: seq<Byte>, mem: seq<Byte>)
    requires b <= padded && before + padded <= mem
    ensures |before| + |b| <= |mem| && mem[|before|..|before| + |b|] == b
  {
    var s := before + padded;
    assert s[|before|..][..|b|] == b;
    assert mem[|before|..|before| + |b|] == s[|before|..][..|b|];
  }

  lemma PrefixOfPrefix(a: seq<Byte>, b: seq<Byte>, c: seq<Byte>)
    requires a <= b && b <= c
    ensures a <= c
  {}

  /** What is serialised is laid out as the walk expects. */
  lemma SerialisedIsLaid(header: seq<Byte>, tags: seq<Tag>, rest: seq<Byte>)
    requires |header| == 8 && AllEncodable(tags)
    ensures Laid(BootInformation(header, tags, rest), tags)
  {
    var mem := BootInformation(header, tags, rest);
    forall i | 0 <= i < |tags| ensures HoldsTag(mem, tags, i) {
      SerialisedHolds(header, tags, rest, i);
    }
    var end := TagOffset(tags, |tags|);
    assert mem[end..end + 4] == Encode32(TAG_TYPE_END);
    ReadBack32(mem, end, TAG_TYPE_END);
  }

  lemma SerialisedHolds(header: seq<Byte>, tags: seq<Tag>, rest: seq<Byte>, i: nat)
    requires |header| == 8 && AllEncodable(tags) && i < |tags|
    ensures HoldsTag(BootInformation(header, tags, rest), tags, i)
  {
    var mem := BootInformation(header, tags, rest);
    assert Serialised(header, tags, i + 1) <= mem by {
      SerialisedPrefix(header, tags, i + 1, |tags|);
      PrefixOfPrefix(Serialised(header, tags, i + 1), Serialised(header, tags, |tags|), mem);
    }
    SerialisedTag(header, tags, i, mem);
    TagReadBack(mem, TagOffset(tags, i), tags[i]);
  }

  // ----- the memory map

  datatype MemoryArea = MemoryArea(baseAddr: nat, length: nat, typ: nat, reserved: nat)

  function AreaAt(mem: seq<Byte>, off: nat): MemoryArea
    requires off + 24 <= |mem|
  {
    MemoryArea(Read64(mem, off), Read64(mem, off + 8), Read32(mem, off + 16), Read32(mem, off + 20))
  }

  /** n steps, by repeated addition. */
  function Stride(n: nat, step: nat): nat {
    if n == 0 then 0 else Stride(n - 1, step) + step
  }

  lemma {:induction false} StrideIsProduct(n: nat, step: nat)
    ensures Stride(n, step) == n * step
  {
    if n > 0 {
      StrideIsProduct(n - 1, step);
      assert n * step == (n - 1) * step + step;
    }
  }

  lemma {:induction false} StrideFront(n: nat, step: nat)
    requires n > 0
    ensures Stride(n, step) == step + Stride(n - 1, step)
  {
    if n > 1 { StrideFront(n - 1, step); }
  }

  /** All entries the iterator will read from `off` lie in memory. */
  ghost predicate Readable(n: nat, off: nat, end: nat, entrySize: nat)
    requires entrySize > 0
    decreases end - off
  {
    off < end ==> off + 24 <= n && Readable(n, off + entrySize, end, entrySize)
  }

  /** The values of f at off, off + step, ... up to `end`. */
  ghost function Walk<T>(f: nat -> T, off: nat, end: nat, step: nat): seq<T>
    requires step > 0
    decreases end - off
  {
    if off >= end then [] else [f(off)] + Walk(f, off + step, end, step)
  }

  ghost function EntryReader(mem: seq<Byte>): nat -> MemoryArea {
    (off: nat) => if off + 24 <= |mem| then AreaAt(mem, off) else MemoryArea(0, 0, 0, 0)
  }

  ghost function AreasFrom(mem: seq<Byte>, off: nat, end: nat, entrySize: nat): seq<MemoryArea>
    requires entrySize > 0
  {
    Walk(EntryReader(mem), off, end, entrySize)
  }

  /** MemoryAreaIter, with addresses counted from the start of `mem`. */
  class MemoryAreaIter {
    var current: nat
    var end: nat
    var entrySize: nat

    /** MemoryMapTag::memory_areas */
    constructor (mem: seq<Byte>, tag: nat)
      requires tag + 16 <= |mem|
      ensures current == tag + 16
      ensures end == tag + Read32(mem, tag + 4)
      ensures entrySize == Read32(mem, tag + 8)
    {
      current := tag + 16;
      end := tag + Read32(mem, tag + 4);
      entrySize := Read32(mem, tag + 8);
    }

    method Next(mem: seq<Byte>) returns (r: Option<MemoryArea>)
      requires current < end ==> current + 24 <= |mem|
      modifies this
      ensures end == old(end) && entrySize == old(entrySize)
      ensures r.None? <==> old(current) >= end
      ensures r.None? ==> current == old(current)
      ensures r.Some? ==> r.value == AreaAt(mem, old(current)) && current == old(current) + entrySize
      ensures entrySize > 0 && Readable(|mem|, old(current), end, entrySize) ==>
                Readable(|mem|, current, end, entrySize)
                && AreasFrom(mem, old(current), end, entrySize) ==
                   if r.Some? then [r.value] + AreasFrom(mem, current, end, entrySize) else []
    {
      if current >= end {
        return None;
      }
      var area := AreaAt(mem, current);
      current := current + entrySize;
      return Some(area);
    }
  }

  /** The iterator stands at off + n * entry_size after n calls that yielded an entry, so it comes to an
      end if and only if there is nothing to read or the entry size is not 0. */
  lemma EndsIff(off: nat, end: nat, entrySize: nat)
    ensures (exists n: nat :: off + Stride(n, entrySize) >= end) <==> off >= end || entrySize > 0
  {
    if off >= end {
      assert off + Stride(0, entrySize) >= end;
    } else if entrySize > 0 {
      StrideGrows(end, entrySize);
      assert off + Stride(end, entrySize) >= end;
    } else {
      forall n: nat ensures off + Stride(n, entrySize) < end { StrideIsProduct(n, 0); }
    }
  }

  lemma {:induction false} StrideGrows(n: nat, step: nat)
    requires step > 0
    ensures Stride(n, step) >= n
  {
    if n > 0 { StrideGrows(n - 1, step); }
  }

  /** Draining the iterator, as the loops of the allocator's init do; they end exactly in the case that
      EndsIff gives. */
  method CollectAreas(mem: seq<Byte>, tag: nat) returns (areas: seq<MemoryArea>)
    requires tag + 16 <= |mem| && (Read32(mem, tag + 4) <= 16 || Read32(mem, tag + 8) > 0)
    requires Read32(mem, tag + 8) > 0 ==>
               Readable(|mem|, tag + 16, tag + Read32(mem, tag + 4), Read32(mem, tag + 8))
    ensures Read32(mem, tag + 4) <= 16 ==> areas == []
    ensures Read32(mem, tag + 8) > 0 ==>
              areas == AreasFrom(mem, tag + 16, tag + Read32(mem, tag + 4), Read32(mem, tag + 8))
  {
    var iter := new MemoryAreaIter(mem, tag);
    areas := [];
    ghost var all := if iter.entrySize > 0 then AreasFrom(mem, iter.current, iter.end, iter.entrySize) else [];
    var more := true;
    while more
      invariant iter.end == tag + Read32(mem, tag + 4) && iter.entrySize == Read32(mem, tag + 8)
      invariant Drained(mem, iter.current, iter.end, iter.entrySize, areas, all)
      invariant !more ==> areas == all
      decreases more, iter.end - iter.current
    {
      areas, more := CollectOne(iter, mem, areas, all);
    }
  }

  lemma OneMore(xs: seq<MemoryArea>, x: MemoryArea, ys: seq<MemoryArea>)
    ensures xs + ([x] + ys) == xs + [x] + ys
  {}

  /** One round of that loop. */
  method CollectOne(iter: MemoryAreaIter, mem: seq<Byte>, areas: seq<MemoryArea>, ghost all: seq<MemoryArea>)
    returns (r: seq<MemoryArea>, more: bool)
    requires Drained(mem, iter.current, iter.end, iter.entrySize, areas, all)
    modifies iter
    ensures iter.end == old(iter.end) && iter.entrySize == old(iter.entrySize)
    ensures Drained(mem, iter.current, iter.end, iter.entrySize, r, all)
    ensures if more then old(iter.current) < iter.current && old(iter.current) < iter.end else r == all
  {
    var next := iter.Next(mem);
    match next
    case Some(area) =>
      if iter.entrySize > 0 { OneMore(areas, area, AreasFrom(mem, iter.current, iter.end, iter.entrySize)); }
      r, more := areas + [area], true;
    case None => r, more := areas, false;
  }

  /** What was collected and what remains make up all entries. */
  ghost predicate Drained(mem: seq<Byte>, off: nat, end: nat, entrySize: nat,
                          areas: seq<MemoryArea>, all: seq<MemoryArea>)
  {
    if entrySize > 0 then Readable(|mem|, off, end, entrySize) && areas + AreasFrom(mem, off, end, entrySize) == all
    else off >= end && areas == all
  }

  /** Every entry read lies wholly inside the tag. */
  ghost predicate AllInside(off: nat, end: nat, entrySize: nat)
    requires entrySize > 0
    decreases end - off
  {
    off < end ==> off + 24 <= end && AllInside(off + entrySize, end, entrySize)
  }

  /** Exactly if there is none, or an entry fills its slot and the last one is not cut short. */
  lemma {:induction false} InsideIff(off: nat, end: nat, entrySize: nat)
    requires entrySize > 0
    ensures AllInside(off, end, entrySize) <==>
              off >= end
              || (entrySize >= 24 && ((end - off) % entrySize == 0 || (end - off) % entrySize >= 24))
    decreases end - off
  {
    if off < end {
      InsideIff(off + entrySize, end, entrySize);
      RemainderStep(end - off, entrySize);
    }
  }

  lemma RemainderStep(x: nat, step: nat)
    requires step > 0
    ensures x % step == if x < step then x else (x - step) % step
  {
    if x < step { ModUnique(x, step, 0, x); } else { ModUnique(x, step, (x - step) / step + 1, (x - step) % step); }
  }

  // ----- serialising the memory map

  predicate AreaEncodable(a: MemoryArea) {
    a.baseAddr < WORD && a.length < WORD && a.typ < WORD32 && a.reserved < WORD32
  }

  /** The 24 bytes of one entry. */
  function AreaBytes(a: MemoryArea): (s: seq<Byte>)
    requires AreaEncodable(a)
    ensures |s| == 24
  {
    Encode64(a.baseAddr) + Encode64(a.length) + Encode32(a.typ) + Encode32(a.reserved)
  }

  lemma AreaReadBack(mem: seq<Byte>, off: nat, a: MemoryArea)
    requires AreaEncodable(a) && off + 24 <= |mem| && mem[off..off + 24] == AreaBytes(a)
    ensures AreaAt(mem, off) == a
  {
    var b := AreaBytes(a);
    SubSlice(mem, off, 24, 0, 8);
    SubSlice(mem, off, 24, 8, 16);
    SubSlice(mem, off, 24, 16, 20);
    SubSlice(mem, off, 24, 20, 24);
    assert b[0..8] == Encode64(a.baseAddr) && b[8..16] == Encode64(a.length);
    assert b[16..20] == Encode32(a.typ) && b[20..24] == Encode32(a.reserved);
    ReadBack64(mem, off, a.baseAddr);
    ReadBack64(mem, off + 8, a.length);
    ReadBack32(mem, off + 16, a.typ);
    ReadBack32(mem, off + 20, a.reserved);
  }

  /** Entry i of a table at `off` holds the encoding of areas[i]; bytes past 24 are arbitrary. */
  predicate HoldsArea(mem: seq<Byte>, off: nat, entrySize: nat, areas: seq<MemoryArea>, i: nat)
    requires i < |areas|
  {
    var o := off + Stride(i, entrySize);
    AreaEncodable(areas[i]) && o + 24 <= |mem| && mem[o..o + 24] == AreaBytes(areas[i])
  }

  /** A memory map tag at `off`: size 16 + n * entry_size, then n entries. */
  ghost predicate MapAt(mem: seq<Byte>, off: nat, entrySize: nat, areas: seq<MemoryArea>) {
    && entrySize >= 24
    && off + 16 + Stride(|areas|, entrySize) <= |mem|
    && Read32(mem, off + 4) == 16 + Stride(|areas|, entrySize)
    && Read32(mem, off + 8) == entrySize
    && var table := off + 16;
       forall i :: 0 <= i < |areas| ==> HoldsArea(mem, table, entrySize, areas, i)
  }

  predicate ValueAt<T(==)>(f: nat -> T, off: nat, step: nat, xs: seq<T>, i: nat)
    requires i < |xs|
  {
    f(off + Stride(i, step)) == xs[i]
  }

  lemma {:induction false} WalkIs<T>(f: nat -> T, off: nat, end: nat, step: nat, xs: seq<T>)
    requires step > 0 && end == off + Stride(|xs|, step)
    requires forall i :: 0 <= i < |xs| ==> ValueAt(f, off, step, xs, i)
    ensures Walk(f, off, end, step) == xs
    decreases |xs|
  {
    if xs != [] {
      var rest := xs[1..];
      StrideFront(|xs|, step);
      assert ValueAt(f, off, step, xs, 0);
      var next := off + step;
      forall i | 0 <= i < |rest| ensures ValueAt(f, next, step, rest, i) {
        StrideFront(i + 1, step);
        assert ValueAt(f, off, step, xs, i + 1);
      }
      WalkIs(f, next, end, step, rest);
      assert [xs[0]] + rest == xs;
    }
  }

  lemma {:induction false} ReadableIs(n: nat, off: nat, end: nat, step: nat, k: nat)
    requires step >= 24 && end == off + Stride(k, step) && end <= n
    ensures Readable(n, off, end, step)
    decreases k
  {
    if k > 0 {
      StrideFront(k, step);
      ReadableIs(n, off + step, end, step, k - 1);
    }
  }

  lemma EntryReadBack(mem: seq<Byte>, table: nat, entrySize: nat, areas: seq<MemoryArea>, i: nat)
    requires i < |areas| && HoldsArea(mem, table, entrySize, areas, i)
    ensures ValueAt(EntryReader(mem), table, entrySize, areas, i)
  {
    AreaReadBack(mem, table + Stride(i, entrySize), areas[i]);
  }

  /** The iterator yields exactly the n encoded areas, in order. */
  lemma MapReadBack(mem: seq<Byte>, off: nat, entrySize: nat, areas: seq<MemoryArea>)
    requires MapAt(mem, off, entrySize, areas)
    ensures Readable(|mem|, off + 16, off + Read32(mem, off + 4), entrySize)
    ensures AreasFrom(mem, off + 16, off + Read32(mem, off + 4), entrySize) == areas
    ensures Read32(mem, off + 4) == 16 + |areas| * entrySize
  {
    var table := off + 16;
    var end := table + Stride(|areas|, entrySize);
    var f := EntryReader(mem);
    forall i | 0 <= i < |areas| ensures ValueAt(f, table, entrySize, areas, i) {
      assert HoldsArea(mem, table, entrySize, areas, i);
      EntryReadBack(mem, table, entrySize, areas, i);
    }
    WalkIs(f, table, end, entrySize, areas);
    ReadableIs(|mem|, table, end, entrySize, |areas|);
    StrideIsProduct(|areas|, entrySize);
  }

  /** BootInfo::memory_map_tag followed by the iteration over its areas: for boot information that
      holds a memory map, exactly its areas come back. */
  method MemoryMap(mem: seq<Byte>, base: nat, ghost tags: seq<Tag>, ghost areas: seq<MemoryArea>, ghost entrySize: nat)
    returns (r: Option<seq<MemoryArea>>)
    requires base % 8 == 0 && base + |mem| + 8 <= WORD && Laid(mem, tags)
    requires match FirstOfType(tags, TAG_TYPE_MMAP, |tags|)
             case None => true
             case Some(i) => MapAt(mem, TagOffset(tags, i), entrySize, areas)
    ensures r.None? <==> forall i :: 0 <= i < |tags| ==> tags[i].typ != 6
    ensures r.Some? ==> r.value == areas
  {
    var tag, _ := FindTag(mem, base, TAG_TYPE_MMAP, tags);
    match tag
    case None => r := None;
    case Some(address) =>
      MapReadBack(mem, address - base, entrySize, areas);
      var found := CollectAreas(mem, address - base);
      r := Some(found);
  }

  // ----- a boot information structure byte by byte

  predicate BytesAt(mem: seq<Byte>, off: nat, b: seq<Byte>) { off + |b| <= |mem| && mem[off..off + |b|] == b }

  /** A header, a command line of 11 bytes padded to 16, a memory map of one entry of 24 bytes, the end tag. */
  predicate SampleInfo(mem: seq<Byte>) {
    && |mem| == 72
    && BytesAt(mem, 8, [1, 0, 0, 0]) && BytesAt(mem, 12, [11, 0, 0, 0])
    && BytesAt(mem, 24, [6, 0, 0, 0]) && BytesAt(mem, 28, [40, 0, 0, 0]) && BytesAt(mem, 32, [24, 0, 0, 0])
    && BytesAt(mem, 40, [0, 16, 50, 84]) && BytesAt(mem, 44, [1, 0, 0, 0])
    && BytesAt(mem, 48, [0, 0, 224, 7]) && BytesAt(mem, 52, [2, 0, 0, 0])
    && BytesAt(mem, 56, [1, 0, 0, 0]) && BytesAt(mem, 60, [0, 0, 0, 0])
    && BytesAt(mem, 64, [0, 0, 0, 0])
  }

  lemma WordAt(mem: seq<Byte>, off: nat, b0: Byte, b1: Byte, b2: Byte, b3: Byte)
    requires BytesAt(mem, off, [b0, b1, b2, b3])
    ensures Read32(mem, off) == b0 + 0x100 * b1 + 0x1_0000 * b2 + 0x100_0000 * b3
  {
    var s := mem[off..off + 4];
    assert s[0] == b0 && s[1] == b1 && s[2] == b2 && s[3] == b3;
  }

  /** Read as the specification lays it out: the memory map, type 6, is the tag at 24, and its one area is
      0x2_07e0_0000 bytes of type 1 at 0x1_5432_1000. */
  lemma SampleRead(mem: seq<Byte>)
    requires SampleInfo(mem)
    ensures var tags := [Tag(1, mem[16..19]), Tag(6, mem[32..64])];
            Laid(mem, tags) && FirstOfType(tags, TAG_TYPE_MMAP, 2) == Some(1) && TagOffset(tags, 1) == 24
            && Read32(mem, 28) == 40 && Read32(mem, 32) == 24 && Readable(72, 40, 64, 24)
            && AreasFrom(mem, 40, 64, 24) == [MemoryArea(0x1_5432_1000, 0x2_07e0_0000, 1, 0)]
  {
    var tags := [Tag(1, mem[16..19]), Tag(6, mem[32..64])];
    SampleWords(mem);
    assert TagOffset(tags, 1) == 24;
    assert TagOffset(tags, 2) == 64 by { assert Align8(40) == 8 + Align8(32) == 16 + Align8(24) == 24 + Align8(16); }
    assert HoldsTag(mem, tags, 0) && HoldsTag(mem, tags, 1);
    assert AreaAt(mem, 40) == MemoryArea(0x1_5432_1000, 0x2_07e0_0000, 1, 0);
    assert Walk(EntryReader(mem), 64, 64, 24) == [];
  }

  lemma SampleWords(mem: seq<Byte>)
    requires SampleInfo(mem)
    ensures Read32(mem, 8) == 1 && Read32(mem, 12) == 11 && Read32(mem, 64) == 0
    ensures Read32(mem, 24) == 6 && Read32(mem, 28) == 40 && Read32(mem, 32) == 24
    ensures Read64(mem, 40) == 0x1_5432_1000 && Read64(mem, 48) == 0x2_07e0_0000
    ensures Read32(mem, 56) == 1 && Read32(mem, 60) == 0
  {
    WordAt(mem, 8, 1, 0, 0, 0);
    WordAt(mem, 12, 11, 0, 0, 0);
    WordAt(mem, 24, 6, 0, 0, 0);
    WordAt(mem, 28, 40, 0, 0, 0);
    WordAt(mem, 32, 24, 0, 0, 0);
    WordAt(mem, 40, 0, 16, 50, 84);
    WordAt(mem, 44, 1, 0, 0, 0);
    WordAt(mem, 48, 0, 0, 224, 7);
    WordAt(mem, 52, 2, 0, 0, 0);
    WordAt(mem, 56, 1, 0, 0, 0);
    WordAt(mem, 60, 0, 0, 0, 0);
    WordAt(mem, 64, 0, 0, 0, 0);
  }
}
