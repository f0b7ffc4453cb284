/**
 * The block list as it lies in memory: each block's header holds its size, the
 * addresses of its neighbours and its free flag.
 */
module HeapLinks {
  import opened HeapBlocks
  import opened Bytes
  import opened HeapMemory

  function NextOf(bs: seq<Block>, i: nat): int {
    if i + 1 < |bs| then bs[i + 1].addr else 0
  }

  function PrevOf(bs: seq<Block>, i: nat): int {
    if 0 < i <= |bs| then bs[i - 1].addr else 0
  }

  function HeaderOf(bs: seq<Block>, i: nat): Header
    requires i < |bs|
  {
    Header(bs[i].size, NextOf(bs, i), PrevOf(bs, i), if bs[i].free then 1 else 0)
  }

  /** The header at a is h. */
  ghost predicate Holds(m: Memory, a: int, h: Header) {
    Room(m, a) && HeaderAt(m, a) == h
  }

  ghost predicate LinkedAt(m: Memory, bs: seq<Block>, i: nat)
    requires i < |bs|
  {
    Holds(m, bs[i].addr, HeaderOf(bs, i))
  }

  /** The doubly linked list found in memory is the block list. */
  ghost predicate Linked(m: Memory, bs: seq<Block>) {
    forall i :: 0 <= i < |bs| ==> LinkedAt(m, bs, i)
  }

  lemma IsLinkedAt(m: Memory, bs: seq<Block>, i: nat)
    requires Linked(m, bs) && i < |bs|
    ensures Holds(m, bs[i].addr, HeaderOf(bs, i))
  {
    assert LinkedAt(m, bs, i);
  }

  /** The bytes behind a block's header. */
  ghost function Payload(m: Memory, b: Block): (bytes: Memory) {
    if 0 <= PointerOf(b) <= EndOf(b) <= |m| then m[PointerOf(b)..EndOf(b)] else []
  }

  ghost predicate SamePayloads(m: Memory, r: Memory, used: set<Block>) {
    forall b :: b in used ==> Payload(r, b) == Payload(m, b)
  }

  lemma SamePayloadsRefl(m: Memory, used: set<Block>)
    ensures SamePayloads(m, m, used)
  {}

  /** The blocks in use, without the one at p. */
  ghost function Others(bs: seq<Block>, p: int): set<Block> {
    set b | b in Used(bs) && PointerOf(b) != p
  }

  /** Memory holds these bytes from address at on. */
  ghost predicate Prefix(m: Memory, at: int, bytes: Memory) {
    0 <= at && at + |bytes| <= |m| && m[at..at + |bytes|] == bytes
  }

  lemma PrefixKept(m: Memory, r: Memory, g: Block, bytes: Memory)
    requires |m| == |r| && Prefix(m, PointerOf(g), bytes) && |bytes| <= g.size && EndOf(g) <= |m|
    requires Payload(r, g) == Payload(m, g)
    ensures Prefix(r, PointerOf(g), bytes)
  {
    assert r[PointerOf(g)..PointerOf(g) + |bytes|] == Payload(r, g)[..|bytes|];
    assert m[PointerOf(g)..PointerOf(g) + |bytes|] == Payload(m, g)[..|bytes|];
  }

  lemma PayloadIsPrefix(m: Memory, b: Block)
    requires 0 <= PointerOf(b) && EndOf(b) <= |m| && b.size >= 0
    ensures Prefix(m, PointerOf(b), Payload(m, b)) && |Payload(m, b)| == b.size
  {}

  lemma SameByIndex(m: Memory, r: Memory, bs: seq<Block>)
    requires forall j :: 0 <= j < |bs| ==> Payload(r, bs[j]) == Payload(m, bs[j])
    ensures SamePayloads(m, r, Used(bs))
  {}

  /** Every header in memory other than those at a, b and c is untouched. */
  ghost predicate OnlyHeaders(m: Memory, r: Memory, a: int, b: int, c: int) {
    && |m| == |r|
    && forall x {:trigger r[x]} ::
         0 <= x < |m| && !(a <= x < a + HeaderSize) && !(b <= x < b + HeaderSize) && !(c <= x < c + HeaderSize)
         ==> r[x] == m[x]
  }

  ghost predicate HeaderApart(a: int, b: int) {
    a + HeaderSize <= b || b + HeaderSize <= a
  }

  lemma OtherHeader(m: Memory, r: Memory, a: int, b: int, c: int, d: int, h: Header)
    requires OnlyHeaders(m, r, a, b, c) && Holds(m, d, h)
    requires HeaderApart(a, d) && HeaderApart(b, d) && HeaderApart(c, d)
    ensures Holds(r, d, h)
  {
    HeaderSame(m, r, d);
  }

  /** Headers of different blocks do not overlap, nor does a header any payload. */
  lemma HeadersApart(bs: seq<Block>, lo: int, hi: int, i: nat, j: nat)
    requires Tiled(bs, lo, hi) && Granular(bs) && i < |bs| && j < |bs| && i != j
    ensures HeaderApart(bs[i].addr, bs[j].addr)
    ensures EndOf(bs[i]) <= bs[j].addr || bs[j].addr + HeaderSize <= bs[i].addr
  {
    assert Granule(bs[i]) && Granule(bs[j]);
    if i < j {
      Ordered(bs, lo, hi, i, j);
    } else {
      Ordered(bs, lo, hi, j, i);
    }
  }

  lemma HeaderBeforePayload(bs: seq<Block>, lo: int, hi: int, i: nat, j: nat)
    requires Tiled(bs, lo, hi) && Granular(bs) && i < |bs| && j < |bs|
    ensures EndOf(bs[i]) <= bs[j].addr || bs[j].addr + HeaderSize <= PointerOf(bs[i])
  {
    if i != j {
      HeadersApart(bs, lo, hi, i, j);
    }
  }

  /** Changing one flag. */
  lemma MarkLinked(m: Memory, r: Memory, bs: seq<Block>, lo: int, hi: int, i: nat, free: bool)
    requires Tiled(bs, lo, hi) && Granular(bs) && Linked(m, bs) && i < |bs|
    requires OnlyHeader(m, r, bs[i].addr)
    requires Holds(r, bs[i].addr, HeaderOf(bs, i).(free := if free then 1 else 0))
    ensures Linked(r, Mark(bs, i, free))
  {
    hide Holds;
    var bs1 := Mark(bs, i, free);
    forall j | 0 <= j < |bs1| ensures LinkedAt(r, bs1, j) {
      assert LinkedAt(m, bs, j);
      if j != i {
        HeadersApart(bs, lo, hi, i, j);
        OtherHeader(m, r, bs[i].addr, bs[i].addr, bs[i].addr, bs[j].addr, HeaderOf(bs, j));
      }
    }
  }

  /** What each header of the split list says, in terms of the list before. */
  lemma SplitHeaderOf(bs: seq<Block>, i: nat, size: int, j: nat)
    requires i < |bs| && bs[i].size > size + HeaderSize && j <= |bs|
    ensures var r := Split(bs, i, size);
            var rest := bs[i].addr + HeaderSize + size;
            && |r| == |bs| + 1
            && (j < i ==> r[j].addr == bs[j].addr && HeaderOf(r, j) == HeaderOf(bs, j))
            && (j == i ==> r[j].addr == bs[i].addr && HeaderOf(r, j) == HeaderOf(bs, i).(size := size, next := rest))
            && (j == i + 1 ==> r[j].addr == rest
                               && HeaderOf(r, j) == Header(bs[i].size - size - HeaderSize, NextOf(bs, i), bs[i].addr, 1))
            && (j == i + 2 ==> r[j].addr == bs[i + 1].addr && HeaderOf(r, j) == HeaderOf(bs, i + 1).(prev := rest))
            && (j > i + 2 ==> r[j].addr == bs[j - 1].addr && HeaderOf(r, j) == HeaderOf(bs, j - 1))
  {
    var r := Split(bs, i, size);
    assert j > i + 1 ==> r[j] == bs[j - 1];
    assert i < j < |bs| ==> r[j + 1] == bs[j];
    assert j > i + 2 ==> r[j - 1] == bs[j - 2];
  }

  lemma MergeHeaderOf(bs: seq<Block>, i: nat, j: nat)
    requires i + 1 < |bs| && j < |bs| - 1
    ensures var r := Merge(bs, i);
            && |r| == |bs| - 1
            && (j < i ==> r[j].addr == bs[j].addr && HeaderOf(r, j) == HeaderOf(bs, j))
            && (j == i ==> r[j].addr == bs[i].addr
                           && HeaderOf(r, j) == HeaderOf(bs, i).(size := bs[i].size + HeaderSize + bs[i + 1].size, next := NextOf(bs, i + 1)))
            && (j == i + 1 ==> r[j].addr == bs[i + 2].addr && HeaderOf(r, j) == HeaderOf(bs, i + 2).(prev := bs[i].addr))
            && (j > i + 1 ==> r[j].addr == bs[j + 1].addr && HeaderOf(r, j) == HeaderOf(bs, j + 1))
  {
    var r := Merge(bs, i);
    assert j > i ==> r[j] == bs[j + 1];
    assert i <= j < |bs| - 2 ==> r[j + 1] == bs[j + 2];
    assert j > i + 1 ==> r[j - 1] == bs[j];
  }

  /** A header outside the block at i and the block at k keeps its contents. */
  lemma SpectatorHeader(m: Memory, r: Memory, bs: seq<Block>, lo: int, hi: int, i: nat, k: nat, rest: int, j: nat)
    requires Tiled(bs, lo, hi) && Granular(bs) && Linked(m, bs) && i < |bs| && 0 < lo
    requires bs[i].addr <= rest && rest + HeaderSize <= EndOf(bs[i])
    requires OnlyHeaders(m, r, bs[i].addr, rest, if k < |bs| then bs[k].addr else bs[i].addr)
    requires j < |bs| && j != i && j != k
    ensures Holds(r, bs[j].addr, HeaderOf(bs, j))
  {
    hide Holds;
    assert LinkedAt(m, bs, j);
    HeadersApart(bs, lo, hi, i, j);
    if k < |bs| {
      HeadersApart(bs, lo, hi, k, j);
    }
    OtherHeader(m, r, bs[i].addr, rest, if k < |bs| then bs[k].addr else bs[i].addr, bs[j].addr, HeaderOf(bs, j));
  }

  /** The headers split_block leaves behind are those of the split list. */
  lemma SplitLinked(m: Memory, r: Memory, bs: seq<Block>, lo: int, hi: int, i: nat, size: int)
    requires Tiled(bs, lo, hi) && Granular(bs) && Linked(m, bs) && i < |bs| && 0 < lo
    requires size >= 32 && bs[i].size > size + HeaderSize
    requires var a := bs[i].addr;
             var rest := a + HeaderSize + size;
             && OnlyHeaders(m, r, a, rest, if i + 1 < |bs| then bs[i + 1].addr else a)
             && Holds(r, a, HeaderOf(bs, i).(size := size, next := rest))
             && Holds(r, rest, Header(bs[i].size - size - HeaderSize, NextOf(bs, i), a, 1))
             && (i + 1 < |bs| ==> Holds(r, bs[i + 1].addr, HeaderOf(bs, i + 1).(prev := rest)))
    ensures Linked(r, Split(bs, i, size))
  {
    hide Holds, Split, Tiled, Granular, HeaderOf, OnlyHeaders;
    SplitHeaderOf(bs, i, size, 0);
    forall j | 0 <= j < |bs| + 1 ensures LinkedAt(r, Split(bs, i, size), j) {
      SplitHeaderOf(bs, i, size, j);
      if j < i || j > i + 2 {
        SpectatorHeader(m, r, bs, lo, hi, i, i + 1, bs[i].addr + HeaderSize + size, if j < i then j else j - 1);
      }
    }
  }

  /** The headers merge_block leaves behind are those of the merged list. */
  lemma MergeLinked(m: Memory, r: Memory, bs: seq<Block>, lo: int, hi: int, i: nat)
    requires Tiled(bs, lo, hi) && Granular(bs) && Linked(m, bs) && i + 1 < |bs| && 0 < lo
    requires var a := bs[i].addr;
             && OnlyHeaders(m, r, a, a, if i + 2 < |bs| then bs[i + 2].addr else a)
             && Holds(r, a, HeaderOf(bs, i).(size := bs[i].size + HeaderSize + bs[i + 1].size, next := NextOf(bs, i + 1)))
             && (i + 2 < |bs| ==> Holds(r, bs[i + 2].addr, HeaderOf(bs, i + 2).(prev := a)))
    ensures Linked(r, Merge(bs, i))
  {
    assert Granule(bs[i]);
    hide Holds, Merge, Tiled, Granular, HeaderOf, OnlyHeaders;
    MergeHeaderOf(bs, i, 0);
    forall j | 0 <= j < |bs| - 1 ensures LinkedAt(r, Merge(bs, i), j) {
      MergeHeaderOf(bs, i, j);
      if j < i || j > i + 1 {
        SpectatorHeader(m, r, bs, lo, hi, i, i + 2, bs[i].addr, if j < i then j else j + 1);
      }
    }
  }

  /** Appending a block behind the last one. */
  lemma ExtendLinked(m: Memory, r: Memory, bs: seq<Block>, lo: int, hi: int, size: int)
    requires Tiled(bs, lo, hi) && Granular(bs) && Linked(m, bs) && 0 < lo <= hi
    requires var last := PrevOf(bs, |bs|);
             && OnlyHeaders(m, r, hi, hi, if last != 0 then last else hi)
             && Holds(r, hi, Header(size, 0, last, 0))
             && (bs != [] ==> Holds(r, last, HeaderOf(bs, |bs| - 1).(next := hi)))
    ensures Linked(r, bs + [Block(hi, size, false)])
  {
    hide Holds;
    var bs1 := bs + [Block(hi, size, false)];
    forall j | 0 <= j < |bs1| ensures LinkedAt(r, bs1, j) {
      if j < |bs| {
        Within(bs, lo, hi, j);
        assert LinkedAt(m, bs, j);
        assert Granule(bs[j]);
        if j < |bs| - 1 {
          HeadersApart(bs, lo, hi, j, |bs| - 1);
          Within(bs, lo, hi, |bs| - 1);
          OtherHeader(m, r, hi, hi, PrevOf(bs, |bs|), bs[j].addr, HeaderOf(bs, j));
        }
      }
    }
  }

  lemma SpectatorPayload(m: Memory, r: Memory, bs: seq<Block>, lo: int, hi: int, i: nat, k: nat, rest: int, j: nat)
    requires Tiled(bs, lo, hi) && Granular(bs) && i < |bs| && j < |bs|
    requires bs[i].addr <= rest && rest + HeaderSize <= EndOf(bs[i])
    requires OnlyHeaders(m, r, bs[i].addr, rest, if k < |bs| then bs[k].addr else bs[i].addr)
    requires j != i || rest == bs[i].addr
    ensures Payload(r, bs[j]) == Payload(m, bs[j])
  {
    HeaderBeforePayload(bs, lo, hi, j, i);
    if k < |bs| {
      HeaderBeforePayload(bs, lo, hi, j, k);
    }
    if j != i {
      HeadersApart(bs, lo, hi, i, j);
      HeadersApart(bs, lo, hi, j, i);
    }
  }

  /** ---------- The stores of the allocator, in the order it makes them ---------- */

  const Word: int := 0x1_0000_0000_0000_0000

  lemma SizeWritten(m: Memory, a: int, v: nat, h: Header)
    requires Holds(m, a, h) && v < Word
    ensures Holds(SetSize(m, a, v), a, h.(size := v)) && OnlyHeader(m, SetSize(m, a, v), a)
  {
    SetSizeHeader(m, a, v);
  }

  lemma NextWritten(m: Memory, a: int, v: nat, h: Header)
    requires Holds(m, a, h) && v < Word
    ensures Holds(SetNext(m, a, v), a, h.(next := v)) && OnlyHeader(m, SetNext(m, a, v), a)
  {
    SetNextHeader(m, a, v);
  }

  lemma PrevWritten(m: Memory, a: int, v: nat, h: Header)
    requires Holds(m, a, h) && v < Word
    ensures Holds(SetPrev(m, a, v), a, h.(prev := v)) && OnlyHeader(m, SetPrev(m, a, v), a)
  {
    SetPrevHeader(m, a, v);
  }

  lemma FreeWritten(m: Memory, a: int, v: nat, h: Header)
    requires Holds(m, a, h) && v < 0x1_0000_0000
    ensures Holds(SetFree(m, a, v), a, h.(free := v)) && OnlyHeader(m, SetFree(m, a, v), a)
  {
    SetFreeHeader(m, a, v);
  }

  lemma StillHolds(m: Memory, r: Memory, a: int, b: int, h: Header)
    requires OnlyHeader(m, r, a) && HeaderApart(a, b) && Holds(m, b, h)
    ensures Holds(r, b, h)
  {
    HeaderElsewhere(m, r, a, b);
  }

  /** Links are addresses in the heap, and only the last block's is 0. */
  lemma NextIsSmall(bs: seq<Block>, lo: int, hi: int, i: nat)
    requires Tiled(bs, lo, hi) && Granular(bs) && i < |bs| && 0 < lo
    ensures NextOf(bs, i) == 0 || lo < NextOf(bs, i) < hi
    ensures NextOf(bs, i) == 0 <==> i + 1 == |bs|
  {
    assert Granule(bs[i]);
    Within(bs, lo, hi, i);
    if i + 1 < |bs| {
      Within(bs, lo, hi, i + 1);
      assert Granule(bs[i + 1]);
    }
  }

  lemma PrevIsSmall(bs: seq<Block>, lo: int, hi: int, i: nat)
    requires Tiled(bs, lo, hi) && Granular(bs) && i < |bs| && 0 < lo
    ensures PrevOf(bs, i) == 0 <==> i == 0
  {
    if i > 0 {
      Within(bs, lo, hi, i - 1);
    }
  }

  lemma FinishSplit(m: Memory, r: Memory, bs: seq<Block>, lo: int, hi: int, i: nat, size: int)
    requires Tiled(bs, lo, hi) && Granular(bs) && Linked(m, bs) && i < |bs| && 0 < lo
    requires size >= 32 && bs[i].size > size + HeaderSize
    requires var a := bs[i].addr;
             var rest := a + HeaderSize + size;
             && OnlyHeaders(m, r, a, rest, if i + 1 < |bs| then bs[i + 1].addr else a)
             && Holds(r, a, HeaderOf(bs, i).(size := size, next := rest))
             && Holds(r, rest, Header(bs[i].size - size - HeaderSize, NextOf(bs, i), a, 1))
             && (i + 1 < |bs| ==> Holds(r, bs[i + 1].addr, HeaderOf(bs, i + 1).(prev := rest)))
    ensures Linked(r, Split(bs, i, size))
    ensures forall j :: 0 <= j < |bs| && j != i ==> Payload(r, bs[j]) == Payload(m, bs[j])
  {
    hide Tiled, Granular, Linked, Split, Holds, OnlyHeaders, Payload, HeaderOf;
    SplitLinked(m, r, bs, lo, hi, i, size);
    forall j | 0 <= j < |bs| && j != i ensures Payload(r, bs[j]) == Payload(m, bs[j]) {
      SpectatorPayload(m, r, bs, lo, hi, i, i + 1, bs[i].addr + HeaderSize + size, j);
    }
  }

  /** The first four stores of split_block, up to its load of block->next. */
  function SplitHalf(m: Memory, a: int, rest: int, size: nat, restSize: nat): (r: Memory)
    requires Room(m, a) && Room(m, rest)
    ensures |r| == |m|
  {
    SetPrev(SetSize(SetSize(SetFree(m, rest, 1), rest, restSize), a, size), rest, a)
  }

  /** All its stores to the block and the remainder. */
  function SplitMemory(m: Memory, a: int, rest: int, next: nat, size: nat, restSize: nat): (r: Memory)
    requires Room(m, a) && Room(m, rest)
    ensures |r| == |m|
  {
    SetNext(SetNext(SplitHalf(m, a, rest, size, restSize), rest, next), a, rest)
  }

  lemma SplitHalfStores(m: Memory, a: int, rest: int, size: nat, restSize: nat, ha: Header, hr: Header)
    requires HeaderApart(a, rest) && Holds(m, a, ha) && Holds(m, rest, hr)
    requires a < Word && rest < Word && size < Word && restSize < Word
    ensures Holds(SetFree(m, rest, 1), a, ha)
    ensures var r := SplitHalf(m, a, rest, size, restSize);
            OnlyHeaders(m, r, a, rest, a) && Holds(r, a, ha.(size := size)) && Holds(r, rest, Header(restSize, hr.next, a, 1))
  {
    hide SetSize, SetNext, SetPrev, SetFree, HeaderAt;
    var m1 := SetFree(m, rest, 1);
    FreeWritten(m, rest, 1, hr);
    StillHolds(m, m1, rest, a, ha);
    var m2 := SetSize(m1, rest, restSize);
    SizeWritten(m1, rest, restSize, hr.(free := 1));
    StillHolds(m1, m2, rest, a, ha);
    var m3 := SetSize(m2, a, size);
    SizeWritten(m2, a, size, ha);
    StillHolds(m2, m3, a, rest, hr.(free := 1, size := restSize));
    var m4 := SetPrev(m3, rest, a);
    PrevWritten(m3, rest, a, hr.(free := 1, size := restSize));
    StillHolds(m3, m4, rest, a, ha.(size := size));
  }

  lemma SplitMemoryStores(m: Memory, a: int, rest: int, next: nat, size: nat, restSize: nat, ha: Header)
    requires HeaderApart(a, rest) && Holds(m, a, ha) && Room(m, rest)
    requires a < Word && rest < Word && size < Word && restSize < Word && next < Word
    ensures Holds(SetFree(m, rest, 1), a, ha)
    ensures Holds(SplitHalf(m, a, rest, size, restSize), a, ha.(size := size))
    ensures var r := SplitMemory(m, a, rest, next, size, restSize);
            && OnlyHeaders(m, r, a, rest, a)
            && Holds(r, a, ha.(size := size, next := rest))
            && Holds(r, rest, Header(restSize, next, a, 1))
  {
    hide SetSize, SetNext, SetPrev, SetFree, SplitHalf, HeaderAt;
    var hr := HeaderAt(m, rest);
    assert Holds(m, rest, hr);
    SplitHalfStores(m, a, rest, size, restSize, ha, hr);
    var m4 := SplitHalf(m, a, rest, size, restSize);
    var m5 := SetNext(m4, rest, next);
    NextWritten(m4, rest, next, Header(restSize, hr.next, a, 1));
    StillHolds(m4, m5, rest, a, ha.(size := size));
    var m6 := SetNext(m5, a, rest);
    NextWritten(m5, a, rest, ha.(size := size));
    StillHolds(m5, m6, a, rest, Header(restSize, next, a, 1));
  }

  /** What memory holds while split_block works on the block at a. */
  ghost predicate SplitStages(m: Memory, a: int, rest: int, next: int, size: int, restSize: int, h: Header) {
    && 0 < a < Word && 0 <= rest < Word && 0 <= next < Word && 0 <= size < Word && 0 <= restSize < Word
    && Room(m, rest) && Holds(m, a, h) && h.size == size + HeaderSize + restSize && h.next == next
    && Holds(SetFree(m, rest, 1), a, h)
    && Holds(SplitHalf(m, a, rest, size, restSize), a, h.(size := size))
    && Holds(SplitMemory(m, a, rest, next, size, restSize), rest, Header(restSize, next, a, 1))
    && (next != 0 ==> Room(m, next))
  }

  /** Memory once it is done. */
  ghost function SplitDone(m: Memory, a: int, rest: int, next: int, size: int, restSize: int, h: Header): (r: Memory)
    requires SplitStages(m, a, rest, next, size, restSize, h)
    ensures |r| == |m|
  {
    var r := SplitMemory(m, a, rest, next, size, restSize);
    if next != 0 then SetPrev(r, next, rest) else r
  }

  /** The stores of split_block turn the list into its split. */
  lemma SplitStores(m: Memory, bs: seq<Block>, lo: int, hi: int, i: nat, size: int, a: int, rest: int, next: int, restSize: int)
    requires Tiled(bs, lo, hi) && Granular(bs) && Linked(m, bs) && i < |bs| && 0 < lo && hi <= HeapMax <= |m|
    requires size >= 32 && bs[i].size > size + HeaderSize
    requires a == bs[i].addr && rest == a + HeaderSize + size && next == NextOf(bs, i) && restSize == bs[i].size - size - HeaderSize
    requires restSize >= 32
    ensures SplitStages(m, a, rest, next, size, restSize, HeaderOf(bs, i))
    ensures var r := SplitDone(m, a, rest, next, size, restSize, HeaderOf(bs, i));
            Linked(r, Split(bs, i, size)) && forall j :: 0 <= j < |bs| && j != i ==> Payload(r, bs[j]) == Payload(m, bs[j])
  {
    hide SetSize, SetNext, SetPrev, SetFree, SplitHalf, SplitMemory, HeaderAt, Split, Tiled, Granular, Payload;
    Within(bs, lo, hi, i);
    NextIsSmall(bs, lo, hi, i);
    assert LinkedAt(m, bs, i);
    SplitMemoryStores(m, a, rest, next, size, restSize, HeaderOf(bs, i));
    var r := SplitMemory(m, a, rest, next, size, restSize);
    if next != 0 {
      HeadersApart(bs, lo, hi, i, i + 1);
      assert LinkedAt(m, bs, i + 1);
      OtherHeader(m, r, a, rest, a, next, HeaderOf(bs, i + 1));
      var done := SetPrev(r, next, rest);
      PrevWritten(r, next, rest, HeaderOf(bs, i + 1));
      StillHolds(r, done, next, a, HeaderOf(bs, i).(size := size, next := rest));
      StillHolds(r, done, next, rest, Header(restSize, next, a, 1));
      FinishSplit(m, done, bs, lo, hi, i, size);
    } else {
      FinishSplit(m, r, bs, lo, hi, i, size);
    }
  }

  /** What memory holds while merge_block works on the block at a, the one at n behind it and the one at after behind that. */
  ghost predicate MergeStages(m: Memory, a: int, n: int, after: int, size: int, h: Header, hn: Header) {
    && 0 < a < Word && 0 < n < Word && 0 <= after < Word && 0 <= size < Word
    && Holds(m, a, h) && h.next == n && h.size + HeaderSize + hn.size == size
    && Holds(m, n, hn) && hn.next == after && hn.prev == a && hn.free == 1
    && (after != 0 ==> Room(m, after))
    && Holds(SetSize(m, a, size), a, h.(size := size))
    && Holds(SetSize(m, a, size), n, hn)
    && Holds(MergeHalf(m, a, after, size), a, h.(size := size))
    && Holds(MergeHalf(m, a, after, size), n, hn)
  }

  /** All its stores but the last. */
  ghost function MergeHalf(m: Memory, a: int, after: int, size: int): (r: Memory)
    requires Room(m, a) && 0 <= size && (after != 0 ==> Room(m, after))
    ensures |r| == |m|
  {
    if after != 0 then SetPrev(SetSize(m, a, size), after, a) else SetSize(m, a, size)
  }

  lemma MergeMemoryStores(m: Memory, a: int, n: int, after: int, size: int, h: Header, hn: Header, h2: Header)
    requires 0 < a < Word && 0 < n < Word && 0 <= after < Word && 0 <= size < Word
    requires Holds(m, a, h) && h.next == n && h.size + HeaderSize + hn.size == size
    requires Holds(m, n, hn) && hn.next == after && hn.prev == a && hn.free == 1
    requires HeaderApart(a, n) && (after != 0 ==> Holds(m, after, h2) && HeaderApart(a, after) && HeaderApart(after, n))
    ensures MergeStages(m, a, n, after, size, h, hn)
    ensures var r := SetNext(MergeHalf(m, a, after, size), a, after);
            && OnlyHeaders(m, r, a, a, if after != 0 then after else a)
            && Holds(r, a, h.(size := size, next := after))
            && (after != 0 ==> Holds(r, after, h2.(prev := a)))
  {
    hide SetSize, SetNext, SetPrev, HeaderAt;
    var m1 := SetSize(m, a, size);
    SizeWritten(m, a, size, h);
    StillHolds(m, m1, a, n, hn);
    var m2 := MergeHalf(m, a, after, size);
    if after != 0 {
      StillHolds(m, m1, a, after, h2);
      PrevWritten(m1, after, a, h2);
      StillHolds(m1, m2, after, a, h.(size := size));
      StillHolds(m1, m2, after, n, hn);
    }
    var r := SetNext(m2, a, after);
    NextWritten(m2, a, after, h.(size := size));
    if after != 0 {
      StillHolds(m2, r, a, after, h2.(prev := a));
    }
  }

  /** The stores of merge_block turn the list into its merge. */
  lemma MergeStores(m: Memory, bs: seq<Block>, lo: int, hi: int, i: nat, a: int, n: int, after: int, size: int)
    requires Tiled(bs, lo, hi) && Granular(bs) && Linked(m, bs) && i + 1 < |bs| && 0 < lo && hi <= HeapMax <= |m|
    requires a == bs[i].addr && n == bs[i + 1].addr && after == NextOf(bs, i + 1) && size == bs[i].size + HeaderSize + bs[i + 1].size
    requires bs[i + 1].free
    ensures MergeStages(m, a, n, after, size, HeaderOf(bs, i), HeaderOf(bs, i + 1))
    ensures var r := SetNext(MergeHalf(m, a, after, size), a, after);
            Linked(r, Merge(bs, i)) && forall j :: 0 <= j < |bs| ==> Payload(r, bs[j]) == Payload(m, bs[j])
  {
    assert Granule(bs[i]) && Granule(bs[i + 1]);
    hide MergeStages, MergeHalf, SetSize, SetNext, SetPrev, SetFree, HeaderAt, Merge, Tiled, Granular, Payload, OnlyHeaders;
    Within(bs, lo, hi, i);
    Within(bs, lo, hi, i + 1);
    NextIsSmall(bs, lo, hi, i + 1);
    HeadersApart(bs, lo, hi, i, i + 1);
    assert LinkedAt(m, bs, i) && LinkedAt(m, bs, i + 1);
    var h2 := HeaderOf(bs, if after != 0 then i + 2 else i);
    if after != 0 {
      HeadersApart(bs, lo, hi, i, i + 2);
      HeadersApart(bs, lo, hi, i + 2, i + 1);
      assert LinkedAt(m, bs, i + 2);
    }
    MergeMemoryStores(m, a, n, after, size, HeaderOf(bs, i), HeaderOf(bs, i + 1), h2);
    var r := SetNext(MergeHalf(m, a, after, size), a, after);
    MergeLinked(m, r, bs, lo, hi, i);
    forall j | 0 <= j < |bs| ensures Payload(r, bs[j]) == Payload(m, bs[j]) {
      SpectatorPayload(m, r, bs, lo, hi, i, i + 2, a, j);
    }
  }

  /** The stores extend_heap makes before it reads last->next. */
  ghost predicate ExtendStages(m: Memory, last: int, at: int, h: Header) {
    && 0 < at < Word && 0 <= last < Word && Room(m, at)
    && (last != 0 ==> last + HeaderSize <= at && h.next == 0 && Holds(m, last, h) && Holds(SetPrev(m, at, 0), last, h))
  }

  ghost function ExtendDone(m: Memory, last: int, at: int, size: int, h: Header): (r: Memory)
    requires ExtendStages(m, last, at, h) && 0 <= size
    ensures |r| == |m|
  {
    var m1 := SetPrev(m, at, 0);
    var m2 := if last != 0 then SetPrev(SetNext(m1, last, at), at, last) else m1;
    SetFree(SetNext(SetSize(m2, at, size), at, 0), at, 0)
  }

  lemma ExtendMemoryStores(m: Memory, last: int, at: int, size: int, h: Header)
    requires 0 < at < Word && 0 <= last < Word && Room(m, at) && 0 <= size < Word
    requires last != 0 ==> last + HeaderSize <= at && h.next == 0 && Holds(m, last, h)
    ensures ExtendStages(m, last, at, h)
    ensures var r := ExtendDone(m, last, at, size, h);
            && OnlyHeaders(m, r, at, at, if last != 0 then last else at)
            && Holds(r, at, Header(size, 0, last, 0))
            && (last != 0 ==> Holds(r, last, h.(next := at)))
  {
    hide SetSize, SetNext, SetPrev, SetFree, HeaderAt;
    var h0 := HeaderAt(m, at);
    assert Holds(m, at, h0);
    var m1 := SetPrev(m, at, 0);
    PrevWritten(m, at, 0, h0);
    var m2 := m1;
    if last != 0 {
      StillHolds(m, m1, at, last, h);
      var mid := SetNext(m1, last, at);
      NextWritten(m1, last, at, h);
      StillHolds(m1, mid, last, at, h0.(prev := 0));
      m2 := SetPrev(mid, at, last);
      PrevWritten(mid, at, last, h0.(prev := 0));
      StillHolds(mid, m2, at, last, h.(next := at));
    }
    var m3 := SetSize(m2, at, size);
    SizeWritten(m2, at, size, h0.(prev := last));
    var m4 := SetNext(m3, at, 0);
    NextWritten(m3, at, 0, h0.(prev := last, size := size));
    var r := SetFree(m4, at, 0);
    FreeWritten(m4, at, 0, h0.(prev := last, size := size, next := 0));
    if last != 0 {
      StillHolds(m2, m3, at, last, h.(next := at));
      StillHolds(m3, m4, at, last, h.(next := at));
      StillHolds(m4, r, at, last, h.(next := at));
    }
  }

  /** The stores of extend_heap append a used block. */
  lemma ExtendStores(m: Memory, bs: seq<Block>, lo: int, hi: int, last: int, size: int, h: Header)
    requires Tiled(bs, lo, hi) && Granular(bs) && Linked(m, bs) && 0 < lo <= hi && hi + HeaderSize <= HeapMax <= |m|
    requires last == PrevOf(bs, |bs|) && 0 <= size < Word
    requires bs != [] ==> h == HeaderOf(bs, |bs| - 1)
    ensures ExtendStages(m, last, hi, h)
    ensures var r := ExtendDone(m, last, hi, size, h);
            && Linked(r, bs + [Block(hi, size, false)])
            && forall j :: 0 <= j < |bs| ==> Payload(r, bs[j]) == Payload(m, bs[j])
  {
    hide ExtendStages, ExtendDone, SetSize, SetNext, SetPrev, SetFree, HeaderAt, Payload, OnlyHeaders;
    if bs != [] {
      assert Granule(bs[|bs| - 1]);
      Within(bs, lo, hi, |bs| - 1);
      assert LinkedAt(m, bs, |bs| - 1);
    }
    hide Tiled, Granular;
    ExtendMemoryStores(m, last, hi, size, h);
    var r := ExtendDone(m, last, hi, size, h);
    ExtendLinked(m, r, bs, lo, hi, size);
    forall j | 0 <= j < |bs| ensures Payload(r, bs[j]) == Payload(m, bs[j]) {
      PastPayload(m, r, bs, lo, hi, j);
    }
  }

  lemma PastPayload(m: Memory, r: Memory, bs: seq<Block>, lo: int, hi: int, j: nat)
    requires Tiled(bs, lo, hi) && Granular(bs) && j < |bs|
    requires OnlyHeaders(m, r, hi, hi, bs[|bs| - 1].addr)
    ensures Payload(r, bs[j]) == Payload(m, bs[j])
  {
    Within(bs, lo, hi, j);
    HeaderBeforePayload(bs, lo, hi, j, |bs| - 1);
  }

  /** Only the payload of b may differ. */
  ghost predicate OnlyPayload(m: Memory, r: Memory, b: Block) {
    |m| == |r| && forall x {:trigger r[x]} :: 0 <= x < |m| && !(PointerOf(b) <= x < EndOf(b)) ==> r[x] == m[x]
  }

  /** A byte written inside a payload. */
  lemma ByteWritten(m: Memory, b: Block, k: nat, v: Byte)
    requires k < |Payload(m, b)|
    ensures PointerOf(b) + k < |m| && OnlyPayload(m, m[PointerOf(b) + k := v], b)
    ensures Payload(m[PointerOf(b) + k := v], b) == Payload(m, b)[k := v]
  {}

  /** All payloads but that of block i are those of the blocks in use elsewhere. */
  lemma OthersSame(m: Memory, r: Memory, bs: seq<Block>, i: nat)
    requires i < |bs| && forall j :: 0 <= j < |bs| && j != i ==> Payload(r, bs[j]) == Payload(m, bs[j])
    ensures SamePayloads(m, r, Others(bs, PointerOf(bs[i])))
  {
    forall b | b in Others(bs, PointerOf(bs[i])) ensures Payload(r, b) == Payload(m, b) {
      var j :| 0 <= j < |bs| && bs[j] == b;
    }
  }

  /** Writing inside one payload harms neither the list nor another payload. */
  lemma PayloadWritten(m: Memory, r: Memory, bs: seq<Block>, lo: int, hi: int, i: nat)
    requires Tiled(bs, lo, hi) && Granular(bs) && Linked(m, bs) && i < |bs|
    requires OnlyPayload(m, r, bs[i])
    ensures Linked(r, bs)
    ensures forall j :: 0 <= j < |bs| && j != i ==> Payload(r, bs[j]) == Payload(m, bs[j])
  {
    forall j | 0 <= j < |bs| ensures LinkedAt(r, bs, j) {
      assert LinkedAt(m, bs, j);
      HeaderBeforePayload(bs, lo, hi, i, j);
      HeaderSame(m, r, bs[j].addr);
    }
    forall j | 0 <= j < |bs| && j != i ensures Payload(r, bs[j]) == Payload(m, bs[j]) {
      HeadersApart(bs, lo, hi, i, j);
      HeadersApart(bs, lo, hi, j, i);
    }
  }

  /** Memory after a memcpy between ranges that do not overlap. */
  ghost function Copied(m: Memory, dst: int, src: int, n: nat): (r: Memory)
    requires 0 <= dst && dst + n <= |m| && 0 <= src && src + n <= |m|
    ensures |r| == |m|
  {
    m[..dst] + m[src..src + n] + m[dst + n..]
  }

  /** Copying the payload of the block at i to the start of a larger one at j. */
  lemma CopiedPayload(m: Memory, bs: seq<Block>, lo: int, hi: int, i: nat, j: nat)
    requires Tiled(bs, lo, hi) && Granular(bs) && Linked(m, bs) && i < |bs| && j < |bs| && i != j
    requires bs[i].size <= bs[j].size && 0 < lo && hi <= |m|
    ensures 0 < PointerOf(bs[i]) && EndOf(bs[i]) <= |m| && 0 < PointerOf(bs[j]) && EndOf(bs[j]) <= |m| && bs[i].size >= 0
    ensures EndOf(bs[i]) <= bs[j].addr || EndOf(bs[j]) <= bs[i].addr
    ensures var r := Copied(m, PointerOf(bs[j]), PointerOf(bs[i]), bs[i].size);
            && Linked(r, bs) && Prefix(r, PointerOf(bs[j]), Payload(m, bs[i]))
            && SamePayloads(m, r, Used(bs) - {bs[j]})
  {
    Within(bs, lo, hi, i);
    Within(bs, lo, hi, j);
    assert Granule(bs[i]);
    if i < j {
      Ordered(bs, lo, hi, i, j);
    } else {
      Ordered(bs, lo, hi, j, i);
    }
    hide Granular, Tiled, HeaderAt;
    var r := Copied(m, PointerOf(bs[j]), PointerOf(bs[i]), bs[i].size);
    assert OnlyPayload(m, r, bs[j]);
    PayloadWritten(m, r, bs, lo, hi, j);
  }
}
