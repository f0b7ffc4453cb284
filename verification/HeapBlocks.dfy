/**
 * The block list of the heap as a value: what kmalloc, kfree and krealloc
 * (src/memory/alloc.c:106-248) do to the blocks between heap_begin and the
 * break, and what they keep.
 */
module HeapBlocks {
  import opened HeapSizes
  import opened HeapMemory

  /** A header's address, the payload size behind it, and whether it is free. */
  datatype Block = Block(addr: int, size: int, free: bool)

  datatype Heap = Heap(begin: int, end: int, blocks: seq<Block>)

  /** What kmalloc and krealloc give back; Overflow is the failed assertion of ksbrk. */
  datatype Outcome = Pointer(at: int) | Null | Overflow

  /** The heap after a call, with what the call gave back. */
  datatype Done = Done(heap: Heap, out: Outcome)

  /** The page of the timer's registers, where the heap must stop. */
  const HeapMax: int := 0x3f00b000
  /** Requests the int arithmetic of ksbrk can carry. */
  const MaxRequest: int := 0x4000_0000

  function EndOf(b: Block): int { b.addr + HeaderSize + b.size }

  function PointerOf(b: Block): int { b.addr + HeaderSize }

  /** The payload size kmalloc looks for. */
  function Rounded(size: nat): int {
    NextPowerOfTwo(size + HeaderSize) - HeaderSize
  }

  ghost predicate Tiled(bs: seq<Block>, lo: int, hi: int) {
    && (bs == [] ==> lo == hi)
    && (bs != [] ==> bs[0].addr == lo && EndOf(bs[|bs| - 1]) == hi)
    && forall i :: 0 <= i < |bs| - 1 ==> bs[i + 1].addr == EndOf(bs[i])
  }

  ghost predicate Granule(b: Block) {
    b.size >= 32 && (b.size + HeaderSize) % 64 == 0
  }

  ghost predicate Granular(bs: seq<Block>) {
    forall i :: 0 <= i < |bs| ==> Granule(bs[i])
  }

  ghost predicate Coalesced(bs: seq<Block>) {
    forall i :: 0 <= i < |bs| - 1 ==> !(bs[i].free && bs[i + 1].free)
  }

  /** The heap is tiled exactly, in whole granules, and no two neighbours are free. */
  ghost predicate Shape(h: Heap) {
    && 0 < h.begin <= h.end <= HeapMax
    && Tiled(h.blocks, h.begin, h.end)
    && Granular(h.blocks)
    && Coalesced(h.blocks)
  }

  /** The blocks in use. */
  ghost function Used(bs: seq<Block>): set<Block> {
    set b | b in bs && !b.free
  }

  predicate Fits(b: Block, size: int) {
    b.free && b.size >= size
  }

  /** find_free_block: the position of the first free block that is large enough, or |bs|. */
  function FirstFit(bs: seq<Block>, size: int): (i: nat)
    ensures i <= |bs|
    ensures i < |bs| ==> Fits(bs[i], size)
    ensures forall j :: 0 <= j < i ==> !Fits(bs[j], size)
  {
    if bs == [] || Fits(bs[0], size) then 0
    else 1 + FirstFit(bs[1..], size)
  }

  function Split(bs: seq<Block>, i: nat, size: int): (r: seq<Block>)
    requires i < |bs|
  {
    if bs[i].size > size + HeaderSize then
      bs[..i]
      + [bs[i].(size := size), Block(bs[i].addr + HeaderSize + size, bs[i].size - size - HeaderSize, true)]
      + bs[i + 1..]
    else bs
  }

  function Merge(bs: seq<Block>, i: nat): (r: seq<Block>)
    requires i + 1 < |bs|
  {
    bs[..i] + [bs[i].(size := bs[i].size + HeaderSize + bs[i + 1].size)] + bs[i + 2..]
  }

  function Mark(bs: seq<Block>, i: nat, free: bool): (r: seq<Block>)
    requires i < |bs|
  {
    bs[i := bs[i].(free := free)]
  }

  function Take(bs: seq<Block>, i: nat, size: int): (r: seq<Block>)
    requires i < |bs|
  {
    var marked := Mark(bs, i, false);
    if bs[i].size > size then Split(marked, i, size) else marked
  }

  function MergeNextIfFree(bs: seq<Block>, i: nat): (r: seq<Block>)
    requires i < |bs|
  {
    if i + 1 < |bs| && bs[i + 1].free then Merge(bs, i) else bs
  }

  function Release(bs: seq<Block>, i: nat): (r: seq<Block>)
    requires i < |bs|
  {
    var merged := MergeNextIfFree(Mark(bs, i, true), i);
    if i > 0 && merged[i - 1].free then Merge(merged, i - 1) else merged
  }

  /** The position of the block whose header is at a, or |bs|. */
  function IndexOf(bs: seq<Block>, a: int): (i: nat)
    ensures i <= |bs|
    ensures i < |bs| ==> bs[i].addr == a
    ensures forall j :: 0 <= j < i ==> bs[j].addr != a
  {
    if bs == [] || bs[0].addr == a then 0
    else 1 + IndexOf(bs[1..], a)
  }

  /** Where a block of n bytes goes: into the first free block that fits, or behind the last. */
  function Place(h: Heap, n: int): (r: Done)
  {
    var i := FirstFit(h.blocks, n);
    if i < |h.blocks| then
      Done(h.(blocks := Take(h.blocks, i, n)), Pointer(PointerOf(h.blocks[i])))
    else if h.end + n + HeaderSize > HeapMax then Done(h, Overflow)
    else
      Done(h.(blocks := h.blocks + [Block(h.end, n, false)], end := h.end + n + HeaderSize), Pointer(h.end + HeaderSize))
  }

  function Malloc(h: Heap, size: nat): (r: Done)
  {
    if Rounded(size) <= 0 then Done(h, Null) else Place(h, Rounded(size))
  }

  function Free(h: Heap, p: int): (r: Heap)
  {
    var i := IndexOf(h.blocks, p - HeaderSize);
    if p == 0 || i >= |h.blocks| then h else h.(blocks := Release(h.blocks, i))
  }

  /** krealloc's last resort: a new block, and the old one freed. */
  function Relocate(h: Heap, p: int, size: nat): (r: Done)
  {
    var Done(grown, out) := Malloc(h, if Rounded(size) < 0 then 0 else Rounded(size));
    if out.Pointer? then Done(Free(grown, p), out) else Done(h, out)
  }

  function Realloc(h: Heap, p: int, size: nat): (r: Done)
  {
    var i := IndexOf(h.blocks, p - HeaderSize);
    if p == 0 || i >= |h.blocks| then Malloc(h, size)
    else if h.blocks[i].size >= size then Done(h, Pointer(p))
    else if i + 1 < |h.blocks| && h.blocks[i + 1].free && h.blocks[i + 1].size + HeaderSize + h.blocks[i].size >= size then
      Done(h.(blocks := Merge(h.blocks, i)), Pointer(p))
    else Relocate(h, p, size)
  }

  /** ---------- Sizes ---------- */

  lemma SmallPowers()
    ensures Pow2(5) == 32 && Pow2(6) == 64 && Pow2(30) == MaxRequest
  {
    Word64IsPow2();
    Pow2Next(31);
    Pow2Next(30);
  }

  lemma PowerFrom64(k: nat)
    requires Pow2(k) > 32
    ensures Pow2(k) >= 64 && Pow2(k) % 64 == 0
  {
    SmallPowers();
    Exponents(5, k);
    Exponents(k, 6);
    Pow2Sum(k - 6, 6);
    hide Pow2;
    MultipleOf64(Pow2(k - 6));
  }

  lemma MultipleOf64(a: int)
    ensures (a * 64) % 64 == 0
  {
  }

  /** The least power of two from a power of two on is that power. */
  lemma PowerIsItsOwn(k: nat)
    requires 1 <= Pow2(k) <= 0x1_0000_0000
    ensures NextPowerOfTwo(Pow2(k)) == Pow2(k)
  {
    hide NextPowerOfTwo;
    NextPowerOfTwoIsLeast(Pow2(k));
  }

  /** What rounding gives is a power of two, large enough, and at most the largest request. */
  lemma RoundedPower(n: nat) returns (k: nat)
    requires 32 <= n <= MaxRequest
    ensures NextPowerOfTwo(n) == Pow2(k) && n <= Pow2(k) <= MaxRequest && (n == 32 ==> Pow2(k) == 32)
  {
    hide NextPowerOfTwo;
    NextPowerOfTwoIsLeast(n);
    k :| NextPowerOfTwo(n) == Pow2(k);
    SmallPowers();
  }

  lemma RoundedSize(size: nat)
    requires size + HeaderSize <= MaxRequest
    ensures size == 0 ==> Rounded(size) == 0
    ensures size > 0 ==> Rounded(size) >= 32 && (Rounded(size) + HeaderSize) % 64 == 0
    ensures size <= Rounded(size) && Rounded(size) + HeaderSize <= MaxRequest
    ensures Rounded(Rounded(size)) == Rounded(size)
  {
    hide NextPowerOfTwo;
    var k := RoundedPower(size + HeaderSize);
    hide Pow2;
    PowerIsItsOwn(k);
    if size > 0 {
      PowerFrom64(k);
    }
  }

  lemma RoundedGranule(size: nat)
    requires size + HeaderSize <= MaxRequest
    ensures 0 <= Rounded(size) <= MaxRequest - HeaderSize
    ensures Rounded(size) > 0 ==> Granule(Block(0, Rounded(size), false))
  {
    RoundedSize(size);
  }

  /** ---------- Shape ---------- */

  lemma {:induction false} Ordered(bs: seq<Block>, lo: int, hi: int, i: nat, j: nat)
    requires Tiled(bs, lo, hi) && Granular(bs) && i < j < |bs|
    ensures EndOf(bs[i]) <= bs[j].addr
    decreases j
  {
    if i + 1 < j {
      Ordered(bs, lo, hi, i, j - 1);
      assert Granule(bs[j - 1]);
    }
  }

  /** Every block lies within the heap. */
  lemma Within(bs: seq<Block>, lo: int, hi: int, i: nat)
    requires Tiled(bs, lo, hi) && Granular(bs) && i < |bs|
    ensures lo <= bs[i].addr && EndOf(bs[i]) <= hi
  {
    if i > 0 {
      Ordered(bs, lo, hi, 0, i);
      assert Granule(bs[0]);
    }
    if i < |bs| - 1 {
      Ordered(bs, lo, hi, i, |bs| - 1);
      assert Granule(bs[|bs| - 1]);
    }
  }

  /** Two different blocks of a heap never overlap. */
  lemma Disjoint(h: Heap, a: Block, b: Block)
    requires Shape(h) && a in h.blocks && b in h.blocks && a != b
    ensures EndOf(a) <= b.addr || EndOf(b) <= a.addr
  {
    var i :| 0 <= i < |h.blocks| && h.blocks[i] == a;
    var j :| 0 <= j < |h.blocks| && h.blocks[j] == b;
    if i < j {
      Ordered(h.blocks, h.begin, h.end, i, j);
    } else {
      Ordered(h.blocks, h.begin, h.end, j, i);
    }
  }

  lemma Located(h: Heap, b: Block)
    requires Shape(h) && b in h.blocks
    ensures IndexOf(h.blocks, b.addr) < |h.blocks|
    ensures h.blocks[IndexOf(h.blocks, b.addr)] == b
  {
    var i :| 0 <= i < |h.blocks| && h.blocks[i] == b;
    var k := IndexOf(h.blocks, b.addr);
    assert Granule(h.blocks[k]);
    if k < i {
      Ordered(h.blocks, h.begin, h.end, k, i);
    }
  }

  /** In whole granules a larger block is always large enough to be split. */
  lemma GranulesDiffer(large: Block, small: Block)
    requires Granule(large) && Granule(small) && small.size < large.size
    ensures large.size >= small.size + 64
    ensures Granule(Block(0, large.size - small.size - HeaderSize, true))
  {}

  lemma GranuleBySize(a: Block, b: Block)
    requires Granule(a) && a.size == b.size
    ensures Granule(b)
  {}

  /** Where the blocks of a split list come from. */
  lemma SplitIndex(bs: seq<Block>, i: nat, size: int, j: nat)
    requires i < |bs| && bs[i].size > size + HeaderSize && j <= |bs|
    ensures var r := Split(bs, i, size);
            && |r| == |bs| + 1
            && (j < i ==> r[j] == bs[j])
            && (j == i ==> r[j] == bs[i].(size := size))
            && (j == i + 1 ==> r[j] == Block(bs[i].addr + HeaderSize + size, bs[i].size - size - HeaderSize, true))
            && (j > i + 1 ==> r[j] == bs[j - 1])
  {}

  lemma SplitTiles(bs: seq<Block>, lo: int, hi: int, i: nat, size: int)
    requires Tiled(bs, lo, hi) && Granular(bs) && i < |bs|
    requires Granule(Block(0, size, false)) && size <= bs[i].size
    ensures bs[i].size > size <==> bs[i].size > size + HeaderSize
    ensures bs[i].size > size ==> bs[i].size >= size + HeaderSize + 32
    ensures bs[i].size == size ==> Split(bs, i, size) == bs
    ensures Split(bs, i, size) != []
    ensures Tiled(Split(bs, i, size), lo, hi) && Granular(Split(bs, i, size))
  {
    assert Granule(bs[i]);
    if bs[i].size > size {
      GranulesDiffer(bs[i], Block(0, size, false));
      hide Granule, Split;
      var r := Split(bs, i, size);
      SplitIndex(bs, i, size, 0);
      SplitIndex(bs, i, size, |bs|);
      forall j | 0 <= j < |r| ensures Granule(r[j]) {
        SplitIndex(bs, i, size, j);
        if j == i {
          GranuleBySize(Block(0, size, false), r[i]);
        } else if j == i + 1 {
          GranuleBySize(Block(0, bs[i].size - size - HeaderSize, true), r[i + 1]);
        }
      }
      forall j | 0 <= j < |r| - 1 ensures r[j + 1].addr == EndOf(r[j]) {
        SplitIndex(bs, i, size, j);
        SplitIndex(bs, i, size, j + 1);
      }
    }
  }

  /** A split off remainder has no free neighbour. */
  lemma SplitCoalesced(bs: seq<Block>, i: nat, size: int)
    requires Coalesced(bs) && i < |bs|
    requires !bs[i].free && (i + 1 < |bs| ==> !bs[i + 1].free)
    ensures Coalesced(Split(bs, i, size))
  {
    var r := Split(bs, i, size);
    if bs[i].size > size + HeaderSize {
      assert forall j :: 0 <= j < i ==> r[j] == bs[j];
      assert forall j :: i + 2 <= j < |r| ==> r[j] == bs[j - 1];
    }
  }

  lemma MergeShape(bs: seq<Block>, lo: int, hi: int, i: nat)
    requires Tiled(bs, lo, hi) && Granular(bs) && i + 1 < |bs|
    ensures Tiled(Merge(bs, i), lo, hi) && Granular(Merge(bs, i))
  {
    var r := Merge(bs, i);
    assert forall j :: 0 <= j < i ==> r[j] == bs[j];
    assert forall j :: i < j < |r| ==> r[j] == bs[j + 1];
    assert Granule(bs[i]) && Granule(bs[i + 1]);
    assert Granule(r[i]);
  }

  lemma MarkShape(bs: seq<Block>, lo: int, hi: int, i: nat, free: bool)
    requires Tiled(bs, lo, hi) && Granular(bs) && i < |bs|
    ensures Tiled(Mark(bs, i, free), lo, hi) && Granular(Mark(bs, i, free))
  {
    var marked := Mark(bs, i, free);
    assert forall j :: 0 <= j < |bs| ==> Granule(bs[j]) && marked[j].size == bs[j].size && marked[j].addr == bs[j].addr;
  }

  /** Taking a fitting free block keeps the shape and leaves a block of exactly the size asked for. */
  lemma TakeShape(bs: seq<Block>, lo: int, hi: int, i: nat, size: int)
    requires Tiled(bs, lo, hi) && Granular(bs) && Coalesced(bs) && i < |bs|
    requires Fits(bs[i], size) && Granule(Block(0, size, false))
    ensures Tiled(Take(bs, i, size), lo, hi) && Granular(Take(bs, i, size)) && Coalesced(Take(bs, i, size))
    ensures i < |Take(bs, i, size)| && Take(bs, i, size)[i] == Block(bs[i].addr, size, false)
  {
    hide Split;
    var marked := Mark(bs, i, false);
    assert Granule(bs[i]);
    assert forall j :: 0 <= j < |bs| ==> Granule(bs[j]) && marked[j].size == bs[j].size && marked[j].addr == bs[j].addr;
    assert forall j :: 0 <= j < |bs| && j != i ==> marked[j] == bs[j];
    if bs[i].size > size {
      SplitTiles(marked, lo, hi, i, size);
      SplitCoalesced(marked, i, size);
      SplitAt(marked, i, size);
    }
  }

  lemma SplitAt(bs: seq<Block>, i: nat, size: int)
    requires i < |bs| && bs[i].size > size + HeaderSize
    ensures i < |Split(bs, i, size)| && Split(bs, i, size)[i] == bs[i].(size := size)
  {}

  /** Splitting a used block changes only its size among the blocks in use. */
  lemma SplitUsed(bs: seq<Block>, i: nat, size: int)
    requires i < |bs| && bs[i].size > size + HeaderSize && !bs[i].free
    ensures Used(Split(bs, i, size)) == Used(bs[..i] + bs[i + 1..]) + {bs[i].(size := size)}
  {
    var r := Split(bs, i, size);
    var others := bs[..i] + bs[i + 1..];
    assert r == bs[..i] + [bs[i].(size := size), r[i + 1]] + bs[i + 1..];
    assert forall b :: b in r <==> b in bs[..i] || b == bs[i].(size := size) || b == r[i + 1] || b in bs[i + 1..];
    assert forall b :: b in others <==> b in bs[..i] || b in bs[i + 1..];
  }

  lemma UsedWithoutFree(bs: seq<Block>, i: nat)
    requires i < |bs| && bs[i].free
    ensures Used(bs[..i] + bs[i + 1..]) == Used(bs)
  {
    assert bs == bs[..i] + [bs[i]] + bs[i + 1..];
    assert forall b :: b in bs <==> b in bs[..i] || b == bs[i] || b in bs[i + 1..];
  }

  /** The blocks in use after a take: those before and the one taken. */
  lemma TakeUsed(bs: seq<Block>, i: nat, size: int)
    requires i < |bs| && Fits(bs[i], size)
    requires bs[i].size > size ==> bs[i].size > size + HeaderSize
    ensures Used(Take(bs, i, size)) == Used(bs) + {Block(bs[i].addr, size, false)}
  {
    hide Split;
    var marked := Mark(bs, i, false);
    UsedWithoutFree(bs, i);
    assert marked[..i] == bs[..i] && marked[i + 1..] == bs[i + 1..];
    if bs[i].size > size {
      hide Used;
      SplitUsed(marked, i, size);
    } else {
      assert marked == bs[..i] + [marked[i]] + bs[i + 1..];
      assert forall b :: b in marked <==> b in bs[..i] || b == marked[i] || b in bs[i + 1..];
    }
  }

  /** Only the blocks at i - 1 and i may be neighbours that are both free. */
  ghost predicate CoalescedBut(bs: seq<Block>, i: nat) {
    forall j :: 0 <= j < |bs| - 1 && j != i - 1 ==> !(bs[j].free && bs[j + 1].free)
  }

  lemma ReleaseForward(bs: seq<Block>, lo: int, hi: int, i: nat)
    requires Tiled(bs, lo, hi) && Granular(bs) && Coalesced(bs) && i < |bs|
    ensures var merged := MergeNextIfFree(Mark(bs, i, true), i);
            Tiled(merged, lo, hi) && Granular(merged) && CoalescedBut(merged, i) && i < |merged| && merged[i].free
  {
    hide Merge;
    var marked := Mark(bs, i, true);
    assert forall j :: 0 <= j < |bs| ==> Granule(bs[j]) && marked[j].size == bs[j].size && marked[j].addr == bs[j].addr;
    assert forall j :: 0 <= j < |bs| && j != i ==> marked[j] == bs[j];
    if i + 1 < |bs| && bs[i + 1].free {
      MergeShape(marked, lo, hi, i);
      MergeAt(marked, i);
      assert i + 2 < |bs| ==> !bs[i + 2].free;
      var merged := Merge(marked, i);
      forall j | 0 <= j < |merged| - 1 && j != i - 1 ensures !(merged[j].free && merged[j + 1].free) {
        assert merged[j + 1] == marked[if j + 1 < i then j + 1 else j + 2];
        assert j != i ==> merged[j] == marked[if j < i then j else j + 1];
      }
    }
  }

  lemma ReleaseBackward(bs: seq<Block>, lo: int, hi: int, i: nat)
    requires Tiled(bs, lo, hi) && Granular(bs) && CoalescedBut(bs, i) && 0 < i < |bs|
    requires bs[i].free && bs[i - 1].free
    ensures Tiled(Merge(bs, i - 1), lo, hi) && Granular(Merge(bs, i - 1)) && Coalesced(Merge(bs, i - 1))
  {
    hide Merge;
    MergeShape(bs, lo, hi, i - 1);
    MergeAt(bs, i - 1);
    var r := Merge(bs, i - 1);
    forall j | 0 <= j < |r| - 1 ensures !(r[j].free && r[j + 1].free) {
      assert r[j].free == bs[if j < i then j else j + 1].free;
      assert r[j + 1].free == bs[if j + 1 < i then j + 1 else j + 2].free;
      assert j == i - 1 ==> !bs[i + 1].free;
    }
  }

  lemma ReleaseShape(bs: seq<Block>, lo: int, hi: int, i: nat)
    requires Tiled(bs, lo, hi) && Granular(bs) && Coalesced(bs) && i < |bs|
    ensures Tiled(Release(bs, i), lo, hi) && Granular(Release(bs, i)) && Coalesced(Release(bs, i))
  {
    hide Merge, Tiled, Granular, MergeNextIfFree;
    ReleaseForward(bs, lo, hi, i);
    var merged := MergeNextIfFree(Mark(bs, i, true), i);
    if i > 0 && merged[i - 1].free {
      ReleaseBackward(merged, lo, hi, i);
    }
  }

  lemma MergeAt(bs: seq<Block>, i: nat)
    requires i + 1 < |bs|
    ensures |Merge(bs, i)| == |bs| - 1
    ensures forall j :: 0 <= j < i ==> Merge(bs, i)[j] == bs[j]
    ensures Merge(bs, i)[i] == bs[i].(size := bs[i].size + HeaderSize + bs[i + 1].size)
    ensures forall j {:trigger Merge(bs, i)[j]} :: i < j < |bs| - 1 ==> Merge(bs, i)[j] == bs[j + 1]
  {}

  /** Merging a free block into one changes no other block in use. */
  lemma MergeUsed(bs: seq<Block>, i: nat)
    requires i + 1 < |bs| && bs[i + 1].free
    requires forall j :: 0 <= j < |bs| && j != i ==> bs[j] != bs[i]
    ensures Used(Merge(bs, i)) ==
            if bs[i].free then Used(bs) else Used(bs) - {bs[i]} + {bs[i].(size := bs[i].size + HeaderSize + bs[i + 1].size)}
  {
    var r := Merge(bs, i);
    assert forall j :: 0 <= j < i ==> r[j] == bs[j];
    assert forall j :: i + 1 < j < |bs| ==> r[j - 1] == bs[j];
    forall b | b in Used(bs) && b != bs[i] ensures b in Used(r) {
      var j :| 0 <= j < |bs| && bs[j] == b;
      assert b == r[if j < i then j else j - 1];
    }
    forall b | b in Used(r) ensures b == r[i] || (b in Used(bs) && b != bs[i]) {
      var j :| 0 <= j < |r| && r[j] == b;
      if j != i {
        assert b == bs[if j < i then j else j + 1];
      }
    }
    assert r[i] in r;
  }

  ghost predicate AddressesDistinct(bs: seq<Block>) {
    forall i, j :: 0 <= i < j < |bs| ==> bs[i].addr != bs[j].addr
  }

  lemma TiledDistinct(bs: seq<Block>, lo: int, hi: int)
    requires Tiled(bs, lo, hi) && Granular(bs)
    ensures AddressesDistinct(bs)
  {
    forall i, j | 0 <= i < j < |bs| ensures bs[i].addr != bs[j].addr {
      Ordered(bs, lo, hi, i, j);
      assert Granule(bs[i]);
    }
  }

  lemma MarkUsed(bs: seq<Block>, i: nat)
    requires i < |bs| && AddressesDistinct(bs) && !bs[i].free
    ensures Used(Mark(bs, i, true)) == Used(bs) - {bs[i]}
  {
    var r := Mark(bs, i, true);
    forall b | b in Used(bs) - {bs[i]} ensures b in Used(r) {
      var j :| 0 <= j < |bs| && bs[j] == b;
      assert b == r[j];
    }
    forall b | b in Used(r) ensures b in Used(bs) - {bs[i]} {
      var j :| 0 <= j < |r| && r[j] == b;
      assert j != i;
      assert b == bs[j];
    }
  }

  /** Releasing a block takes it, and only it, out of use. */
  lemma ReleaseUsed(bs: seq<Block>, lo: int, hi: int, i: nat)
    requires Tiled(bs, lo, hi) && Granular(bs) && i < |bs| && !bs[i].free
    ensures Used(Release(bs, i)) == Used(bs) - {bs[i]}
  {
    hide Merge, Used;
    var marked := Mark(bs, i, true);
    TiledDistinct(bs, lo, hi);
    MarkUsed(bs, i);
    assert Tiled(marked, lo, hi) && Granular(marked) by {
      assert forall j :: 0 <= j < |bs| ==> Granule(bs[j]) && marked[j].size == bs[j].size && marked[j].addr == bs[j].addr;
    }
    TiledDistinct(marked, lo, hi);
    var merged := MergeNextIfFree(marked, i);
    if i + 1 < |bs| && bs[i + 1].free {
      MergeShape(marked, lo, hi, i);
      MergeUsed(marked, i);
      MergeAt(marked, i);
    }
    assert merged[i].free;
    TiledDistinct(merged, lo, hi);
    if i > 0 && merged[i - 1].free {
      MergeUsed(merged, i - 1);
    }
  }

  lemma MergeNextUsed(bs: seq<Block>, lo: int, hi: int, i: nat)
    requires Tiled(bs, lo, hi) && Granular(bs) && i < |bs| && bs[i].free
    ensures Used(MergeNextIfFree(bs, i)) == Used(bs)
    ensures i < |MergeNextIfFree(bs, i)| && MergeNextIfFree(bs, i)[i].addr == bs[i].addr && MergeNextIfFree(bs, i)[i].free
  {
    hide Used, Merge;
    TiledDistinct(bs, lo, hi);
    if i + 1 < |bs| && bs[i + 1].free {
      MergeUsed(bs, i);
      MergeAt(bs, i);
    }
  }
}
