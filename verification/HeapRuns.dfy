/**
 * What kmalloc, kfree and krealloc promise of the block list, and what every
 * run of them keeps.
 */
module HeapRuns {
  import opened HeapSizes
  import opened HeapMemory
  import opened HeapBlocks

  ghost predicate Apart(a: Block, b: Block) {
    EndOf(a) <= b.addr || EndOf(b) <= a.addr
  }

  /** The request is one ksbrk's arithmetic can carry. */
  predicate Askable(size: nat) {
    size + HeaderSize <= MaxRequest
  }

  /** Block g is new: it overlaps no block that was in use. */
  ghost predicate Fresh(h: Heap, g: Block) {
    forall b :: b in Used(h.blocks) ==> Apart(b, g)
  }

  ghost predicate NoneFits(h: Heap, size: int) {
    forall b :: b in h.blocks ==> !Fits(b, size)
  }

  lemma ExtendShape(h: Heap, n: int)
    requires Shape(h) && Granule(Block(h.end, n, false)) && h.end + n + HeaderSize <= HeapMax
    ensures Shape(h.(blocks := h.blocks + [Block(h.end, n, false)], end := h.end + n + HeaderSize))
    ensures Used(h.blocks + [Block(h.end, n, false)]) == Used(h.blocks) + {Block(h.end, n, false)}
  {
    var g := Block(h.end, n, false);
    var bs := h.blocks + [g];
    assert forall j :: 0 <= j < |h.blocks| ==> bs[j] == h.blocks[j] && Granule(h.blocks[j]);
    assert forall b :: b in bs <==> b in h.blocks || b == g;
  }

  lemma ExtendFresh(h: Heap, g: Block)
    requires Shape(h) && g.addr == h.end
    ensures Fresh(h, g)
  {
    forall b | b in Used(h.blocks) ensures Apart(b, g) {
      var i :| 0 <= i < |h.blocks| && h.blocks[i] == b;
      Within(h.blocks, h.begin, h.end, i);
    }
  }

  lemma TakeFresh(h: Heap, i: nat, size: int)
    requires Shape(h) && i < |h.blocks| && Fits(h.blocks[i], size)
    ensures Fresh(h, Block(h.blocks[i].addr, size, false))
  {
    forall b | b in Used(h.blocks) ensures Apart(b, Block(h.blocks[i].addr, size, false)) {
      Disjoint(h, b, h.blocks[i]);
    }
  }

  /** What placing a block of n bytes does. */
  lemma PlaceKeeps(h: Heap, n: int)
    requires Shape(h) && Granule(Block(0, n, false))
    ensures var Done(r, out) := Place(h, n);
            && Shape(r) && r.begin == h.begin && h.end <= r.end && !out.Null?
            && (out.Overflow? <==> NoneFits(h, n) && h.end + n + HeaderSize > HeapMax)
            && (!out.Pointer? ==> r == h)
            && (out.Pointer? ==>
                  var g := Block(out.at - HeaderSize, n, false);
                  && Used(r.blocks) == Used(h.blocks) + {g}
                  && Fresh(h, g) && h.begin <= g.addr
                  && (r.end == h.end || NoneFits(h, n)))
  {
    hide Take, Shape, Used;
    var i := FirstFit(h.blocks, n);
    assert Granule(Block(h.end, n, false));
    if i < |h.blocks| {
      FoundKeeps(h, i, n);
      assert h.blocks[i] in h.blocks;
    } else {
      assert NoneFits(h, n);
      EndIsPast(h);
      ExtendFresh(h, Block(h.end, n, false));
      if h.end + n + HeaderSize <= HeapMax {
        ExtendShape(h, n);
      }
    }
  }

  /**
   * kmalloc keeps the shape. It fails only for an empty request, or when no
   * free block fits and the heap cannot grow; otherwise one block of exactly
   * the rounded size, overlapping no block in use, joins those in use.
   */
  lemma MallocKeeps(h: Heap, size: nat)
    requires Shape(h) && Askable(size)
    ensures var Done(r, out) := Malloc(h, size);
            && Shape(r) && r.begin == h.begin && h.end <= r.end
            && (out.Null? <==> size == 0)
            && (out.Overflow? <==> size > 0 && NoneFits(h, Rounded(size)) && h.end + Rounded(size) + HeaderSize > HeapMax)
            && (!out.Pointer? ==> r == h)
            && (out.Pointer? ==>
                  var g := Block(out.at - HeaderSize, Rounded(size), false);
                  && Used(r.blocks) == Used(h.blocks) + {g}
                  && Fresh(h, g) && size <= g.size && h.begin <= g.addr
                  && (r.end == h.end || NoneFits(h, g.size)))
  {
    hide Place, Used, Rounded;
    RoundedSize(size);
    if size > 0 {
      PlaceKeeps(h, Rounded(size));
    }
  }

  lemma PlaceShape(h: Heap, n: int)
    requires Shape(h) && Granule(Block(0, n, false))
    ensures Shape(Place(h, n).heap)
  {
    PlaceKeeps(h, n);
  }

  lemma EndIsPast(h: Heap)
    requires Shape(h)
    ensures h.begin <= h.end
  {}

  lemma FoundKeeps(h: Heap, i: nat, n: int)
    requires Shape(h) && i < |h.blocks| && Fits(h.blocks[i], n) && Granule(Block(0, n, false))
    ensures Shape(h.(blocks := Take(h.blocks, i, n)))
    ensures Used(Take(h.blocks, i, n)) == Used(h.blocks) + {Block(h.blocks[i].addr, n, false)}
    ensures Fresh(h, Block(h.blocks[i].addr, n, false)) && h.begin <= h.blocks[i].addr
  {
    hide Take, Used;
    TakeShape(h.blocks, h.begin, h.end, i, n);
    assert Granule(h.blocks[i]);
    assert h.blocks[i].size > n ==> h.blocks[i].size > n + HeaderSize by {
      assert (h.blocks[i].size - n) % 64 == 0;
    }
    TakeUsed(h.blocks, i, n);
    TakeFresh(h, i, n);
    Within(h.blocks, h.begin, h.end, i);
  }

  /** kmalloc is first fit: no fitting free block lies below the one it uses. */
  lemma MallocIsFirstFit(h: Heap, size: nat, b: Block)
    requires Shape(h) && Askable(size) && size > 0
    requires b in h.blocks && Fits(b, Rounded(size))
    ensures Malloc(h, size).out.Pointer? && Malloc(h, size).out.at <= PointerOf(b)
  {
    hide Take;
    RoundedSize(size);
    var k :| 0 <= k < |h.blocks| && h.blocks[k] == b;
    var i := FirstFit(h.blocks, Rounded(size));
    if i < k {
      Ordered(h.blocks, h.begin, h.end, i, k);
      assert Granule(h.blocks[i]);
    }
  }

  /** kfree takes exactly the freed block out of use, and keeps the shape. */
  lemma FreeKeeps(h: Heap, b: Block)
    requires Shape(h) && b in Used(h.blocks)
    ensures var r := Free(h, PointerOf(b));
            Shape(r) && r.begin == h.begin && r.end == h.end && Used(r.blocks) == Used(h.blocks) - {b}
    ensures PointerOf(b) > 0
  {
    Located(h, b);
    var i := IndexOf(h.blocks, b.addr);
    Within(h.blocks, h.begin, h.end, i);
    ReleaseShape(h.blocks, h.begin, h.end, i);
    ReleaseUsed(h.blocks, h.begin, h.end, i);
  }

  /** krealloc leaves room for the old contents, and every other block in use as it was. */
  ghost predicate Moved(h: Heap, r: Heap, b: Block, size: int, at: int, g: Block) {
    && PointerOf(g) == at && !g.free && g.size >= size && g.size >= b.size
    && Used(r.blocks) == Used(h.blocks) - {b} + {g}
    && (g.addr == b.addr || Fresh(h, g))
  }

  /** The free block right behind b makes up for what b lacks. */
  ghost predicate Extends(h: Heap, b: Block, size: int) {
    exists n :: n in h.blocks && n.free && n.addr == EndOf(b) && b.size + HeaderSize + n.size >= size
  }

  lemma BehindIs(h: Heap, i: nat, size: int)
    requires Shape(h) && i < |h.blocks|
    ensures Extends(h, h.blocks[i], size)
            <==> i + 1 < |h.blocks| && h.blocks[i + 1].free && h.blocks[i + 1].size + HeaderSize + h.blocks[i].size >= size
  {
    TiledDistinct(h.blocks, h.begin, h.end);
    forall n | n in h.blocks && n.addr == EndOf(h.blocks[i]) ensures i + 1 < |h.blocks| && n == h.blocks[i + 1] {
      var j :| 0 <= j < |h.blocks| && h.blocks[j] == n;
      Within(h.blocks, h.begin, h.end, j);
      assert Granule(n);
    }
    if i + 1 < |h.blocks| {
      assert h.blocks[i + 1] in h.blocks && h.blocks[i + 1].addr == EndOf(h.blocks[i]);
    }
  }

  /**
   * krealloc: the pointer stays exactly when the block, or with the free block
   * behind it, is large enough; it fails exactly when neither is, no free block
   * fits and the heap cannot grow. In all cases the result holds the request
   * and the old contents and no other block in use changes.
   */
  lemma ReallocKeeps(h: Heap, b: Block, size: nat) returns (g: Block)
    requires Shape(h) && b in Used(h.blocks) && Askable(size)
    ensures var Done(r, out) := Realloc(h, PointerOf(b), size);
            && Shape(r) && r.begin == h.begin && !out.Null?
            && (out == Pointer(PointerOf(b)) <==> b.size >= size || Extends(h, b, size))
            && (out.Overflow? <==> b.size < size && !Extends(h, b, size) && NoneFits(h, Rounded(size)) && h.end + Rounded(size) + HeaderSize > HeapMax)
            && (out.Overflow? || b.size >= size ==> r == h)
            && (out.Pointer? ==> Moved(h, r, b, size, out.at, g))
            && (out.Pointer? && out.at != PointerOf(b) ==> g.size == Rounded(size))
  {
    hide Release, Merge, Malloc, Used, Rounded, Extends, NoneFits;
    var i := Position(h, b);
    var p := PointerOf(b);
    BehindIs(h, i, size);
    if b.size >= size {
      g := b;
    } else if i + 1 < |h.blocks| && h.blocks[i + 1].free && h.blocks[i + 1].size + HeaderSize + b.size >= size {
      g := b.(size := b.size + HeaderSize + h.blocks[i + 1].size);
      GrowInPlace(h, i);
    } else {
      g := Relocates(h, b, i, size);
    }
  }

  lemma Relocates(h: Heap, b: Block, i: nat, size: nat) returns (g: Block)
    requires Shape(h) && b in Used(h.blocks) && Askable(size) && b.size < size
    requires i < |h.blocks| && i == IndexOf(h.blocks, b.addr) && h.blocks[i] == b && PointerOf(b) > 0 && !b.free && Granule(b)
    ensures var Done(r, out) := Relocate(h, PointerOf(b), size);
            && Shape(r) && r.begin == h.begin && !out.Null? && out != Pointer(PointerOf(b))
            && (out.Overflow? <==> NoneFits(h, Rounded(size)) && h.end + Rounded(size) + HeaderSize > HeapMax)
            && (out.Overflow? ==> r == h)
            && (out.Pointer? ==> Moved(h, r, b, size, out.at, g) && g.size == Rounded(size))
  {
    hide Release, Malloc, Used, Rounded, NoneFits;
    var p := PointerOf(b);
    RoundedSize(size);
    MallocKeeps(h, Rounded(size));
    var Done(grown, out) := Malloc(h, Rounded(size));
    g := b;
    if out.Pointer? {
      g := Block(out.at - HeaderSize, Rounded(size), false);
      assert b in Used(grown.blocks);
      FreeKeeps(grown, b);
      assert Apart(b, g);
      assert g != b;
      assert Used(Free(grown, p).blocks) == Used(h.blocks) - {b} + {g};
    }
  }

  lemma FreshIsNew(h: Heap, g: Block)
    requires Fresh(h, g) && g.size >= 0
    ensures g !in Used(h.blocks)
  {}

  lemma Position(h: Heap, b: Block) returns (i: nat)
    requires Shape(h) && b in Used(h.blocks)
    ensures i < |h.blocks| && i == IndexOf(h.blocks, b.addr) && h.blocks[i] == b
    ensures PointerOf(b) > 0 && !b.free && Granule(b)
  {
    Located(h, b);
    i := IndexOf(h.blocks, b.addr);
    assert Granule(h.blocks[i]);
    Within(h.blocks, h.begin, h.end, i);
  }

  lemma GrowInPlace(h: Heap, i: nat)
    requires Shape(h) && i + 1 < |h.blocks| && !h.blocks[i].free && h.blocks[i + 1].free
    ensures Shape(h.(blocks := Merge(h.blocks, i)))
    ensures var b := h.blocks[i];
            Used(Merge(h.blocks, i)) == Used(h.blocks) - {b} + {b.(size := b.size + HeaderSize + h.blocks[i + 1].size)}
    ensures Granule(h.blocks[i + 1])
  {
    hide Merge, Used;
    MergeShape(h.blocks, h.begin, h.end, i);
    TiledDistinct(h.blocks, h.begin, h.end);
    MergeUsed(h.blocks, i);
    MergeAt(h.blocks, i);
    var r := Merge(h.blocks, i);
    forall j | 0 <= j < |r| - 1 ensures !(r[j].free && r[j + 1].free) {
      assert r[j].free == h.blocks[if j <= i then j else j + 1].free;
      assert r[j + 1].free == h.blocks[if j + 1 <= i then j + 1 else j + 2].free;
    }
    assert Granule(h.blocks[i + 1]);
  }

  /** ---------- Runs ---------- */

  datatype Op = DoMalloc(size: nat) | DoFree(block: Block) | DoRealloc(block: Block, size: nat) | DoReallocNull(size: nat)

  /** Callers give back only blocks they hold, and ask for sizes ksbrk can carry. */
  ghost predicate Enabled(h: Heap, op: Op) {
    match op
    case DoMalloc(size) => Askable(size)
    case DoFree(b) => b in Used(h.blocks)
    case DoRealloc(b, size) => b in Used(h.blocks) && Askable(size)
    case DoReallocNull(size) => Askable(size)
  }

  function Step(h: Heap, op: Op): (r: Heap) {
    match op
    case DoMalloc(size) => Malloc(h, size).heap
    case DoFree(b) => Free(h, PointerOf(b))
    case DoRealloc(b, size) => Realloc(h, PointerOf(b), size).heap
    case DoReallocNull(size) => Realloc(h, 0, size).heap
  }

  function Run(h: Heap, ops: seq<Op>): (r: Heap) {
    if ops == [] then h else Step(Run(h, ops[..|ops| - 1]), ops[|ops| - 1])
  }

  ghost predicate ValidRun(h: Heap, ops: seq<Op>) {
    ops == [] || (ValidRun(h, ops[..|ops| - 1]) && Enabled(Run(h, ops[..|ops| - 1]), ops[|ops| - 1]))
  }

  /** init_alloc: an empty heap at the end of the kernel image. */
  function Init(begin: int): Heap {
    Heap(begin, begin, [])
  }

  lemma StepKeeps(h: Heap, op: Op)
    requires Shape(h) && Enabled(h, op)
    ensures Shape(Step(h, op)) && Step(h, op).begin == h.begin
  {
    hide Shape, Malloc, Realloc, Free, Used;
    match op
    case DoMalloc(size) => MallocKeeps(h, size);
    case DoFree(b) => FreeKeeps(h, b);
    case DoRealloc(b, size) => var g := ReallocKeeps(h, b, size);
    case DoReallocNull(size) =>
      MallocKeeps(h, size);
      ReallocOfNull(h, size);
  }

  lemma ReallocOfNull(h: Heap, size: nat)
    ensures Realloc(h, 0, size) == Malloc(h, size)
  {}

  /**
   * After every run from the empty heap the blocks tile [heap_begin, break)
   * exactly in address order, no two neighbours are free, every block and its
   * header is a multiple of 64 bytes, and the blocks in use are disjoint.
   */
  lemma {:induction false} EveryRun(begin: int, ops: seq<Op>)
    requires 0 < begin <= HeapMax && ValidRun(Init(begin), ops)
    ensures var h := Run(Init(begin), ops);
            && Shape(h) && h.begin == begin
            && forall a, b :: a in Used(h.blocks) && b in Used(h.blocks) && a != b ==> Apart(a, b)
    decreases |ops|
  {
    var h := Run(Init(begin), ops);
    if ops != [] {
      EveryRun(begin, ops[..|ops| - 1]);
      StepKeeps(Run(Init(begin), ops[..|ops| - 1]), ops[|ops| - 1]);
    }
    forall a, b | a in Used(h.blocks) && b in Used(h.blocks) && a != b ensures Apart(a, b) {
      Disjoint(h, a, b);
    }
  }

  /** ---------- Giving everything back ---------- */

  function FreeEach(h: Heap, bs: seq<Block>): (r: Heap)
    decreases |bs|
  {
    if bs == [] then h else FreeEach(Free(h, PointerOf(bs[0])), bs[1..])
  }

  ghost predicate NoRepeats(bs: seq<Block>) {
    forall i, j :: 0 <= i < j < |bs| ==> bs[i] != bs[j]
  }

  /** Without a block in use there is one free block that spans the whole heap. */
  lemma OneFreeBlock(h: Heap)
    requires Shape(h) && Used(h.blocks) == {} && h.blocks != []
    ensures h.blocks == [Block(h.begin, h.end - h.begin - HeaderSize, true)]
  {
    assert |h.blocks| > 1 ==> !(h.blocks[0].free && h.blocks[0 + 1].free);
    forall i | 0 <= i < |h.blocks| ensures h.blocks[i].free {
      assert h.blocks[i] in h.blocks;
      assert h.blocks[i] !in Used(h.blocks);
    }
  }

  lemma {:induction false} FreeEachKeeps(h: Heap, bs: seq<Block>)
    requires Shape(h) && NoRepeats(bs)
    requires forall b :: b in bs ==> b in Used(h.blocks)
    ensures var r := FreeEach(h, bs);
            && Shape(r) && r.begin == h.begin && r.end == h.end
            && Used(r.blocks) == Used(h.blocks) - (set b | b in bs)
    decreases |bs|
  {
    hide Free, Shape, Used;
    if bs != [] {
      FreeKeeps(h, bs[0]);
      var next := Free(h, PointerOf(bs[0]));
      forall b | b in bs[1..] ensures b in Used(next.blocks) {
        var j :| 0 <= j < |bs| - 1 && bs[1..][j] == b;
        assert bs[0] != bs[j + 1];
      }
      FreeEachKeeps(next, bs[1..]);
      assert forall b :: b in bs <==> b == bs[0] || b in bs[1..];
    }
  }

  /** Freeing every block in use, in any order, leaves one free block. */
  lemma FreeingEverything(h: Heap, bs: seq<Block>)
    requires Shape(h) && NoRepeats(bs) && h.end > h.begin
    requires forall b :: b in bs <==> b in Used(h.blocks)
    ensures FreeEach(h, bs).blocks == [Block(h.begin, h.end - h.begin - HeaderSize, true)]
  {
    FreeEachKeeps(h, bs);
    var r := FreeEach(h, bs);
    assert Used(r.blocks) == {};
    OneFreeBlock(r);
  }
}
