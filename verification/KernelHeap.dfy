/**
 * The allocator over byte memory (src/memory/alloc.c): headers are read from
 * and stored into the bytes they share with the payloads. Each operation is
 * proved to find and leave the block list its value-level counterpart says,
 * and to leave alone the bytes of every payload that is not its own.
 */
module KernelHeap {
  import opened Bytes
  import opened HeapSizes
  import opened HeapBlocks
  import opened HeapMemory
  import opened HeapLinks
  import opened HeapRuns

  class Allocator {
    const ram: array<Byte>
    var heapBegin: int
    var endOffset: int
    /** The first block's header, or 0 (NULL) before the first kmalloc. */
    var globalBase: int
    /** The blocks in address order. */
    ghost var blocks: seq<Block>

    ghost function Value(): Heap
      reads this
    {
      Heap(heapBegin, heapBegin + endOffset, blocks)
    }

    /** The list in memory is tiled and linked; neighbours may both be free halfway through kfree. */
    ghost predicate Listed()
      reads this, ram
    {
      && ram.Length >= HeapMax
      && 0 < heapBegin <= heapBegin + endOffset <= HeapMax
      && Tiled(blocks, heapBegin, heapBegin + endOffset)
      && Granular(blocks)
      && globalBase == (if blocks == [] then 0 else heapBegin)
      && Linked(ram[..], blocks)
    }

    ghost predicate Valid()
      reads this, ram
    {
      Listed() && Coalesced(blocks)
    }

    /** p was returned by kmalloc or krealloc and has not been given back. */
    ghost predicate Live(p: int)
      reads this
    {
      exists b :: b in Used(blocks) && PointerOf(b) == p
    }

    /** The bytes of the block in use at p. */
    ghost function Contents(p: int): Memory
      reads this, ram
    {
      var i := IndexOf(blocks, p - HeaderSize);
      if i < |blocks| then Payload(ram[..], blocks[i]) else []
    }

    /** init_alloc. */
    constructor (memory: array<Byte>, begin: int)
      requires memory.Length >= HeapMax && 0 < begin <= HeapMax
      ensures Valid() && ram == memory && Value() == Init(begin)
    {
      ram := memory;
      heapBegin := begin;
      endOffset := 0;
      globalBase := 0;
      blocks := [];
    }

    /** An n-byte little-endian store. */
    method StoreWord(a: int, n: nat, v: nat)
      requires 0 <= a && a + n <= ram.Length
      modifies ram
      ensures ram[..] == Store(old(ram[..]), a, n, v)
    {
      var k := 0;
      var left := v;
      while k < n
        invariant 0 <= k <= n
        invariant Store(ram[..], a + k, n - k, left) == Store(old(ram[..]), a, n, v)
      {
        ghost var before := ram[..];
        ram[a + k] := (left % 256) as Byte;
        assert ram[..] == before[a + k := (left % 256) as Byte];
        left := left / 256;
        k := k + 1;
      }
    }

    function SizeAt(a: int): (v: int)
      requires Room(ram[..], a)
      reads ram
      ensures forall h :: Holds(ram[..], a, h) ==> v == h.size
    {
      Load(ram[..], a, 8)
    }

    function NextAt(a: int): (v: int)
      requires Room(ram[..], a)
      reads ram
      ensures forall h :: Holds(ram[..], a, h) ==> v == h.next
    {
      Load(ram[..], a + 8, 8)
    }

    function PrevAt(a: int): (v: int)
      requires Room(ram[..], a)
      reads ram
      ensures forall h :: Holds(ram[..], a, h) ==> v == h.prev
    {
      Load(ram[..], a + 16, 8)
    }

    function FreeAt(a: int): (v: int)
      requires Room(ram[..], a)
      reads ram
      ensures forall h :: Holds(ram[..], a, h) ==> v == h.free
    {
      Load(ram[..], a + 24, 4)
    }

    method WriteSize(a: int, v: nat)
      requires Room(ram[..], a) && v < Word
      modifies ram
      ensures ram[..] == SetSize(old(ram[..]), a, v)
    {
      StoreWord(a, 8, v);
    }

    method WriteNext(a: int, v: nat)
      requires Room(ram[..], a) && v < Word
      modifies ram
      ensures ram[..] == SetNext(old(ram[..]), a, v)
    {
      StoreWord(a + 8, 8, v);
    }

    method WritePrev(a: int, v: nat)
      requires Room(ram[..], a) && v < Word
      modifies ram
      ensures ram[..] == SetPrev(old(ram[..]), a, v)
    {
      StoreWord(a + 16, 8, v);
    }

    method WriteFree(a: int, v: nat)
      requires Room(ram[..], a) && v < 0x1_0000_0000
      modifies ram
      ensures ram[..] == SetFree(old(ram[..]), a, v)
    {
      StoreWord(a + 24, 4, v);
    }

    /** The stores of split_block, on the way from a list to its split. */
    method SplitOff(block: int, size: int, ghost i: nat)
      requires Listed() && i < |blocks| && blocks[i].addr == block && size >= 32 && blocks[i].size >= size + HeaderSize + 32
      modifies ram
      ensures Linked(ram[..], Split(blocks, i, size))
      ensures forall j :: 0 <= j < |blocks| && j != i ==> Payload(ram[..], blocks[j]) == old(Payload(ram[..], blocks[j]))
    {
      hide HeaderAt, Load, Store, SetSize, SetNext, SetPrev, SetFree, Split, Granular, Tiled, Linked, Payload;
      SplitStores(ram[..], blocks, heapBegin, heapBegin + endOffset, i, size,
                  block, block + HeaderSize + size, NextOf(blocks, i), blocks[i].size - size - HeaderSize);
      var rest := block + HeaderSize + size;
      WriteFree(rest, 1);
      WriteSize(rest, SizeAt(block) - size - HeaderSize);
      WriteSize(block, size);
      WritePrev(rest, block);
      WriteNext(rest, NextAt(block));
      WriteNext(block, rest);
      if NextAt(rest) != 0 {
        WritePrev(NextAt(rest), rest);
      }
    }

    /** split_block: the block at index i gives up what lies beyond size as a free block. */
    method SplitBlock(block: int, size: int, ghost i: nat)
      requires Listed() && i < |blocks| && blocks[i].addr == block
      requires Granule(Block(0, size, false)) && size <= blocks[i].size
      modifies ram, this`blocks
      ensures Listed() && blocks == Split(old(blocks), i, size)
      ensures forall j :: 0 <= j < |old(blocks)| && j != i ==> Payload(ram[..], old(blocks)[j]) == old(Payload(ram[..], blocks[j]))
    {
      hide HeaderAt, Load, Split, Granular, Tiled, Linked, Payload;
      ghost var bs := blocks;
      SplitTiles(bs, heapBegin, heapBegin + endOffset, i, size);
      IsLinkedAt(ram[..], bs, i);
      if SizeAt(block) > size + HeaderSize {
        SplitOff(block, size, i);
      }
      blocks := Split(bs, i, size);
    }

    /** merge_block: the block at index i absorbs the free one behind it; its two assertions hold. */
    method MergeBlock(block: int, ghost i: nat)
      requires Listed() && i + 1 < |blocks| && blocks[i].addr == block && blocks[i + 1].free
      modifies ram, this`blocks
      ensures Listed() && blocks == Merge(old(blocks), i)
      ensures SamePayloads(old(ram[..]), ram[..], Used(old(blocks)))
    {
      hide HeaderAt, Load, Store, SetSize, SetNext, SetPrev, SetFree, Merge, Granular, Payload;
      ghost var bs, lo, hi, m := blocks, heapBegin, heapBegin + endOffset, ram[..];
      MergeStores(m, bs, lo, hi, i, block, bs[i + 1].addr, NextOf(bs, i + 1), bs[i].size + HeaderSize + bs[i + 1].size);
      MergeShape(bs, lo, hi, i);
      MergeAt(bs, i);
      assert FreeAt(NextAt(block)) == 1;
      assert block == PrevAt(NextAt(block));
      WriteSize(block, SizeAt(block) + HeaderSize + SizeAt(NextAt(block)));
      if NextAt(NextAt(block)) != 0 {
        WritePrev(NextAt(NextAt(block)), block);
      }
      WriteNext(block, NextAt(NextAt(block)));
      SameByIndex(m, ram[..], bs);
      blocks := Merge(bs, i);
    }

    /** find_free_block: the first free block that is large enough, and the block before it. */
    method FindFreeBlock(size: int) returns (last: int, block: int)
      requires Listed() && blocks != []
      ensures var k := FirstFit(blocks, size);
              && block == (if k < |blocks| then blocks[k].addr else 0)
              && (block != 0 <==> k < |blocks|)
              && last == (if k > 0 then blocks[k - 1].addr else globalBase)
    {
      hide HeaderAt, Load, Tiled, Granular;
      ghost var k := 0;
      last, block := globalBase, globalBase;
      FirstIsBase();
      while block != 0 && !(FreeAt(block) != 0 && SizeAt(block) >= size)
        invariant 0 <= k <= |blocks|
        invariant block == (if k < |blocks| then blocks[k].addr else 0)
        invariant last == (if k > 0 then blocks[k - 1].addr else globalBase)
        invariant block != 0 ==> k < |blocks| && LinkedAt(ram[..], blocks, k)
        invariant forall j :: 0 <= j < k ==> !Fits(blocks[j], size)
        decreases |blocks| - k
      {
        NextIsSmall(blocks, heapBegin, heapBegin + endOffset, k);
        last := block;
        block := NextAt(block);
        k := k + 1;
        assert k < |blocks| ==> LinkedAt(ram[..], blocks, k);
      }
      assert k < |blocks| ==> block != 0 by {
        if k < |blocks| {
          Within(blocks, heapBegin, heapBegin + endOffset, k);
        }
      }
    }

    lemma FirstIsBase()
      requires Listed() && blocks != []
      ensures globalBase == blocks[0].addr && globalBase > 0 && LinkedAt(ram[..], blocks, 0)
    {}

    /** ksbrk for a non-negative increment; it fails where the source asserts, and its int never overflows. */
    method KSbrk(increment: nat) returns (res: int, ok: bool)
      requires 0 < heapBegin <= heapBegin + endOffset <= HeapMax && increment <= MaxRequest
      modifies this`endOffset
      ensures res == heapBegin + old(endOffset)
      ensures ok <==> heapBegin + old(endOffset) + increment <= HeapMax
      ensures endOffset == old(endOffset) + if ok then increment else 0
    {
      res := endOffset + heapBegin;
      assert res + increment < 0x8000_0000;
      ok := res + increment <= HeapMax;
      if ok {
        endOffset := endOffset + increment;
      }
    }

    /** extend_heap: a used block of the given size behind the last one. */
    method ExtendHeap(last: int, size: int) returns (block: int, ok: bool)
      requires Listed() && last == PrevOf(blocks, |blocks|)
      requires Granule(Block(0, size, false)) && size + HeaderSize <= MaxRequest
      modifies this, ram
      ensures heapBegin == old(heapBegin) && globalBase == old(globalBase)
      ensures ok <==> old(Value()).end + size + HeaderSize <= HeapMax
      ensures !ok ==> ram[..] == old(ram[..]) && blocks == old(blocks) && endOffset == old(endOffset)
      ensures ok ==> && block == old(Value()).end && endOffset == old(endOffset) + size + HeaderSize
                     && blocks == old(blocks) + [Block(block, size, false)]
                     && Linked(ram[..], blocks)
                     && SamePayloads(old(ram[..]), ram[..], Used(old(blocks)))
    {
      hide HeaderAt, Load, Store, SetSize, SetNext, SetPrev, SetFree, Granular, Payload, Tiled;
      ghost var bs, lo, hi, m := blocks, heapBegin, heapBegin + endOffset, ram[..];
      var request;
      block, ok := KSbrk(0);
      request, ok := KSbrk(size + HeaderSize);
      assert block == request;
      if !ok {
        return;
      }
      ghost var h := if bs != [] then HeaderOf(bs, |bs| - 1) else Header(0, 0, 0, 0);
      ExtendStores(m, bs, lo, hi, last, size, h);
      WritePrev(block, 0);
      if last != 0 {
        assert NextAt(last) == 0;
        WriteNext(last, block);
        WritePrev(block, last);
      }
      WriteSize(block, size);
      WriteNext(block, 0);
      WriteFree(block, 0);
      assert last != 0 ==> block >= last + HeaderSize;
      blocks := bs + [Block(block, size, false)];
    }

    /** The store to block->free. */
    method MarkBlock(block: int, free: bool, ghost i: nat)
      requires Listed() && i < |blocks| && blocks[i].addr == block
      modifies ram, this`blocks
      ensures Listed() && blocks == Mark(old(blocks), i, free)
      ensures forall j :: 0 <= j < |old(blocks)| ==> Payload(ram[..], old(blocks)[j]) == old(Payload(ram[..], blocks[j]))
    {
      hide HeaderAt, Load, Store, SetFree;
      ghost var bs, lo, hi, m := blocks, heapBegin, heapBegin + endOffset, ram[..];
      assert LinkedAt(m, bs, i);
      assert Granule(bs[i]);
      WriteFree(block, if free then 1 else 0);
      FreeWritten(m, block, if free then 1 else 0, HeaderOf(bs, i));
      MarkLinked(m, ram[..], bs, lo, hi, i, free);
      forall j | 0 <= j < |bs| ensures Payload(ram[..], bs[j]) == Payload(m, bs[j]) {
        SpectatorPayload(m, ram[..], bs, lo, hi, i, i, block, j);
      }
      MarkShape(bs, lo, hi, i, free);
      blocks := Mark(bs, i, free);
    }

    /** kmalloc takes the block found: mark it used and cut off what exceeds the size. */
    method TakeBlock(block: int, size: int, ghost i: nat)
      requires Valid() && i < |blocks| && blocks[i].addr == block
      requires Fits(blocks[i], size) && Granule(Block(0, size, false))
      modifies ram, this`blocks
      ensures Valid() && blocks == Take(old(blocks), i, size)
      ensures SamePayloads(old(ram[..]), ram[..], Used(old(blocks)))
    {
      hide HeaderAt, Load, Payload, Split, Tiled, Granular, Linked, Coalesced;
      ghost var bs, m := blocks, ram[..];
      TakeShape(bs, heapBegin, heapBegin + endOffset, i, size);
      MarkBlock(block, false, i);
      ghost var marked, m1 := blocks, ram[..];
      assert LinkedAt(m1, marked, i) by {
        hide *;
        assert Linked(m1, marked);
        IsLinkedAt(m1, marked, i);
      }
      if SizeAt(block) > size {
        SplitBlock(block, size, i);
      }
      forall b | b in Used(bs) ensures Payload(ram[..], b) == Payload(m, b) {
        var j :| 0 <= j < |bs| && bs[j] == b;
        assert j != i && marked[j] == b;
      }
    }

    /** kmalloc's search of a list that is not empty. */
    method PlaceInList(n: int) returns (block: int, ok: bool)
      requires Valid() && blocks != [] && Granule(Block(0, n, false)) && n + HeaderSize <= MaxRequest
      modifies this, ram
      ensures Valid() && Value() == Place(old(Value()), n).heap
      ensures Place(old(Value()), n).out == if ok then Pointer(block + HeaderSize) else Overflow
      ensures SamePayloads(old(ram[..]), ram[..], Used(old(blocks)))
    {
      hide HeaderAt, Payload, Take, Tiled, Granular, Linked, Coalesced, Used, Granule;
      PlaceShape(Value(), n);
      ghost var i := FirstFit(blocks, n);
      var last;
      last, block := FindFreeBlock(n);
      ok := true;
      if block == 0 {
        block, ok := ExtendHeap(last, n);
      } else {
        TakeBlock(block, n, i);
      }
    }

    /** kmalloc's first call: the heap starts with this block. */
    method PlaceFirst(n: int) returns (block: int, ok: bool)
      requires Valid() && blocks == [] && Granule(Block(0, n, false)) && n + HeaderSize <= MaxRequest
      modifies this, ram
      ensures Valid() && Value() == Place(old(Value()), n).heap
      ensures Place(old(Value()), n).out == if ok then Pointer(block + HeaderSize) else Overflow
      ensures SamePayloads(old(ram[..]), ram[..], Used(old(blocks)))
    {
      assert endOffset == 0;
      hide HeaderAt, Payload, Take, Tiled, Granular, Linked, Coalesced, Used, Granule;
      PlaceShape(Value(), n);
      block, ok := ExtendHeap(0, n);
      if ok {
        globalBase := block;
      }
    }

    /** kmalloc: the outcome and the block list are those of Malloc, and no block in use changes a byte. */
    method KMalloc(size: nat) returns (out: Outcome)
      requires Valid() && Askable(size)
      modifies this, ram
      ensures Valid() && Done(Value(), out) == Malloc(old(Value()), size)
      ensures SamePayloads(old(ram[..]), ram[..], Used(old(blocks)))
    {
      hide HeaderAt, Payload, Place, Tiled, Granular, Linked, Coalesced, NextPowerOfTwo, Used, Granule, SamePayloads;
      RoundedGranule(size);
      var n := NextPowerOfTwo(size + HeaderSize) - HeaderSize;
      if n <= 0 {
        SamePayloadsRefl(ram[..], Used(blocks));
        return Null;
      }
      var block, ok;
      if globalBase == 0 {
        block, ok := PlaceFirst(n);
      } else {
        block, ok := PlaceInList(n);
      }
      return if ok then Pointer(block + HeaderSize) else Overflow;
    }

    /** kfree: the block list is that of Free, and no block still in use changes a byte. */
    method KFree(ptr: int)
      requires Valid() && (ptr == 0 || Live(ptr))
      modifies ram, this`blocks
      ensures Valid() && Value() == Free(old(Value()), ptr)
      ensures SamePayloads(old(ram[..]), ram[..], Others(old(blocks), ptr))
    {
      hide HeaderAt, Payload, Tiled, Granular, Linked, Coalesced, HeapBlocks.Release, Used;
      if ptr == 0 {
        return;
      }
      var block := ptr - HeaderSize;
      ghost var i := LiveIndex(ptr);
      assert FreeAt(block) == 0 by {
        IsLinkedAt(ram[..], blocks, i);
      }
      Release(block, i);
    }

    /** p's block is on the list, in use. */
    lemma LiveIndex(p: int) returns (i: nat)
      requires Valid() && Live(p)
      ensures p > 0 && i < |blocks| && i == IndexOf(blocks, p - HeaderSize)
      ensures blocks[i].addr == p - HeaderSize && !blocks[i].free && blocks[i] in Used(blocks)
      ensures Room(ram[..], p - HeaderSize)
    {
      var b :| b in Used(blocks) && PointerOf(b) == p;
      i := Position(Value(), b);
      IsLinkedAt(ram[..], blocks, i);
    }

    /** kfree's first merge: with the block behind, when that is free. */
    method MergeForward(block: int, ghost i: nat)
      requires Listed() && i < |blocks| && blocks[i].addr == block
      modifies ram, this`blocks
      ensures Listed() && blocks == MergeNextIfFree(old(blocks), i)
      ensures SamePayloads(old(ram[..]), ram[..], Used(old(blocks)))
    {
      hide HeaderAt, Payload, Tiled, Granular, Linked, Merge;
      ghost var bs, m := blocks, ram[..];
      IsLinkedAt(m, bs, i);
      NextIsSmall(bs, heapBegin, heapBegin + endOffset, i);
      if i + 1 < |bs| {
        IsLinkedAt(m, bs, i + 1);
      }
      if NextAt(block) != 0 && FreeAt(NextAt(block)) != 0 {
        MergeBlock(block, i);
      }
    }

    /** kfree's second merge: into the block in front, when that is free. */
    method MergeBackward(block: int, ghost i: nat)
      requires Listed() && i < |blocks| && blocks[i].addr == block && blocks[i].free
      modifies ram, this`blocks
      ensures Listed() && blocks == if i > 0 && old(blocks)[i - 1].free then Merge(old(blocks), i - 1) else old(blocks)
      ensures SamePayloads(old(ram[..]), ram[..], Used(old(blocks)))
    {
      hide HeaderAt, Payload, Tiled, Granular, Linked, Merge;
      ghost var bs, m := blocks, ram[..];
      IsLinkedAt(m, bs, i);
      PrevIsSmall(bs, heapBegin, heapBegin + endOffset, i);
      if i > 0 {
        IsLinkedAt(m, bs, i - 1);
      }
      if PrevAt(block) != 0 && FreeAt(PrevAt(block)) != 0 {
        MergeBlock(PrevAt(block), i - 1);
      }
    }

    /** Marking the block free and merging it with its free neighbours. */
    method Release(block: int, ghost i: nat)
      requires Valid() && i < |blocks| && blocks[i].addr == block && !blocks[i].free
      modifies ram, this`blocks
      ensures Valid() && blocks == HeapBlocks.Release(old(blocks), i)
      ensures SamePayloads(old(ram[..]), ram[..], Used(old(blocks)) - {old(blocks[i])})
    {
      hide HeaderAt, Payload, Tiled, Granular, Linked, Coalesced, Merge, MergeNextIfFree, Used;
      ghost var bs, m, lo, hi := blocks, ram[..], heapBegin, heapBegin + endOffset;
      ReleaseShape(bs, lo, hi, i);
      ReleaseForward(bs, lo, hi, i);
      TiledDistinct(bs, lo, hi);
      MarkUsed(bs, i);
      MarkBlock(block, true, i);
      SameByIndex(m, ram[..], bs);
      MergeNextUsed(blocks, lo, hi, i);
      MergeForward(block, i);
      MergeBackward(block, i);
    }

    /** memcpy between ranges that do not overlap. */
    method CopyBytes(dst: int, src: int, n: nat)
      requires 0 <= dst && dst + n <= ram.Length && 0 <= src && src + n <= ram.Length
      requires dst + n <= src || src + n <= dst
      modifies ram
      ensures ram[..] == Copied(old(ram[..]), dst, src, n)
    {
      var k := 0;
      while k < n
        invariant 0 <= k <= n
        invariant forall x :: dst <= x < dst + k ==> ram[x] == old(ram[x - dst + src])
        invariant forall x :: 0 <= x < ram.Length && !(dst <= x < dst + k) ==> ram[x] == old(ram[x])
      {
        ram[dst + k] := ram[src + k];
        k := k + 1;
      }
    }

    /** A caller writes the k-th byte of a block it holds. */
    method WriteByte(ptr: int, k: nat, v: Byte)
      requires Valid() && Live(ptr) && k < |Contents(ptr)|
      modifies ram
      ensures Valid() && Contents(ptr) == old(Contents(ptr))[k := v]
      ensures SamePayloads(old(ram[..]), ram[..], Others(blocks, ptr))
    {
      hide Live, HeaderAt, Tiled, Granular, Coalesced, Linked, Payload, OnlyPayload, SamePayloads, Others, IndexOf;
      ghost var m := ram[..];
      ghost var i := LiveIndex(ptr);
      ByteWritten(m, blocks[i], k, v);
      ram[ptr + k] := v;
      assert ram[..] == m[ptr + k := v];
      PayloadWritten(m, ram[..], blocks, heapBegin, heapBegin + endOffset, i);
      OthersSame(m, ram[..], blocks, i);
    }

    /** There is one block in use at p, and it lies in memory. */
    lemma BlockAt(p: int, i: nat)
      requires Valid() && i < |blocks| && blocks[i].addr == p - HeaderSize && !blocks[i].free
      ensures forall b :: b in Used(blocks) && PointerOf(b) == p ==> b == blocks[i]
      ensures 0 < p && p + blocks[i].size <= HeapMax <= ram.Length && blocks[i].size >= 32
      ensures SizeAtIs(i)
    {
      TiledDistinct(blocks, heapBegin, heapBegin + endOffset);
      Within(blocks, heapBegin, heapBegin + endOffset, i);
      assert Granule(blocks[i]);
      IsLinkedAt(ram[..], blocks, i);
    }

    ghost predicate SizeAtIs(i: nat)
      requires i < |blocks|
      reads this, ram
    {
      Room(ram[..], blocks[i].addr) && SizeAt(blocks[i].addr) == blocks[i].size && NextAt(blocks[i].addr) == NextOf(blocks, i)
    }

    /** memcpy of the whole old payload to the start of the new one. */
    method MoveTo(at: int, ptr: int, size: int, n: int, ghost i: nat, ghost j: nat)
      requires Valid() && i < |blocks| && j < |blocks| && i != j
      requires blocks[i] == Block(ptr - HeaderSize, size, false) && blocks[j] == Block(at - HeaderSize, n, false) && size <= n
      modifies ram
      ensures Valid() && Prefix(ram[..], at, old(Payload(ram[..], blocks[i])))
      ensures SamePayloads(old(ram[..]), ram[..], Used(blocks) - {blocks[j]})
    {
      hide HeaderAt, Tiled, Granular, Linked, Coalesced, Payload, Prefix, Used, Copied;
      CopiedPayload(ram[..], blocks, heapBegin, heapBegin + endOffset, i, j);
      CopyBytes(at, ptr, size);
    }

    /** krealloc's test of the block behind. */
    method CanGrow(block: int, size: nat, ghost i: nat) returns (grows: bool)
      requires Listed() && i < |blocks| && blocks[i].addr == block
      ensures grows <==> i + 1 < |blocks| && blocks[i + 1].free && blocks[i + 1].size + HeaderSize + blocks[i].size >= size
    {
      hide HeaderAt, Load, Tiled, Granular, Linked;
      ghost var m := ram[..];
      IsLinkedAt(m, blocks, i);
      NextIsSmall(blocks, heapBegin, heapBegin + endOffset, i);
      if i + 1 < |blocks| {
        IsLinkedAt(m, blocks, i + 1);
      }
      grows := NextAt(block) != 0 && FreeAt(NextAt(block)) != 0 && SizeAt(NextAt(block)) + HeaderSize + SizeAt(block) >= size;
    }

    /** krealloc's second path: absorb the free block behind, where the payload is. */
    method GrowBlock(ptr: int, ghost i: nat)
      requires Valid() && i + 1 < |blocks| && blocks[i].addr == ptr - HeaderSize && !blocks[i].free && blocks[i + 1].free
      modifies ram, this`blocks
      ensures Valid() && blocks == Merge(old(blocks), i)
      ensures SamePayloads(old(ram[..]), ram[..], Used(old(blocks)))
      ensures Prefix(ram[..], ptr, old(Payload(ram[..], blocks[i])))
    {
      hide HeaderAt, Load, Tiled, Granular, Linked, Coalesced, Merge, Payload, Prefix, Granule;
      ghost var m, b := ram[..], blocks[i];
      BlockAt(ptr, i);
      PayloadIsPrefix(m, b);
      GrowInPlace(Value(), i);
      MergeBlock(ptr - HeaderSize, i);
      PrefixKept(m, ram[..], b, Payload(m, b));
    }

    /** krealloc's last resort: allocate, copy the whole old payload, free. */
    method Relocate(ptr: int, size: nat, ghost b: Block) returns (out: Outcome)
      requires Valid() && b in Used(blocks) && PointerOf(b) == ptr && Askable(size) && b.size < size
      modifies this, ram
      ensures Valid() && Done(Value(), out) == HeapBlocks.Relocate(old(Value()), ptr, size)
      ensures SamePayloads(old(ram[..]), ram[..], Others(old(blocks), ptr))
      ensures out.Pointer? ==> Prefix(ram[..], out.at, old(Payload(ram[..], b)))
    {
      hide HeaderAt, Load, Tiled, Granular, Linked, Coalesced, Malloc, Free, NextPowerOfTwo, Granule, Fresh, NoneFits, Payload, Prefix, Used;
      RoundedSize(size);
      MallocKeeps(Value(), Rounded(size));
      ghost var m := ram[..];
      var n := NextPowerOfTwo(size + HeaderSize) - HeaderSize;
      out := KMalloc(n);
      if out.Pointer? {
        ghost var g := Block(out.at - HeaderSize, n, false);
        FreshIsNew(old(Value()), g);
        MoveAndFree(out.at, ptr, n, b, g);
      }
    }

    /** The copy and the release that end krealloc. */
    method MoveAndFree(at: int, ptr: int, n: int, ghost b: Block, ghost g: Block)
      requires Valid() && b in Used(blocks) && PointerOf(b) == ptr
      requires g == Block(at - HeaderSize, n, false) && g in Used(blocks) && g != b && b.size <= n
      modifies ram, this`blocks
      ensures Valid() && Value() == Free(old(Value()), ptr)
      ensures SamePayloads(old(ram[..]), ram[..], Others(old(blocks), ptr) - {g})
      ensures Prefix(ram[..], at, old(Payload(ram[..], b)))
    {
      hide HeaderAt, Load, Tiled, Granular, Linked, Coalesced, Free, Granule, Payload, Prefix, Used;
      ghost var m := ram[..];
      ghost var i := Position(Value(), b);
      ghost var j := Position(Value(), g);
      BlockAt(ptr, i);
      BlockAt(at, j);
      MoveTo(at, ptr, SizeAt(ptr - HeaderSize), n, i, j);
      ghost var m2 := ram[..];
      KFree(ptr);
      PayloadIsPrefix(m, b);
      PrefixKept(m2, ram[..], g, Payload(m, b));
    }

    /**
     * krealloc: the outcome and the block list are those of Realloc, the old
     * contents are the start of the new block, and no other block in use
     * changes a byte.
     */
    method KRealloc(ptr: int, size: nat) returns (out: Outcome)
      requires Valid() && (ptr == 0 || Live(ptr)) && Askable(size)
      modifies this, ram
      ensures Valid() && Done(Value(), out) == Realloc(old(Value()), ptr, size)
      ensures SamePayloads(old(ram[..]), ram[..], Others(old(blocks), ptr))
      ensures ptr != 0 && out.Pointer? ==> Prefix(ram[..], out.at, old(Contents(ptr)))
    {
      hide HeaderAt, Load, Tiled, Granular, Linked, Coalesced, HeapBlocks.Relocate, Merge, Malloc, Payload, Prefix, Used, Granule;
      if ptr == 0 {
        out := KMalloc(size);
        return;
      }
      var block := ptr - HeaderSize;
      ghost var m := ram[..];
      ghost var i := LiveIndex(ptr);
      ghost var b := blocks[i];
      BlockAt(ptr, i);
      PayloadIsPrefix(m, b);
      if SizeAt(block) >= size {
        return Pointer(ptr);
      }
      var grows := CanGrow(block, size, i);
      if grows {
        GrowBlock(ptr, i);
        return Pointer(ptr);
      }
      out := Relocate(ptr, size, b);
    }
  }
}
