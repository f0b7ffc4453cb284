/**
 * The mounted disk image (src/libk/filesystem.c:79-122, 226-270): blocks are
 * copied out of and into the image, alloc_block takes blocks from the free
 * chain, and read and write move through an open file.
 */
module Volume {
  import opened Bytes
  import opened DiskModel
  import opened FreeChain
  import opened FileModel

  /** An open file: the block of its inode, its size, and the cursor. */
  datatype Descriptor = Descriptor(inode: int, size: int, pos: int)

  datatype Whence = SeekSet | SeekCur | SeekEnd

  const Word32: int := 0x1_0000_0000

  /** Where fseek wants to go, in a uint32_t. */
  function SeekTarget(f: Descriptor, offset: int, whence: Whence): (pos: int) {
    (match whence
     case SeekSet => offset
     case SeekCur => f.pos + offset
     case SeekEnd => f.size + offset) % Word32
  }

  /** From a position in a file fseek goes where it is told exactly when that is in the file. */
  lemma SeekStaysInFile(f: Descriptor, offset: int, whence: Whence)
    requires 0 <= f.pos <= f.size < 0x8000_0000 && -0x8000_0000 <= offset < 0x8000_0000
    ensures var wanted := match whence case SeekSet => offset case SeekCur => f.pos + offset case SeekEnd => f.size + offset;
            && (SeekTarget(f, offset, whence) <= f.size <==> 0 <= wanted <= f.size)
            && (0 <= wanted <= f.size ==> SeekTarget(f, offset, whence) == wanted)
  {
    var wanted := match whence case SeekSet => offset case SeekCur => f.pos + offset case SeekEnd => f.size + offset;
    assert -0x8000_0000 <= wanted < Word32;
    if wanted < 0 {
      assert wanted % Word32 == wanted + Word32;
    } else {
      assert wanted % Word32 == wanted;
    }
  }

  lemma SeekBack(f: Descriptor, later: int)
    requires 0 <= f.pos < Word32
    ensures SeekTarget(f.(pos := later), f.pos, SeekSet) == f.pos
  {
  }

  class FileSystem {
    /** The image: row n is block n. */
    const image: array2<Byte>
    var freeBlockList: int
    var descriptors: seq<Descriptor>
    /** The free chain, from its head. */
    ghost var links: seq<Link>

    constructor (disk: array2<Byte>, head: int, open: seq<Descriptor>, ghost chain: seq<Link>)
      ensures image == disk && freeBlockList == head && descriptors == open && links == chain
    {
      image := disk;
      freeBlockList := head;
      descriptors := open;
      links := chain;
    }

    ghost function Row(n: nat): (b: Block)
      requires n < image.Length0
      reads image
      ensures |b| == image.Length1 && forall i :: 0 <= i < |b| ==> b[i] == image[n, i]
    {
      seq(image.Length1, i requires 0 <= i < image.Length1 reads image => image[n, i])
    }

    ghost function Value(): (d: Disk)
      reads image
      ensures |d| == image.Length0 && forall n :: 0 <= n < |d| ==> d[n] == Row(n)
    {
      seq(image.Length0, n requires 0 <= n < image.Length0 reads image => Row(n))
    }

    /** The free chain is on disk and the mounted head is its head. */
    ghost predicate ChainValid()
      reads this, image
    {
      ChainOk(Value(), image.Length1, links) && freeBlockList == Head(links)
    }

    /** read_block: a terminated copy of block n. */
    method ReadBlock(n: nat) returns (content: array<Byte>)
      requires n < image.Length0
      ensures fresh(content) && content.Length == image.Length1 + 1 && content[image.Length1] == 0
      ensures content[..image.Length1] == Value()[n]
    {
      content := new Byte[image.Length1 + 1];
      content[image.Length1] := 0;
      for i := 0 to image.Length1
        invariant content[image.Length1] == 0
        invariant forall k :: 0 <= k < i ==> content[k] == image[n, k]
      {
        content[i] := image[n, i];
      }
    }

    /** write_block: block n becomes the first block_size bytes of the buffer. */
    method WriteBlock(n: nat, content: array<Byte>)
      requires n < image.Length0 && content.Length >= image.Length1
      modifies image
      ensures Value() == old(Value())[n := content[..image.Length1]]
    {
      for i := 0 to image.Length1
        invariant forall k :: 0 <= k < i ==> image[n, k] == content[k]
        invariant forall m, k :: 0 <= m < image.Length0 && 0 <= k < image.Length1 && m != n ==> image[m, k] == old(image[m, k])
      {
        image[n, i] := content[i];
      }
      assert Row(n) == content[..image.Length1];
      assert forall m :: 0 <= m < image.Length0 && m != n ==> Row(m) == old(Row(m));
    }

    /** The word read_big_endian_int makes of word k of a buffer. */
    function WordIn(content: array<Byte>, k: nat): (w: nat)
      requires 4 * k + 4 <= image.Length1 < content.Length
      reads content
    {
      WordOf(content[..image.Length1], k)
    }

    /** A little-endian store to word k of a buffer. */
    method StoreWord(content: array<Byte>, k: nat, w: nat)
      requires 4 * k + 4 <= image.Length1 < content.Length
      modifies content
      ensures content[..image.Length1] == SetRaw(old(content[..image.Length1]), k, w)
    {
      content[4 * k] := ByteOf(w, 0) as Byte;
      content[4 * k + 1] := ByteOf(w, 1) as Byte;
      content[4 * k + 2] := ByteOf(w, 2) as Byte;
      content[4 * k + 3] := ByteOf(w, 3) as Byte;
    }

    /** The buffer holds the words of an index block with these entries. */
    ghost predicate Lists(content: array<Byte>, entries: seq<int>, next: int)
      reads content
    {
      && image.Length1 < content.Length && 8 <= image.Length1 && |entries| + 1 <= image.Length1 / 4
      && WordIn(content, 0) == next
      && (forall k :: 0 <= k < |entries| ==> WordIn(content, k + 1) == entries[k] && entries[k] != 0)
      && (|entries| + 1 < image.Length1 / 4 ==> WordIn(content, |entries| + 1) == 0)
    }

    /** The search of alloc_block: the place of the last entry. */
    method LastEntry(content: array<Byte>, ghost entries: seq<int>, ghost next: int) returns (offset: nat)
      requires Lists(content, entries, next) && entries != []
      ensures offset == |entries|
    {
      hide WordIn;
      offset := 1;
      while offset + 1 < image.Length1 / 4 && WordIn(content, offset + 1) != 0
        invariant 1 <= offset <= |entries|
        invariant offset < |entries| ==> WordIn(content, offset + 1) == entries[offset] && entries[offset] != 0
      {
        offset := offset + 1;
      }
    }

    /** alloc_block on a chain that is not exhausted: the block, the chain and the disk of Pop. */
    method AllocBlock() returns (block: int)
      requires ChainValid() && links != []
      modifies image, this`freeBlockList, this`links
      ensures ChainValid() && Taken(block, links) == Pop(old(links))
      ensures Value() == PopDisk(old(Value()), image.Length1, old(links))
    {
      hide WordOf, SetRaw, NoRepeats, Order, Chained, SwitchEndianness;
      ghost var l, next, d := links[0], Head(links[1..]), Value();
      PopKeeps(d, image.Length1, links);
      ChainedHere(d, image.Length1, links);
      var index := ReadBlock(freeBlockList);
      assert Value() == d;
      assert Lists(index, l.entries, next);
      assert l.entries != [] ==> WordIn(index, 0 + 1) == l.entries[0];
      hide LinkOk, ChainOk;
      if WordIn(index, 1) == 0 {
        block := freeBlockList;
        freeBlockList := WordIn(index, 0);
        links := links[1..];
        return;
      }
      assert l.entries != [];
      var offset := LastEntry(index, l.entries, next);
      assert WordIn(index, (offset - 1) + 1) == l.entries[offset - 1];
      block := WordIn(index, offset);
      StoreWord(index, offset, SwitchEndianness(0));
      WriteBlock(freeBlockList, index);
      links := Pop(links).rest;
    }

    /** n calls of alloc_block: the first n free blocks in order, all different. */
    method AllocBlocks(n: nat) returns (blocks: seq<int>)
      requires ChainValid() && n <= |Order(links)|
      modifies image, this`freeBlockList, this`links
      ensures ChainValid() && blocks == Order(old(links))[..n] && Order(links) == Order(old(links))[n..]
      ensures NoRepeats(blocks) && forall b :: b in blocks ==> b !in Order(links)
    {
      hide Chained, PopDisk, Pop;
      blocks := [];
      ghost var order := Order(links);
      for k := 0 to n
        invariant ChainValid() && blocks == order[..k] && Order(links) == order[k..]
      {
        PopTakesFirst(links);
        var block := AllocBlock();
        blocks := blocks + [block];
        assert order[k..] == [block] + Order(links);
        assert order[k..][1..] == order[k + 1..];
      }
      forall b | b in blocks ensures b !in Order(links) {
        var i :| 0 <= i < n && blocks[i] == b;
        assert order[i] == b;
      }
    }

    ghost predicate Opened(fd: nat, table: seq<int>)
      reads this, image
    {
      && fd < |descriptors|
      && FileOk(Value(), image.Length1, descriptors[fd].inode, descriptors[fd].size, table)
      && descriptors[fd].pos >= 0
    }

    lemma FileFits(fd: nat, table: seq<int>)
      requires Opened(fd, table)
      ensures descriptors[fd].size <= Cap(table, image.Length1)
    {
    }

    /** The block number the inode gives for a position. */
    method BlockFor(fd: nat, pos: nat, ghost table: seq<int>) returns (n: nat)
      requires Opened(fd, table) && pos < Cap(table, image.Length1)
      ensures 0 <= pos / image.Length1 < |table| && n == table[pos / image.Length1] && n < image.Length0
    {
      BlockIndex(pos, image.Length1, table);
      var k := pos / image.Length1;
      TableWord(Value(), image.Length1, descriptors[fd].inode, descriptors[fd].size, table, k);
      hide Cap, HasTable, TableOk, Formatted, WordOf;
      var inode := ReadBlock(descriptors[fd].inode);
      n := WordIn(inode, k + 3);
    }

    /** One pass of the loop of write: read the block of position p, copy the chunk into it, write it back. */
    method WriteChunk(fd: nat, p: nat, chunk: seq<Byte>, ghost table: seq<int>)
      requires Opened(fd, table) && p < Cap(table, image.Length1) && p % image.Length1 + |chunk| <= image.Length1
      modifies image
      ensures 0 <= p / image.Length1 < |table| && 0 <= table[p / image.Length1] < image.Length0
      ensures var n := table[p / image.Length1];
              Value() == old(Value())[n := Patched(old(Value())[n], p % image.Length1, chunk)]
    {
      var n := BlockFor(fd, p, table);
      var block := ReadBlock(n);
      Patch(block, p % image.Length1, chunk);
      WriteBlock(n, block);
    }

    /**
     * write within the file: the file's bytes are spliced with the buffer, the
     * cursor moves behind it, and no block of the disk changes but the file's.
     */
    method Write(fd: nat, buffer: seq<Byte>, ghost table: seq<int>) returns (count: nat)
      requires Opened(fd, table) && descriptors[fd].pos + |buffer| <= descriptors[fd].size
      modifies image, this`descriptors
      ensures Opened(fd, table) && count == |buffer|
      ensures descriptors == old(descriptors)[fd := old(descriptors[fd]).(pos := old(descriptors[fd]).pos + |buffer|)]
      ensures Spliced(old(Value()), Value(), image.Length1, descriptors[fd].inode, table, old(descriptors[fd]).pos, buffer)
      ensures OthersSame(old(Value()), Value(), table)
    {
      var bs, f, pos := image.Length1, descriptors[fd], descriptors[fd].pos;
      ghost var d := Value();
      FileFits(fd, table);
      hide Spliced, OthersSame, HasTable, TableOk, FileByte, WordOf, Patched, Value, Cap, ChunkLen;
      SpliceStart(d, bs, f.inode, f.size, table, pos, buffer[..0]);
      while descriptors[fd].pos < pos + |buffer|
        invariant Opened(fd, table) && pos <= descriptors[fd].pos <= pos + |buffer|
        invariant descriptors == old(descriptors)[fd := f.(pos := descriptors[fd].pos)]
        invariant Spliced(d, Value(), bs, f.inode, table, pos, buffer[..descriptors[fd].pos - pos])
        invariant OthersSame(d, Value(), table)
        decreases pos + |buffer| - descriptors[fd].pos
      {
        var p := descriptors[fd].pos;
        ghost var v := Value();
        var len := ChunkLen(pos + |buffer| - p, p, bs);
        WriteChunk(fd, p, buffer[p - pos..p - pos + len], table);
        SpliceStep(d, v, Value(), bs, f.inode, f.size, table, pos, buffer[..p - pos], buffer[p - pos..p - pos + len]);
        assert buffer[..p - pos] + buffer[p - pos..p - pos + len] == buffer[..p + len - pos];
        descriptors := descriptors[fd := f.(pos := p + len)];
      }
      assert buffer[..|buffer|] == buffer;
      count := |buffer|;
    }

    /** memcpy into a block buffer. */
    method Patch(block: array<Byte>, at: nat, chunk: seq<Byte>)
      requires at + |chunk| <= image.Length1 < block.Length
      modifies block
      ensures block[..image.Length1] == Patched(old(block[..image.Length1]), at, chunk)
    {
      for i := 0 to |chunk|
        invariant forall k :: 0 <= k < block.Length ==> block[k] == if at <= k < at + i then chunk[k - at] else old(block[k])
      {
        block[at + i] := chunk[i];
      }
    }

    /** One pass of the loop of read: the next bytes of the file, up to the end of their block. */
    method ReadChunk(fd: nat, p: nat, n: nat, ghost table: seq<int>) returns (chunk: seq<Byte>)
      requires Opened(fd, table) && p < Cap(table, image.Length1) && n <= image.Length1 - p % image.Length1
      ensures p + n <= Cap(table, image.Length1)
      ensures chunk == Slice(Value(), image.Length1, descriptors[fd].inode, table, p, p + n)
    {
      hide HasTable, TableOk, FileByte, WordOf, Value;
      var bs := image.Length1;
      var b := BlockFor(fd, p, table);
      var block := ReadBlock(b);
      SliceStep(Value(), bs, descriptors[fd].inode, table, p, p, n);
      chunk := block[p % bs..p % bs + n];
      assert Slice(Value(), bs, descriptors[fd].inode, table, p, p) == [];
    }

    /**
     * read: the count is the length clamped to what is left of the file; the
     * bytes stored are those of the file from the old cursor to the new one,
     * and the new cursor is where CursorAfter says.
     */
    method Read(fd: nat, len: nat, ghost table: seq<int>) returns (count: int, out: seq<Byte>)
      requires Opened(fd, table) && descriptors[fd].pos <= Cap(table, image.Length1)
      modifies this`descriptors
      ensures Opened(fd, table) && count == Min(len, old(descriptors[fd]).size - old(descriptors[fd]).pos)
      ensures descriptors[fd].pos == CursorAfter(old(descriptors[fd]).pos, count, image.Length1) <= Cap(table, image.Length1)
      ensures descriptors == old(descriptors)[fd := old(descriptors[fd]).(pos := descriptors[fd].pos)]
      ensures old(descriptors[fd]).pos <= descriptors[fd].pos
      ensures out == Slice(Value(), image.Length1, descriptors[fd].inode, table, old(descriptors[fd]).pos, descriptors[fd].pos)
    {
      var bs, f, pos := image.Length1, descriptors[fd], descriptors[fd].pos;
      ghost var d := Value();
      FileFits(fd, table);
      SliceEmpty(d, bs, f.inode, table, pos);
      hide HasTable, TableOk, FileByte, WordOf, Slice, OnTheWay, Value, Cap, CursorAfter, Formatted;
      count := Min(len, f.size - pos);
      out := [];
      while descriptors[fd].pos < pos + count
        invariant Opened(fd, table) && pos <= descriptors[fd].pos <= Cap(table, bs)
        invariant descriptors == old(descriptors)[fd := f.(pos := descriptors[fd].pos)]
        invariant OnTheWay(pos, count, bs, descriptors[fd].pos)
        invariant out == Slice(d, bs, f.inode, table, pos, descriptors[fd].pos)
        decreases pos + count - descriptors[fd].pos
      {
        var p := descriptors[fd].pos;
        ReadStep(pos, count, bs, p);
        var copied := Min(count, bs - p % bs);
        var chunk := ReadChunk(fd, p, copied, table);
        out := out + chunk;
        SliceMore(d, bs, f.inode, table, pos, p, p + copied);
        descriptors := descriptors[fd := f.(pos := p + copied)];
      }
      ReadStops(pos, count, bs, descriptors[fd].pos);
    }

    /**
     * fseek: the new position is computed in 32 bits without a sign; false stands
     * for its assertions, and then the cursor stays.
     */
    method FSeek(fd: nat, offset: int, whence: Whence) returns (ok: bool)
      requires fd < |descriptors| && 0 <= descriptors[fd].pos < Word32 && 0 <= descriptors[fd].size < Word32
      modifies this`descriptors
      ensures var f := old(descriptors[fd]); var target := SeekTarget(f, offset, whence);
              && (ok <==> target <= f.size && (whence == SeekEnd ==> offset <= 0))
              && descriptors == (if ok then old(descriptors)[fd := f.(pos := target)] else old(descriptors))
      ensures var f := old(descriptors[fd]);
              0 <= f.pos <= f.size < 0x8000_0000 && -0x8000_0000 <= offset < 0x8000_0000 ==>
                var wanted := match whence case SeekSet => offset case SeekCur => f.pos + offset case SeekEnd => f.size + offset;
                && (ok <==> 0 <= wanted <= f.size)
                && descriptors[fd].pos == if ok then wanted else f.pos
    {
      ghost var was := descriptors[fd];
      if 0 <= was.pos <= was.size < 0x8000_0000 && -0x8000_0000 <= offset < 0x8000_0000 {
        SeekStaysInFile(was, offset, whence);
      }
      var f := descriptors[fd];
      var pos := f.pos;
      match whence {
        case SeekSet =>
          pos := offset % Word32;
        case SeekCur =>
          pos := (pos + offset) % Word32;
        case SeekEnd =>
          if offset > 0 {
            return false;
          }
          pos := (f.size + offset) % Word32;
      }
      ok := pos <= f.size;
      if ok {
        descriptors := descriptors[fd := f.(pos := pos)];
      }
    }

    /** Writing, seeking back and reading returns the bytes written first. */
    method WriteSeekRead(fd: nat, buffer: seq<Byte>, ghost table: seq<int>) returns (count: int, out: seq<Byte>)
      requires Opened(fd, table) && descriptors[fd].pos + |buffer| <= descriptors[fd].size < Word32
      modifies image, this`descriptors
      ensures count == |buffer| <= |out| && out[..count] == buffer
    {
      FileFits(fd, table);
      var f := descriptors[fd];
      assert image.Length1 > 0;
      CursorExactIff(f.pos, |buffer|, image.Length1);
      SeekBack(f, f.pos + |buffer|);
      hide Spliced, OthersSame, HasTable, TableOk, FileByte, Slice, Formatted, Cap, CursorAfter, SeekTarget;
      ghost var d := Value();
      var written := Write(fd, buffer, table);
      var ok := FSeek(fd, f.pos, SeekSet);
      count, out := Read(fd, |buffer|, table);
      ReadBack(d, Value(), image.Length1, f.inode, f.size, table, f.pos, buffer, descriptors[fd].pos);
    }
  }

  /**
   * read moves the cursor too far: on a file of two blocks of 512 bytes, four
   * bytes are read at position 510, six are stored and the cursor moves by six.
   */
  method ReadOvershoots() returns (count: int, stored: int, moved: int)
    ensures count == 4 && stored == 6 && moved == 6
  {
    var image := new Byte[4, 512]((n, i) => 0);
    image[1, 15] := 2;
    image[1, 19] := 3;
    var fs := new FileSystem(image, 0, [Descriptor(1, 1024, 510)], []);
    TwoBlocks(fs.Value());
    var out;
    count, out := fs.Read(0, 4, [2, 3]);
    assert CursorAfter(510, 4, 512) == 516;
    stored, moved := |out|, fs.descriptors[0].pos - 510;
  }

  /** Block 1 of the disk is the inode of a file in the blocks 2 and 3. */
  lemma TwoBlocks(d: Disk)
    requires |d| == 4 && (forall n :: 0 <= n < 4 ==> |d[n]| == 512)
    requires forall i :: 12 <= i < 20 ==> d[1][i] == if i == 15 then 2 else if i == 19 then 3 else 0
    ensures FileOk(d, 512, 1, 1024, [2, 3])
  {
    WordAt(d[1], 3, 2);
    WordAt(d[1], 4, 3);
    hide WordOf;
    var table := [2, 3];
    assert WordOf(d[1], 0 + 3) == table[0] && WordOf(d[1], 1 + 3) == table[1];
  }

  lemma WordAt(b: Block, k: nat, v: Byte)
    requires 4 * k + 4 <= |b| && b[4 * k] == 0 && b[4 * k + 1] == 0 && b[4 * k + 2] == 0 && b[4 * k + 3] == v
    ensures WordOf(b, k) == v as int
  {
    WordIsBigEndian(b, k);
    hide WordOf;
  }
}
