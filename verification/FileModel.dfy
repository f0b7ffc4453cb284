/**
 * A file as the bytes its block table strings together, and what one pass of
 * the loops of read and write (src/libk/filesystem.c:226-270) does to it.
 */
module FileModel {
  import opened Bytes
  import opened DiskModel

  /** The blocks a file's inode names, from word 3 on. */
  ghost predicate HasTable(d: Disk, bs: int, inode: int, table: seq<int>)
    requires Formatted(d, bs)
  {
    && 0 <= inode < |d| && 4 * (|table| + 3) <= bs
    && (forall k {:trigger table[k]} :: 0 <= k < |table| ==> WordOf(d[inode], k + 3) == table[k])
  }

  /** The data blocks are distinct blocks of the disk, none of them the inode. */
  ghost predicate TableOk(d: Disk, inode: int, table: seq<int>) {
    && (forall k :: 0 <= k < |table| ==> 0 <= table[k] < |d| && table[k] != inode)
    && (forall k, l :: 0 <= k < l < |table| ==> table[k] != table[l])
  }

  ghost predicate FileOk(d: Disk, bs: int, inode: int, size: int, table: seq<int>) {
    && Formatted(d, bs)
    && HasTable(d, bs, inode, table)
    && TableOk(d, inode, table)
    && 0 <= size <= Cap(table, bs)
  }

  /** How many bytes the blocks of a table hold. */
  function Cap(table: seq<int>, bs: int): (n: int) { |table| * bs }

  /** ---------- Positions ---------- */

  lemma Quotient(p: nat, bs: int, q: int, r: int)
    requires bs > 0 && p == q * bs + r && 0 <= r < bs
    ensures p / bs == q && p % bs == r
  {
    var e := p / bs - q;
    assert (p / bs) * bs + p % bs == q * bs + r;
    assert e * bs == r - p % bs;
    assert e >= 1 ==> e * bs >= bs;
    assert e <= -1 ==> e * bs <= -bs;
  }

  lemma InTable(p: nat, bs: int, n: nat)
    requires bs > 0 && p < n * bs
    ensures 0 <= p / bs < n && p == (p / bs) * bs + p % bs
  {
    var q := p / bs;
    assert q * bs <= p;
    assert q >= n ==> q * bs >= n * bs;
  }

  /** q lies in the block of p, behind p. */
  lemma SameBlock(p: nat, bs: int, q: nat)
    requires bs > 0 && p <= q < p + bs - p % bs
    ensures q / bs == p / bs && q % bs == p % bs + q - p
  {
    Quotient(q, bs, p / bs, p % bs + q - p);
  }

  lemma SameQuotient(p: nat, bs: int, q: nat)
    requires bs > 0 && p / bs == q / bs
    ensures q - p == q % bs - p % bs
  {
    assert p == (p / bs) * bs + p % bs && q == (q / bs) * bs + q % bs;
  }

  lemma BlockIndex(p: nat, bs: int, table: seq<int>)
    requires bs > 0 && p < Cap(table, bs)
    ensures 0 <= p / bs < |table|
  {
    InTable(p, bs, |table|);
  }

  lemma TableWord(d: Disk, bs: int, inode: int, size: int, table: seq<int>, k: nat)
    requires FileOk(d, bs, inode, size, table) && k < |table|
    ensures 0 <= inode < |d| && |d[inode]| == bs && 4 * (k + 3) + 4 <= bs && WordOf(d[inode], k + 3) == table[k] && 0 <= table[k] < |d|
  {
  }

  /** The byte at position p. */
  ghost function FileByte(d: Disk, bs: int, inode: int, table: seq<int>, p: nat): (b: Byte)
    requires Formatted(d, bs) && TableOk(d, inode, table) && p < Cap(table, bs)
  {
    InTable(p, bs, |table|);
    d[table[p / bs]][p % bs]
  }

  /** The bytes from lo up to hi. */
  ghost function Slice(d: Disk, bs: int, inode: int, table: seq<int>, lo: nat, hi: nat): (s: seq<Byte>)
    requires Formatted(d, bs) && TableOk(d, inode, table) && lo <= hi <= Cap(table, bs)
    ensures |s| == hi - lo
    ensures forall k :: 0 <= k < hi - lo ==> s[k] == FileByte(d, bs, inode, table, lo + k)
  {
    seq(hi - lo, k requires 0 <= k < hi - lo => FileByte(d, bs, inode, table, lo + k))
  }

  /** The blocks of a table one after another. */
  ghost function Joined(d: Disk, table: seq<int>): (s: seq<Byte>)
    requires forall k :: 0 <= k < |table| ==> 0 <= table[k] < |d|
  {
    if table == [] then [] else Joined(d, table[..|table| - 1]) + d[table[|table| - 1]]
  }

  lemma {:induction false} JoinedSize(d: Disk, bs: int, table: seq<int>)
    requires Formatted(d, bs) && forall k :: 0 <= k < |table| ==> 0 <= table[k] < |d|
    ensures |Joined(d, table)| == |table| * bs
    decreases |table|
  {
    if table != [] {
      var n := |table| - 1;
      JoinedSize(d, bs, table[..n]);
      assert |table| * bs == n * bs + bs;
    }
  }

  lemma {:induction false} JoinedAt(d: Disk, bs: int, table: seq<int>, p: nat)
    requires Formatted(d, bs) && (forall k :: 0 <= k < |table| ==> 0 <= table[k] < |d|) && p < |table| * bs
    ensures p < |Joined(d, table)| && 0 <= p / bs < |table| && Joined(d, table)[p] == d[table[p / bs]][p % bs]
    decreases |table|
  {
    var n := |table| - 1;
    var last := table[..n];
    InTable(p, bs, |table|);
    JoinedSize(d, bs, table);
    JoinedSize(d, bs, last);
    if p < n * bs {
      JoinedAt(d, bs, last, p);
      assert last[p / bs] == table[p / bs];
    } else {
      assert |table| * bs == n * bs + bs;
      Quotient(p, bs, n, p - n * bs);
    }
  }

  /** The bytes of a file, up to its capacity, are those of its blocks in the order of its table. */
  lemma ContentsAreBlocks(d: Disk, bs: int, inode: int, table: seq<int>)
    requires Formatted(d, bs) && TableOk(d, inode, table)
    ensures 0 <= Cap(table, bs) && Slice(d, bs, inode, table, 0, Cap(table, bs)) == Joined(d, table)
  {
    JoinedSize(d, bs, table);
    forall p: nat | p < Cap(table, bs) ensures Joined(d, table)[p] == FileByte(d, bs, inode, table, 0 + p) {
      JoinedAt(d, bs, table, p);
    }
  }

  /** ---------- Writing ---------- */

  /** One pass of write: a chunk into the block of position p. */
  function Patched(b: Block, at: nat, chunk: seq<Byte>): (r: Block)
    requires at + |chunk| <= |b|
    ensures |r| == |b|
  {
    b[..at] + chunk + b[at + |chunk|..]
  }

  lemma BlockEnd(p: nat, bs: int, n: nat)
    requires bs > 0 && p < n * bs
    ensures p + bs - p % bs <= n * bs
  {
    InTable(p, bs, n);
    RowsBelow(p / bs + 1, n, bs);
  }

  lemma RowsBelow(a: int, n: nat, bs: int)
    requires a <= n && bs > 0
    ensures a * bs <= n * bs && a * bs == (a - 1) * bs + bs
  {
  }

  lemma PatchedByte(d: Disk, bs: int, inode: int, table: seq<int>, p: nat, chunk: seq<Byte>, r: Disk, q: nat)
    requires Formatted(d, bs) && TableOk(d, inode, table) && Formatted(r, bs) && TableOk(r, inode, table)
    requires p < Cap(table, bs) && q < Cap(table, bs) && p % bs + |chunk| <= bs
    requires 0 <= p / bs < |table| && r == d[table[p / bs] := Patched(d[table[p / bs]], p % bs, chunk)]
    ensures FileByte(r, bs, inode, table, q) == if p <= q < p + |chunk| then chunk[q - p] else FileByte(d, bs, inode, table, q)
  {
    InTable(q, bs, |table|);
    if p <= q < p + |chunk| {
      SameBlock(p, bs, q);
    } else if p / bs == q / bs {
      SameQuotient(p, bs, q);
    }
  }

  /** ---------- Reading ---------- */

  function Min(a: int, b: int): int { if a > b then b else a }

  /** How much of what is left goes into, or comes from, the block of position p. */
  function ChunkLen(left: int, p: nat, bs: int): (n: int)
    requires bs > 0
    ensures left > 0 ==> n > 0
    ensures n <= left && p % bs + n <= bs
  {
    Min(left, bs - p % bs)
  }

  /** The end of the block p lies in. */
  function Boundary(p: nat, bs: int): (q: int)
    requires bs > 0
  {
    p + bs - p % bs
  }

  /** Where the cursor of read ends up for a clamped length n. */
  function CursorAfter(p: nat, n: int, bs: int): (q: int)
    requires bs > 0
  {
    if n <= 0 then p
    else if n <= bs - p % bs then p + n
    else if n < bs then Boundary(p, bs) + n
    else if (p + n) % bs == 0 then p + n
    else Boundary(p + n, bs)
  }

  /**
   * read moves the cursor by exactly the length it returns when the read ends
   * within the first block or on a block boundary, and too far otherwise.
   */
  lemma CursorExactIff(p: nat, n: nat, bs: int)
    requires bs > 0
    ensures CursorAfter(p, n, bs) >= p + n
    ensures CursorAfter(p, n, bs) == p + n <==> n <= bs - p % bs || (p + n) % bs == 0
  {
    if bs - p % bs < n < bs {
      Quotient(p + n, bs, p / bs + 1, p % bs + n - bs);
    }
  }

  lemma AlignedNext(p: nat, bs: int)
    requires bs > 0 && p % bs == 0
    ensures (p + bs) % bs == 0 && Boundary(p, bs) == p + bs
  {
    Quotient(p + bs, bs, p / bs + 1, 0);
  }

  lemma BoundaryAligned(p: nat, bs: int)
    requires bs > 0
    ensures Boundary(p, bs) % bs == 0
  {
    Quotient(p + bs - p % bs, bs, p / bs + 1, 0);
  }

  lemma NoSmallMultiple(k: int, bs: int)
    requires bs > 0 && -bs < k * bs < bs
    ensures k == 0
  {
    assert k >= 1 ==> k * bs >= bs;
    assert k <= -1 ==> k * bs <= -bs;
  }

  lemma AlignedEqual(q: nat, r: nat, bs: int)
    requires bs > 0 && q % bs == 0 && r % bs == 0 && -bs < q - r < bs
    ensures q == r
  {
    var k := q / bs - r / bs;
    assert q == (q / bs) * bs && r == (r / bs) * bs;
    assert k * bs == q - r;
    NoSmallMultiple(k, bs);
  }

  /** The first multiple of bs that is at least e. */
  lemma FirstMultiple(q: nat, bs: int, e: nat)
    requires bs > 0 && q % bs == 0 && e <= q < e + bs
    ensures q == if e % bs == 0 then e else Boundary(e, bs)
  {
    if e % bs == 0 {
      AlignedEqual(q, e, bs);
    } else {
      BoundaryAligned(e, bs);
      AlignedEqual(q, Boundary(e, bs), bs);
    }
  }

  /** Where the loop of read can stand: at its start, on a block boundary on the way, or at its end. */
  ghost predicate OnTheWay(p: nat, n: int, bs: int, q: int)
    requires bs > 0
  {
    || q == p
    || (n > bs - p % bs && n < bs && q == Boundary(p, bs))
    || (n > bs - p % bs && n >= bs && q % bs == 0 && p <= q < p + n + bs)
    || q == CursorAfter(p, n, bs)
  }

  /** One pass of read keeps to that. */
  lemma ReadStep(p: nat, n: int, bs: int, q: nat)
    requires bs > 0 && OnTheWay(p, n, bs, q) && p <= q < p + n
    ensures OnTheWay(p, n, bs, q + Min(n, bs - q % bs)) && Min(n, bs - q % bs) > 0
  {
    CursorExactIff(p, n, bs);
    if q == p {
      BoundaryAligned(p, bs);
    } else if n < bs {
      BoundaryAligned(p, bs);
    } else {
      AlignedNext(q, bs);
    }
  }

  /** And when it stops, the cursor is where CursorAfter says. */
  lemma ReadStops(p: nat, n: int, bs: int, q: nat)
    requires bs > 0 && OnTheWay(p, n, bs, q) && p <= q && q >= p + n
    ensures q == CursorAfter(p, n, bs)
  {
    if n > 0 && q != CursorAfter(p, n, bs) && n >= bs {
      FirstMultiple(q, bs, p + n);
    }
  }

  /** The bytes of the file with a buffer written over them from position p on. */
  ghost predicate Spliced(d: Disk, r: Disk, bs: int, inode: int, table: seq<int>, p: nat, buffer: seq<Byte>)
    requires Formatted(d, bs) && TableOk(d, inode, table) && Formatted(r, bs) && TableOk(r, inode, table)
  {
    forall q: nat :: q < Cap(table, bs) ==>
      FileByte(r, bs, inode, table, q) == if p <= q < p + |buffer| then buffer[q - p] else FileByte(d, bs, inode, table, q)
  }

  lemma PatchedOk(d: Disk, bs: int, inode: int, size: int, table: seq<int>, i: nat, at: nat, chunk: seq<Byte>, r: Disk)
    requires FileOk(d, bs, inode, size, table) && i < |table| && at + |chunk| <= bs
    requires r == d[table[i] := Patched(d[table[i]], at, chunk)]
    ensures FileOk(r, bs, inode, size, table)
  {
    hide Patched, WordOf, Cap;
    assert r[inode] == d[inode];
  }

  /** One pass of write is a splice of its chunk. */
  lemma PatchedFile(d: Disk, bs: int, inode: int, size: int, table: seq<int>, p: nat, chunk: seq<Byte>, r: Disk)
    requires FileOk(d, bs, inode, size, table) && p < Cap(table, bs) && p % bs + |chunk| <= bs
    requires 0 <= p / bs < |table| && r == d[table[p / bs] := Patched(d[table[p / bs]], p % bs, chunk)]
    ensures FileOk(r, bs, inode, size, table) && p + |chunk| <= Cap(table, bs)
    ensures Spliced(d, r, bs, inode, table, p, chunk)
  {
    assert bs > 0;
    var i, at := p / bs, p % bs;
    PatchedOk(d, bs, inode, size, table, i, at, chunk, r);
    BlockEnd(p, bs, |table|);
    PatchedBytes(d, bs, inode, table, p, chunk, r);
  }

  lemma PatchedBytes(d: Disk, bs: int, inode: int, table: seq<int>, p: nat, chunk: seq<Byte>, r: Disk)
    requires Formatted(d, bs) && TableOk(d, inode, table) && Formatted(r, bs) && TableOk(r, inode, table)
    requires p < Cap(table, bs) && p % bs + |chunk| <= bs
    requires 0 <= p / bs < |table| && r == d[table[p / bs] := Patched(d[table[p / bs]], p % bs, chunk)]
    ensures Spliced(d, r, bs, inode, table, p, chunk)
  {
    forall q: nat | q < Cap(table, bs)
      ensures FileByte(r, bs, inode, table, q) == if p <= q < p + |chunk| then chunk[q - p] else FileByte(d, bs, inode, table, q)
    {
      PatchedByte(d, bs, inode, table, p, chunk, r, q);
    }
  }

  /** The whole contents of the file are spliced: the bytes before, the buffer, the bytes after. */
  lemma SpliceOfContents(d: Disk, r: Disk, bs: int, inode: int, size: nat, table: seq<int>, p: nat, buffer: seq<Byte>)
    requires FileOk(d, bs, inode, size, table) && FileOk(r, bs, inode, size, table)
    requires Spliced(d, r, bs, inode, table, p, buffer) && p + |buffer| <= size
    ensures Slice(r, bs, inode, table, 0, size) ==
            Slice(d, bs, inode, table, 0, p) + buffer + Slice(d, bs, inode, table, p + |buffer|, size)
  {
    hide FileByte, TableOk, Formatted, HasTable;
    var lhs := Slice(r, bs, inode, table, 0, size);
    var rhs := Slice(d, bs, inode, table, 0, p) + buffer + Slice(d, bs, inode, table, p + |buffer|, size);
    forall k | 0 <= k < size ensures lhs[k] == rhs[k] {
      assert lhs[k] == FileByte(r, bs, inode, table, k);
      if k >= p + |buffer| {
        assert rhs[k] == Slice(d, bs, inode, table, p + |buffer|, size)[k - p - |buffer|];
      }
    }
  }

  lemma SpliceStart(d: Disk, bs: int, inode: int, size: int, table: seq<int>, p: nat, buffer: seq<Byte>)
    requires FileOk(d, bs, inode, size, table) && buffer == []
    ensures Spliced(d, d, bs, inode, table, p, buffer) && OthersSame(d, d, table)
  {}

  /** The blocks write touches are the file's own. */
  ghost predicate OthersSame(d: Disk, r: Disk, table: seq<int>) {
    |r| == |d| && forall n :: 0 <= n < |d| && n !in table ==> r[n] == d[n]
  }

  /** A splice goes on by a chunk. */
  lemma SpliceMore(d: Disk, n: Disk, r: Disk, bs: int, inode: int, table: seq<int>, p: nat, done: seq<Byte>, chunk: seq<Byte>, k: nat)
    requires Formatted(d, bs) && TableOk(d, inode, table) && Formatted(n, bs) && TableOk(n, inode, table)
    requires Formatted(r, bs) && TableOk(r, inode, table) && k < Cap(table, bs)
    requires FileByte(n, bs, inode, table, k) == if p <= k < p + |done| then done[k - p] else FileByte(d, bs, inode, table, k)
    requires var q := p + |done|;
             FileByte(r, bs, inode, table, k) == if q <= k < q + |chunk| then chunk[k - q] else FileByte(n, bs, inode, table, k)
    ensures FileByte(r, bs, inode, table, k) == if p <= k < p + |done + chunk| then (done + chunk)[k - p] else FileByte(d, bs, inode, table, k)
  {
    hide FileByte;
  }

  lemma OthersStill(d: Disk, n: Disk, r: Disk, table: seq<int>, i: nat, b: Block)
    requires OthersSame(d, n, table) && i < |table| && 0 <= table[i] < |n| && r == n[table[i] := b]
    ensures OthersSame(d, r, table)
  {
    assert table[i] in table;
  }

  /** The bytes of r are those of n with a chunk written over them at q. */
  lemma SplicedOn(d: Disk, n: Disk, r: Disk, bs: int, inode: int, table: seq<int>, p: nat, done: seq<Byte>, chunk: seq<Byte>)
    requires Formatted(d, bs) && TableOk(d, inode, table) && Formatted(n, bs) && TableOk(n, inode, table)
    requires Formatted(r, bs) && TableOk(r, inode, table)
    requires Spliced(d, n, bs, inode, table, p, done) && Spliced(n, r, bs, inode, table, p + |done|, chunk)
    ensures Spliced(d, r, bs, inode, table, p, done + chunk)
  {
    hide FileByte, TableOk, Formatted, Cap;
    forall k: nat | k < Cap(table, bs)
      ensures FileByte(r, bs, inode, table, k) == if p <= k < p + |done + chunk| then (done + chunk)[k - p] else FileByte(d, bs, inode, table, k)
    {
      SpliceMore(d, n, r, bs, inode, table, p, done, chunk, k);
    }
  }

  lemma SpliceStep(d: Disk, n: Disk, r: Disk, bs: int, inode: int, size: int, table: seq<int>, p: nat, done: seq<Byte>, chunk: seq<Byte>)
    requires FileOk(d, bs, inode, size, table) && FileOk(n, bs, inode, size, table) && |n| == |d|
    requires Spliced(d, n, bs, inode, table, p, done) && OthersSame(d, n, table)
    requires var q := p + |done|;
             && q < Cap(table, bs) && q % bs + |chunk| <= bs && 0 <= q / bs < |table|
             && r == n[table[q / bs] := Patched(n[table[q / bs]], q % bs, chunk)]
    ensures FileOk(r, bs, inode, size, table) && OthersSame(d, r, table)
    ensures Spliced(d, r, bs, inode, table, p, done + chunk)
  {
    hide FileByte, HasTable, OthersSame, Patched, Cap, Spliced;
    var q := p + |done|;
    assert 0 <= table[q / bs] < |n|;
    OthersStill(d, n, r, table, q / bs, Patched(n[table[q / bs]], q % bs, chunk));
    PatchedFile(n, bs, inode, size, table, q, chunk, r);
    hide TableOk, Formatted;
    SplicedOn(d, n, r, bs, inode, table, p, done, chunk);
  }

  /** One pass of read copies the next bytes of the file. */
  lemma SliceStep(d: Disk, bs: int, inode: int, table: seq<int>, lo: nat, p: nat, n: nat)
    requires Formatted(d, bs) && TableOk(d, inode, table) && lo <= p < Cap(table, bs) && n <= bs - p % bs
    ensures p + n <= Cap(table, bs) && 0 <= p / bs < |table|
    ensures Slice(d, bs, inode, table, lo, p + n) ==
            Slice(d, bs, inode, table, lo, p) + d[table[p / bs]][p % bs..p % bs + n]
  {
    BlockEnd(p, bs, |table|);
    InTable(p, bs, |table|);
    var whole := Slice(d, bs, inode, table, lo, p + n);
    var parts := Slice(d, bs, inode, table, lo, p) + d[table[p / bs]][p % bs..p % bs + n];
    forall k | 0 <= k < p + n - lo ensures whole[k] == parts[k] {
      if k >= p - lo {
        SameBlock(p, bs, lo + k);
      }
    }
  }

  /** What read returns first after a write at the same position is what was written, however far the cursor runs. */
  lemma ReadBack(d: Disk, r: Disk, bs: int, inode: int, size: int, table: seq<int>, p: nat, buffer: seq<Byte>, q: nat)
    requires FileOk(d, bs, inode, size, table) && FileOk(r, bs, inode, size, table)
    requires Spliced(d, r, bs, inode, table, p, buffer) && p + |buffer| <= q <= Cap(table, bs)
    ensures Slice(r, bs, inode, table, p, q)[..|buffer|] == buffer
  {
    hide FileByte, TableOk, Formatted, HasTable;
    forall k | 0 <= k < |buffer| ensures Slice(r, bs, inode, table, p, q)[k] == buffer[k] {
      assert Slice(r, bs, inode, table, p, q)[k] == FileByte(r, bs, inode, table, p + k);
    }
  }

  lemma SliceEmpty(d: Disk, bs: int, inode: int, table: seq<int>, p: nat)
    requires Formatted(d, bs) && TableOk(d, inode, table) && p <= Cap(table, bs)
    ensures Slice(d, bs, inode, table, p, p) == []
  {
  }

  lemma SliceMore(d: Disk, bs: int, inode: int, table: seq<int>, lo: nat, mid: nat, hi: nat)
    requires Formatted(d, bs) && TableOk(d, inode, table) && lo <= mid <= hi <= Cap(table, bs)
    ensures Slice(d, bs, inode, table, lo, hi) == Slice(d, bs, inode, table, lo, mid) + Slice(d, bs, inode, table, mid, hi)
  {
    hide FileByte, TableOk, Formatted, Cap;
    var whole, a, b := Slice(d, bs, inode, table, lo, hi), Slice(d, bs, inode, table, lo, mid), Slice(d, bs, inode, table, mid, hi);
    forall k | 0 <= k < hi - lo ensures whole[k] == (a + b)[k] {
      if k >= mid - lo {
        assert b[k - (mid - lo)] == FileByte(d, bs, inode, table, mid + (k - (mid - lo)));
      }
    }
  }
}
