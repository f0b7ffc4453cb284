/**
 * Memory as bytes, and the block header stored in it: size, next, prev and
 * free of struct alloc_block (src/memory/alloc.c:87-92), little-endian.
 */
module HeapMemory {
  import opened Bytes

  type Memory = seq<Byte>

  /** sizeof(struct alloc_block) on AArch64. */
  const HeaderSize: int := 32

  datatype Header = Header(size: int, next: int, prev: int, free: int)

  function Store(m: Memory, a: int, n: nat, v: nat): (r: Memory)
    requires 0 <= a && a + n <= |m|
    ensures |r| == |m|
    decreases n
  {
    if n == 0 then m else Store(m[a := (v % 256) as Byte], a + 1, n - 1, v / 256)
  }

  /** The two memories agree on [a, a + n). */
  ghost predicate SameOn(m: Memory, r: Memory, a: int, n: int) {
    |m| == |r| && 0 <= a && a + n <= |m| && forall x {:trigger r[x]} :: a <= x < a + n ==> r[x] == m[x]
  }

  lemma {:induction false} LoadSame(m: Memory, r: Memory, a: int, n: nat)
    requires SameOn(m, r, a, n)
    ensures Load(r, a, n) == Load(m, a, n)
    decreases n
  {
    if n > 0 {
      LoadSame(m, r, a + 1, n - 1);
    }
  }

  lemma {:induction false} StoreElsewhere(m: Memory, a: int, n: nat, v: nat)
    requires 0 <= a && a + n <= |m|
    ensures forall x :: 0 <= x < |m| && !(a <= x < a + n) ==> Store(m, a, n, v)[x] == m[x]
    decreases n
  {
    if n > 0 {
      StoreElsewhere(m[a := (v % 256) as Byte], a + 1, n - 1, v / 256);
    }
  }

  lemma {:induction false} LoadStored(m: Memory, a: int, n: nat, v: nat)
    requires 0 <= a && a + n <= |m| && v < Pow256(n)
    ensures Load(Store(m, a, n, v), a, n) == v
    decreases n
  {
    if n > 0 {
      var m1 := m[a := (v % 256) as Byte];
      LoadStored(m1, a + 1, n - 1, v / 256);
      StoreElsewhere(m1, a + 1, n - 1, v / 256);
    }
  }

  ghost predicate Room(m: Memory, a: int) {
    0 <= a && a + HeaderSize <= |m|
  }

  function HeaderAt(m: Memory, a: int): (h: Header)
    requires Room(m, a)
  {
    Header(Load(m, a, 8), Load(m, a + 8, 8), Load(m, a + 16, 8), Load(m, a + 24, 4))
  }

  /** Only the header at a may differ. */
  ghost predicate OnlyHeader(m: Memory, r: Memory, a: int) {
    |m| == |r| && forall x {:trigger r[x]} :: 0 <= x < |m| && !(a <= x < a + HeaderSize) ==> r[x] == m[x]
  }

  lemma HeaderSame(m: Memory, r: Memory, a: int)
    requires SameOn(m, r, a, HeaderSize)
    ensures HeaderAt(r, a) == HeaderAt(m, a)
  {
    LoadSame(m, r, a, 8);
    LoadSame(m, r, a + 8, 8);
    LoadSame(m, r, a + 16, 8);
    LoadSame(m, r, a + 24, 4);
  }

  lemma HeaderElsewhere(m: Memory, r: Memory, a: int, b: int)
    requires OnlyHeader(m, r, a) && Room(m, b)
    requires a + HeaderSize <= b || b + HeaderSize <= a
    ensures HeaderAt(r, b) == HeaderAt(m, b)
  {
    HeaderSame(m, r, b);
  }

  /** The stores to the fields of the header at a. */
  function SetSize(m: Memory, a: int, v: nat): (r: Memory)
    requires Room(m, a)
    ensures |r| == |m|
  {
    Store(m, a, 8, v)
  }

  function SetNext(m: Memory, a: int, v: nat): (r: Memory)
    requires Room(m, a)
    ensures |r| == |m|
  {
    Store(m, a + 8, 8, v)
  }

  function SetPrev(m: Memory, a: int, v: nat): (r: Memory)
    requires Room(m, a)
    ensures |r| == |m|
  {
    Store(m, a + 16, 8, v)
  }

  function SetFree(m: Memory, a: int, v: nat): (r: Memory)
    requires Room(m, a)
    ensures |r| == |m|
  {
    Store(m, a + 24, 4, v)
  }

  lemma SetSizeHeader(m: Memory, a: int, v: nat)
    requires Room(m, a) && v < 0x1_0000_0000_0000_0000
    ensures OnlyHeader(m, SetSize(m, a, v), a)
    ensures HeaderAt(SetSize(m, a, v), a) == HeaderAt(m, a).(size := v)
  {
    hide Load, Store, Pow256;
    PowersOf256();
    LoadStored(m, a, 8, v);
    var r := SetSize(m, a, v);
    StoreElsewhere(m, a, 8, v);
    LoadSame(m, r, a + 8, 8);
    LoadSame(m, r, a + 16, 8);
    LoadSame(m, r, a + 24, 4);
  }

  lemma SetNextHeader(m: Memory, a: int, v: nat)
    requires Room(m, a) && v < 0x1_0000_0000_0000_0000
    ensures OnlyHeader(m, SetNext(m, a, v), a)
    ensures HeaderAt(SetNext(m, a, v), a) == HeaderAt(m, a).(next := v)
  {
    hide Load, Store, Pow256;
    PowersOf256();
    LoadStored(m, a + 8, 8, v);
    var r := SetNext(m, a, v);
    StoreElsewhere(m, a + 8, 8, v);
    LoadSame(m, r, a, 8);
    LoadSame(m, r, a + 16, 8);
    LoadSame(m, r, a + 24, 4);
  }

  lemma SetPrevHeader(m: Memory, a: int, v: nat)
    requires Room(m, a) && v < 0x1_0000_0000_0000_0000
    ensures OnlyHeader(m, SetPrev(m, a, v), a)
    ensures HeaderAt(SetPrev(m, a, v), a) == HeaderAt(m, a).(prev := v)
  {
    hide Load, Store, Pow256;
    PowersOf256();
    LoadStored(m, a + 16, 8, v);
    var r := SetPrev(m, a, v);
    StoreElsewhere(m, a + 16, 8, v);
    LoadSame(m, r, a, 8);
    LoadSame(m, r, a + 8, 8);
    LoadSame(m, r, a + 24, 4);
  }

  lemma SetFreeHeader(m: Memory, a: int, v: nat)
    requires Room(m, a) && v < 0x1_0000_0000
    ensures OnlyHeader(m, SetFree(m, a, v), a)
    ensures HeaderAt(SetFree(m, a, v), a) == HeaderAt(m, a).(free := v)
  {
    hide Load, Store, Pow256;
    PowersOf256();
    LoadStored(m, a + 24, 4, v);
    var r := SetFree(m, a, v);
    StoreElsewhere(m, a + 24, 4, v);
    LoadSame(m, r, a, 8);
    LoadSame(m, r, a + 8, 8);
    LoadSame(m, r, a + 16, 8);
  }
}
