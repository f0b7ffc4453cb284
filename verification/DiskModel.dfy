/**
 * The disk image as a sequence of blocks of bytes, and the big-endian words
 * that index blocks and inodes hold (src/libk/filesystem.c:66-100).
 */
module DiskModel {
  import opened Bytes

  type Block = seq<Byte>
  type Disk = seq<Block>

  /** Every block has the same size, which holds a whole number of words, at least two. */
  ghost predicate Formatted(d: Disk, bs: int) {
    bs >= 8 && bs % 4 == 0 && forall n :: 0 <= n < |d| ==> |d[n]| == bs
  }

  /** Byte k of a 32-bit word, counted from the lowest. */
  function ByteOf(n: nat, k: nat): (b: nat)
    requires k < 4
    ensures b < 256
  {
    (n / (if k == 0 then 1 else if k == 1 then 0x100 else if k == 2 then 0x1_0000 else 0x100_0000)) % 256
  }

  function Join(b0: nat, b1: nat, b2: nat, b3: nat): (n: nat) {
    b0 + 0x100 * b1 + 0x1_0000 * b2 + 0x100_0000 * b3
  }

  /** switch_endianness: byte 3 to byte 0, byte 2 to byte 1, and back. */
  function SwitchEndianness(n: nat): (r: nat) {
    Join(ByteOf(n, 3), ByteOf(n, 2), ByteOf(n, 1), ByteOf(n, 0))
  }

  lemma BytesOfJoin(b0: nat, b1: nat, b2: nat, b3: nat)
    requires b0 < 256 && b1 < 256 && b2 < 256 && b3 < 256
    ensures var n := Join(b0, b1, b2, b3);
            && ByteOf(n, 0) == b0 && ByteOf(n, 1) == b1 && ByteOf(n, 2) == b2 && ByteOf(n, 3) == b3
            && n < 0x1_0000_0000
  {
    var n := Join(b0, b1, b2, b3);
    assert n / 0x100 == b1 + 0x100 * b2 + 0x1_0000 * b3;
    assert n / 0x1_0000 == b2 + 0x100 * b3;
    assert n / 0x100_0000 == b3;
  }

  /** Switching twice gives the word back. */
  lemma SwitchTwice(n: nat)
    requires n < 0x1_0000_0000
    ensures SwitchEndianness(SwitchEndianness(n)) == n
  {
    JoinOfBytes(n);
    BytesOfJoin(ByteOf(n, 3), ByteOf(n, 2), ByteOf(n, 1), ByteOf(n, 0));
    hide ByteOf;
  }

  lemma JoinOfBytes(n: nat)
    requires n < 0x1_0000_0000
    ensures n == Join(ByteOf(n, 0), ByteOf(n, 1), ByteOf(n, 2), ByteOf(n, 3))
  {
    var q1 := n / 0x100;
    var q2 := q1 / 0x100;
    var q3 := q2 / 0x100;
    var r0, r1, r2 := n % 0x100, q1 % 0x100, q2 % 0x100;
    assert n == r0 + 0x100 * r1 + 0x1_0000 * r2 + 0x100_0000 * q3;
    BytesOfJoin(r0, r1, r2, q3);
  }

  /** The machine's little-endian load of word k. */
  function Raw(b: Block, k: nat): (w: nat)
    requires 4 * k + 4 <= |b|
  {
    Join(b[4 * k] as int, b[4 * k + 1] as int, b[4 * k + 2] as int, b[4 * k + 3] as int)
  }

  /** read_big_endian_int of word k. */
  function WordOf(b: Block, k: nat): (w: nat)
    requires 4 * k + 4 <= |b|
  {
    SwitchEndianness(Raw(b, k))
  }

  /** It is the big-endian number that the four bytes spell. */
  lemma WordIsBigEndian(b: Block, k: nat)
    requires 4 * k + 4 <= |b|
    ensures WordOf(b, k) == Join(b[4 * k + 3] as int, b[4 * k + 2] as int, b[4 * k + 1] as int, b[4 * k] as int)
  {
    BytesOfJoin(b[4 * k] as int, b[4 * k + 1] as int, b[4 * k + 2] as int, b[4 * k + 3] as int);
  }

  /** The little-endian store of word k. */
  function SetRaw(b: Block, k: nat, w: nat): (r: Block)
    requires 4 * k + 4 <= |b|
    ensures |r| == |b|
  {
    b[4 * k := ByteOf(w, 0) as Byte][4 * k + 1 := ByteOf(w, 1) as Byte][4 * k + 2 := ByteOf(w, 2) as Byte][4 * k + 3 := ByteOf(w, 3) as Byte]
  }

  /** Storing a switched word makes the block spell that word there, and nothing else different. */
  lemma SetWord(b: Block, k: nat, w: nat, j: nat)
    requires 4 * k + 4 <= |b| && 4 * j + 4 <= |b| && w < 0x1_0000_0000
    ensures WordOf(SetRaw(b, k, SwitchEndianness(w)), j) == if j == k then w else WordOf(b, j)
  {
    var v := SwitchEndianness(w);
    var r := SetRaw(b, k, v);
    if j == k {
      BytesOfJoin(ByteOf(w, 3), ByteOf(w, 2), ByteOf(w, 1), ByteOf(w, 0));
      assert Raw(r, k) == Join(ByteOf(v, 0), ByteOf(v, 1), ByteOf(v, 2), ByteOf(v, 3));
      SwitchTwice(w);
    } else {
      assert Raw(r, j) == Raw(b, j);
    }
  }
}
