/**
 The error of a child as its parent finds it in memory.
 */
module ProcErrors {
  import opened Bytes
  import opened ProcModel

  // A process that loads an err_t from these bytes finds e in it, as far as its fields hold it.
  ghost predicate ReadsAs(b: seq<Byte>, e: Err) {
    && |b| == 16 && Load(b, 0, 4) == e.no % 0x1_0000_0000 && Load(b, 8, 8) == e.data % 0x1_0000_0000_0000_0000
    && forall i | 4 <= i < 8 :: b[i] == 0
  }

  // What LittleEndian stores of v is loaded back: v up to a multiple of the word size.
  lemma {:induction false} LoadsBack(b: seq<Byte>, a: nat, v: int, n: nat) returns (k: int)
    requires a + n <= |b| && b[a..a + n] == LittleEndian(v, n)
    ensures 0 <= Load(b, a, n) < Pow256(n) && v == Pow256(n) * k + Load(b, a, n)
    decreases n
  {
    if n == 0 {
      k := v;
    } else {
      assert b[a] == b[a..a + n][0];
      assert b[a + 1..a + 1 + (n - 1)] == b[a..a + n][1..];
      k := LoadsBack(b, a + 1, v / 256, n - 1);
      var p := Pow256(n - 1);
      assert Pow256(n) * k == 256 * (p * k);
    }
  }

  lemma ErrorIsHeld(e: Err)
    ensures ReadsAs(ErrBytes(e), e)
  {
    hide LittleEndian;
    hide Load;
    hide Pow256;
    var b := ErrBytes(e);
    var no, zero, data := LittleEndian(e.no, 4), LittleEndian(0, 4), LittleEndian(e.data, 8);
    assert b == no + zero + data;
    assert b[0..0 + 4] == no && b[4..8] == zero && b[8..8 + 8] == data;
    ZeroBytes(4);
    forall i | 4 <= i < 8 ensures b[i] == 0 {
      assert b[i] == b[4..8][i - 4];
    }
    PowersOf256();
    var k := LoadsBack(b, 0, e.no, 4);
    var l := LoadsBack(b, 8, e.data, 8);
  }

  lemma {:induction false} ZeroBytes(n: nat)
    ensures forall i | 0 <= i < n :: LittleEndian(0, n)[i] == 0
  {
    if n > 0 {
      ZeroBytes(n - 1);
    }
  }

  // The pending delivery of the error e of process c, at an address that its parent gave.
  ghost predicate ErrorPending(d: Delivery, addr: int, e: Err, c: int) {
    d.Delivery? && d.addr == addr && d.origin == FromChild(c) && ReadsAs(d.bytes, e)
  }
}
