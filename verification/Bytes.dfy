/**
 Bytes, and the little-endian words that they make up.
 */
module Bytes {
  newtype Byte = x: int | 0 <= x < 256

  function Pow256(n: nat): (p: int)
    ensures p > 0
  {
    if n == 0 then 1 else 256 * Pow256(n - 1)
  }

  /** The n-byte little-endian word at a. */
  function Load(m: seq<Byte>, a: int, n: nat): (v: nat)
    requires 0 <= a && a + n <= |m|
    decreases n
  {
    if n == 0 then 0 else m[a] as int + 256 * Load(m, a + 1, n - 1)
  }

  lemma PowersOf256()
    ensures Pow256(8) == 0x1_0000_0000_0000_0000 && Pow256(4) == 0x1_0000_0000
  {
    assert Pow256(4) == 0x1_0000_0000;
    assert Pow256(6) == 0x1_0000_0000_0000;
  }
}
