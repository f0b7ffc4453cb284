/**
 * The size rounding of the heap (src/memory/alloc.c:77-85): smearing the top
 * bit of n - 1 to the right, on 64-bit words whose bits are read through Bit.
 */
module HeapSizes {
  const Word64: int := 0x1_0000_0000_0000_0000

  function Pow2(k: nat): (p: int)
    ensures p > 0
  {
    if k == 0 then 1 else 2 * Pow2(k - 1)
  }

  predicate Bit(n: nat, j: nat) {
    if j == 0 then n % 2 == 1 else Bit(n / 2, j - 1)
  }

  function Or(a: nat, b: nat): (r: nat)
    decreases a + b
  {
    if a == 0 && b == 0 then 0
    else 2 * Or(a / 2, b / 2) + (if a % 2 == 1 || b % 2 == 1 then 1 else 0)
  }

  function ShiftRight(n: nat, k: nat): (r: nat)
    decreases k
  {
    if k == 0 then n else ShiftRight(n / 2, k - 1)
  }

  /** One line of the smear: n |= n >> k. */
  function SmearBy(n: nat, k: nat): (r: nat) {
    Or(n, ShiftRight(n, k))
  }

  function Smear(n: nat): (r: nat) {
    SmearBy(SmearBy(SmearBy(SmearBy(SmearBy(n, 1), 2), 4), 8), 16)
  }

  /** next_power_of_2 on a 64-bit size_t, whose decrement and increment wrap. */
  function NextPowerOfTwo(n: nat): (r: nat)
    ensures 0 <= r < Word64
  {
    (Smear((n + Word64 - 1) % Word64) + 1) % Word64
  }

  /** The documented meaning: the least power of two that is at least n. */
  ghost predicate IsLeastPower(n: nat, r: nat) {
    && (exists k: nat :: r == Pow2(k))
    && n <= r
    && forall k: nat :: n <= Pow2(k) ==> r <= Pow2(k)
  }

  /** Some bit of n among the w bits from j upwards is set. */
  ghost predicate Window(n: nat, w: nat, j: nat) {
    exists i: nat :: j <= i < j + w && Bit(n, i)
  }

  /** Below its top bit, n has no 32 zero bits in a row. */
  ghost predicate NoLongGap(n: nat) {
    forall j: nat :: Pow2(j) <= n ==> Window(n, 32, j)
  }

  lemma OrHalves(a: nat, b: nat)
    ensures Or(a, b) / 2 == Or(a / 2, b / 2)
    ensures Or(a, b) % 2 == 1 <==> a % 2 == 1 || b % 2 == 1
  {
    var q, c := Or(a / 2, b / 2), if a % 2 == 1 || b % 2 == 1 then 1 else 0;
    hide Or;
    assert (2 * q + c) / 2 == q && (2 * q + c) % 2 == c;
  }

  lemma {:induction false} BitOr(a: nat, b: nat, j: nat)
    ensures Bit(Or(a, b), j) <==> Bit(a, j) || Bit(b, j)
    decreases j
  {
    hide Or;
    OrHalves(a, b);
    if j > 0 {
      BitOr(a / 2, b / 2, j - 1);
    }
  }

  lemma {:induction false} BitShift(n: nat, k: nat, j: nat)
    ensures Bit(ShiftRight(n, k), j) <==> Bit(n, j + k)
    decreases k
  {
    if k > 0 {
      BitShift(n / 2, k - 1, j);
    }
  }

  lemma {:induction false} Pow2Order(i: nat, j: nat)
    requires i < j
    ensures 2 * Pow2(i) <= Pow2(j)
    decreases j
  {
    if i + 1 < j {
      Pow2Order(i, j - 1);
    }
  }

  /** Comparing powers of two compares their exponents. */
  lemma Exponents(i: nat, j: nat)
    ensures i < j <==> Pow2(i) < Pow2(j)
    ensures i < j <==> 2 * Pow2(i) <= Pow2(j)
  {
    if i < j {
      Pow2Order(i, j);
    } else if j < i {
      Pow2Order(j, i);
    }
  }

  lemma Associates(a: int, b: int, c: int)
    ensures a * b * c == a * (b * c)
  {
  }

  lemma {:induction false} Pow2Sum(i: nat, j: nat)
    ensures Pow2(i + j) == Pow2(i) * Pow2(j)
    decreases i
  {
    if i > 0 {
      Pow2Sum(i - 1, j);
      Pow2Next(i - 1);
      Pow2Next(i - 1 + j);
      Associates(2, Pow2(i - 1), Pow2(j));
      hide Pow2;
    }
  }

  lemma Pow2Next(k: nat)
    ensures Pow2(k + 1) == 2 * Pow2(k)
  {
  }

  lemma {:induction false} BitBound(n: nat, j: nat)
    requires Bit(n, j)
    ensures Pow2(j) <= n
    decreases j
  {
    if j > 0 {
      BitBound(n / 2, j - 1);
    }
  }

  lemma {:induction false} TopBit(n: nat) returns (k: nat)
    requires n > 0
    ensures Bit(n, k) && Pow2(k) <= n < Pow2(k + 1)
    decreases n
  {
    if n == 1 {
      k := 0;
    } else {
      k := TopBit(n / 2);
      k := k + 1;
      assert Pow2(k + 1) == 2 * Pow2(k);
    }
  }

  /** A word is 2^k - 1 exactly when its set bits are the k lowest. */
  lemma {:induction false} OnesFromBits(n: nat, k: nat)
    requires forall j: nat :: Bit(n, j) <==> j < k
    ensures n == Pow2(k) - 1
    decreases k
  {
    if k == 0 {
      if n > 0 {
        var t := TopBit(n);
      }
    } else {
      assert Bit(n, 0);
      forall j: nat ensures Bit(n / 2, j) <==> j < k - 1 {
        assert Bit(n, j + 1) <==> Bit(n / 2, j);
      }
      OnesFromBits(n / 2, k - 1);
    }
  }

  lemma {:induction false} BitsOfOnes(k: nat, j: nat)
    ensures Bit(Pow2(k) - 1, j) <==> j < k
    decreases j
  {
    if k > 0 && j > 0 {
      BitsOfOnes(k - 1, j - 1);
      assert (Pow2(k) - 1) / 2 == Pow2(k - 1) - 1;
    } else if k == 0 && j > 0 {
      BitsOfOnes(0, j - 1);
    }
  }

  /** Or-ing with the shift by w doubles the window each bit looks through. */
  lemma WindowDoubles(n: nat, m: nat, w: nat)
    requires w > 0
    requires forall j: nat :: Bit(m, j) <==> Window(n, w, j)
    ensures forall j: nat :: Bit(SmearBy(m, w), j) <==> Window(n, 2 * w, j)
  {
    forall j: nat ensures Bit(SmearBy(m, w), j) <==> Window(n, 2 * w, j) {
      BitOr(m, ShiftRight(m, w), j);
      BitShift(m, w, j);
      assert Bit(SmearBy(m, w), j) <==> Window(n, w, j) || Window(n, w, j + w);
      if Window(n, w, j) {
        var i: nat :| j <= i < j + w && Bit(n, i);
      }
      if Window(n, w, j + w) {
        var i: nat :| j + w <= i < j + w + w && Bit(n, i);
      }
      if Window(n, 2 * w, j) {
        var i: nat :| j <= i < j + 2 * w && Bit(n, i);
        assert if i < j + w then Window(n, w, j) else Window(n, w, j + w);
      }
    }
  }

  /** The five smears together: a bit ends up set when one of the 32 from it upwards was. */
  lemma SmearBits(n: nat)
    ensures forall j: nat :: Bit(Smear(n), j) <==> Window(n, 32, j)
  {
    forall j: nat ensures Bit(n, j) <==> Window(n, 1, j) {
      if Bit(n, j) {
        assert j <= j < j + 1;
      }
    }
    WindowDoubles(n, n, 1);
    var a := SmearBy(n, 1);
    WindowDoubles(n, a, 2);
    var b := SmearBy(a, 2);
    WindowDoubles(n, b, 4);
    var c := SmearBy(b, 4);
    WindowDoubles(n, c, 8);
    var d := SmearBy(c, 8);
    WindowDoubles(n, d, 16);
  }

  lemma Word64IsPow2()
    ensures Pow2(64) == Word64 && Pow2(63) == Word64 / 2 && Pow2(32) == 0x1_0000_0000
  {
    assert Pow2(8) == 0x100;
    assert Pow2(64) == 2 * Pow2(63);
    hide Pow2;
    Pow2Sum(8, 8);
    Pow2Sum(16, 16);
    Pow2Sum(32, 32);
  }

  /** The smear keeps within the top bit: it never exceeds the ones below it. */
  lemma SmearBound(n: nat, k: nat)
    requires n < Pow2(k)
    ensures Smear(n) < Pow2(k)
  {
    if Smear(n) >= Pow2(k) {
      var t := TopBit(Smear(n));
      SmearBits(n);
      var i: nat :| t <= i < t + 32 && Bit(n, i);
      BitBound(n, i);
      Exponents(k, t + 1);
      Exponents(i, k);
    }
  }

  lemma Unwrapped(n: nat)
    requires 1 <= n < Word64
    ensures NextPowerOfTwo(n) == (Smear(n - 1) + 1) % Word64
    ensures Smear(n - 1) + 1 <= Word64
  {
    hide Smear;
    assert (n - 1 + Word64) % Word64 == n - 1;
    Word64IsPow2();
    SmearBound(n - 1, 64);
  }

  lemma GapFreeSmearsToOnes(n: nat, k: nat)
    requires NoLongGap(n) && Bit(n, k) && Pow2(k) <= n < Pow2(k + 1)
    ensures Smear(n) == Pow2(k + 1) - 1
  {
    hide Smear, Bit;
    SmearBits(n);
    forall j: nat ensures Bit(Smear(n), j) <==> j < k + 1 {
      Exponents(k, j);
      if j > k && Window(n, 32, j) {
        var i: nat :| j <= i < j + 32 && Bit(n, i);
        BitBound(n, i);
        Exponents(i, k + 1);
      }
    }
    OnesFromBits(Smear(n), k + 1);
  }

  lemma OnesSmearHasNoGap(n: nat, k: nat)
    requires n < Pow2(k) && Smear(n) == Pow2(k) - 1
    ensures NoLongGap(n)
  {
    SmearBits(n);
    forall j: nat | Pow2(j) <= n ensures Window(n, 32, j) {
      if k < j {
        Pow2Order(k, j);
      }
      BitsOfOnes(k, j);
    }
  }

  /** Without a long gap the smear and the increment give the least power, at most twice n. */
  lemma GapFreeRoundsUp(m: nat)
    requires NoLongGap(m)
    ensures IsLeastPower(m + 1, Smear(m) + 1) && Smear(m) <= 2 * m
  {
    hide Smear;
    if m == 0 {
      SmearBound(0, 0);
      assert Smear(m) + 1 == Pow2(0);
    } else {
      var k := TopBit(m);
      GapFreeSmearsToOnes(m, k);
      assert Smear(m) + 1 == Pow2(k + 1);
      forall j: nat | m + 1 <= Pow2(j) ensures Pow2(k + 1) <= Pow2(j) {
        Exponents(k, j);
      }
    }
  }

  lemma LeastIfGapFree(n: nat)
    requires 1 <= n <= Word64 / 2 && NoLongGap(n - 1)
    ensures IsLeastPower(n, NextPowerOfTwo(n))
  {
    hide Smear, NextPowerOfTwo, NoLongGap, IsLeastPower;
    Unwrapped(n);
    GapFreeRoundsUp(n - 1);
  }

  lemma GapFreeIfLeast(n: nat)
    requires 1 <= n < Word64 && IsLeastPower(n, NextPowerOfTwo(n))
    ensures n <= Word64 / 2 && NoLongGap(n - 1)
  {
    hide Smear, NextPowerOfTwo;
    Word64IsPow2();
    Unwrapped(n);
    var k: nat :| NextPowerOfTwo(n) == Pow2(k);
    Exponents(k, 64);
    Exponents(63, k);
    OnesSmearHasNoGap(n - 1, k);
  }

  /**
   * next_power_of_2 returns the least power of two that is at least n exactly
   * when that power fits the word and n - 1 has no 32 zero bits in a row below
   * its top bit: the smear stops at a shift of 16 although size_t has 64 bits.
   */
  lemma NextPowerOfTwoExactly(n: nat)
    requires 1 <= n < Word64
    ensures IsLeastPower(n, NextPowerOfTwo(n)) <==> n <= Word64 / 2 && NoLongGap(n - 1)
  {
    if n <= Word64 / 2 && NoLongGap(n - 1) {
      LeastIfGapFree(n);
    }
    if IsLeastPower(n, NextPowerOfTwo(n)) {
      GapFreeIfLeast(n);
    }
  }

  /** Every n up to 2^32 is rounded as documented. */
  lemma NextPowerOfTwoIsLeast(n: nat)
    requires 1 <= n <= 0x1_0000_0000
    ensures IsLeastPower(n, NextPowerOfTwo(n))
  {
    Word64IsPow2();
    var m := n - 1;
    forall j: nat | Pow2(j) <= m ensures Window(m, 32, j) {
      var k := TopBit(m);
      Exponents(k, 32);
      Exponents(j, k + 1);
      assert j <= k < j + 32;
    }
    NextPowerOfTwoExactly(n);
  }

  /** The first n that is rounded wrongly: 2^32 + 1 becomes 2^33 - 1. */
  lemma FirstWrongRounding()
    ensures !IsLeastPower(0x1_0000_0001, NextPowerOfTwo(0x1_0000_0001))
  {
    Word64IsPow2();
    var m := 0x1_0000_0000;
    assert Pow2(0) <= m;
    if NoLongGap(m) {
      var i: nat :| 0 <= i < 0 + 32 && Bit(m, i);
      assert !Bit(m, i) by {
        BitsOfPow2(32, i);
      }
    }
    NextPowerOfTwoExactly(m + 1);
  }

  lemma {:induction false} BitsOfPow2(k: nat, j: nat)
    ensures Bit(Pow2(k), j) <==> j == k
    decreases j
  {
    if k > 0 && j > 0 {
      BitsOfPow2(k - 1, j - 1);
    } else if j > 0 {
      BitsOfOnes(0, j - 1);
    }
  }
}
