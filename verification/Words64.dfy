/** What 64-bit words mean as numbers. */
module Words64 {
  import opened Totals
  import opened Log2

  /** The binary digits of d, as a 64-bit word. */
  function Bits(d: nat): bv64 {
    if d == 0 then 0 else Extended(Bits(d / 2), LastBit(d))
  }

  /** One more digit at the end. */
  function Extended(x: bv64, bit: bv64): bv64 { (x << 1) | bit }

  function Half(x: bv64): bv64 { x >> 1 }

  function LastBit(d: nat): bv64 { if d % 2 == 1 then 1 else 0 }

  /** A small word as a number, by counting down. */
  function Number(b: bv64): nat
    requires b <= 64
    decreases b
  {
    if b == 0 then 0 else 1 + Number(b - 1)
  }

  /** k ones. */
  function Ones(k: nat): bv64 { if k == 0 then 0 else Extended(Ones(k - 1), 1) }

  predicate Covers(m: bv64, x: bv64) { x & !m == 0 }

  lemma CoversMore(m: bv64, x: bv64, bit: bv64)
    requires bit <= 1 && Covers(m, x)
    ensures Covers(Extended(m, 1), Extended(x, bit))
  {
    hide Bits, LastBit, Number, Ones, Pow2;
  }

  lemma CoversNothing(m: bv64)
    ensures Covers(m, 0)
  {
  }

  lemma BitsStep(d: nat)
    requires d > 0
    ensures Bits(d) == Extended(Bits(d / 2), LastBit(d)) && LastBit(d) <= 1
    ensures LastBit(d) == 0 <==> d % 2 == 0
    ensures LastBit(d) == 1 <==> d % 2 == 1
  {
    hide Extended;
  }

  /** Numbers below 2^k need no more than k digits. */
  lemma {:induction false} FewBits(d: nat, k: nat)
    requires d < Pow2(k)
    ensures Covers(Ones(k), Bits(d))
    decreases k
  {
    if d == 0 {
      CoversNothing(Ones(k));
    } else {
      FewBits(d / 2, k - 1);
      BitsStep(d);
      CoversMore(Ones(k - 1), Bits(d / 2), LastBit(d));
      hide Covers, Extended, LastBit;
    }
  }

  lemma EightOnes(k: nat, m: bv64)
    requires Ones(k) == m
    ensures Ones(k + 8) == (m << 8) | 0xFF
  {
    hide Bits, LastBit, Number, Ones, Pow2, Extended, Covers;
    var a := (m << 2) | 3;
    TwoOnes(k, m);
    var b := (a << 2) | 3;
    TwoOnes(k + 2, a);
    var c := (b << 2) | 3;
    TwoOnes(k + 4, b);
    TwoOnes(k + 6, c);
  }

  lemma TwoOnes(k: nat, m: bv64)
    requires Ones(k) == m
    ensures Ones(k + 2) == (m << 2) | 3
  {
    OneOne(k, m);
    OneOne(k + 1, (m << 1) | 1);
    hide Bits, LastBit, Number, Ones, Pow2, Extended, Covers;
  }

  lemma SixtyThreeOnes()
    ensures Ones(63) == 0x7FFF_FFFF_FFFF_FFFF
  {
    hide Ones, Extended;
    NoOnes();
    EightOnes(0, 0);
    EightOnes(8, 0xFF);
    EightOnes(16, 0xFFFF);
    EightOnes(24, 0xFF_FFFF);
    EightOnes(32, 0xFFFF_FFFF);
    EightOnes(40, 0xFF_FFFF_FFFF);
    EightOnes(48, 0xFFFF_FFFF_FFFF);
    SevenOnes(56, 0xFF_FFFF_FFFF_FFFF);
  }

  lemma SevenOnes(k: nat, m: bv64)
    requires Ones(k) == m
    ensures Ones(k + 7) == (m << 7) | 0x7F
  {
    hide Bits, LastBit, Number, Ones, Pow2, Extended, Covers;
    var a := (m << 2) | 3;
    TwoOnes(k, m);
    var b := (a << 2) | 3;
    TwoOnes(k + 2, a);
    var c := (b << 2) | 3;
    TwoOnes(k + 4, b);
    OneOne(k + 6, c);
  }

  lemma OneOne(k: nat, m: bv64)
    requires Ones(k) == m
    ensures Ones(k + 1) == (m << 1) | 1
  {
  }

  lemma NoOnes()
    ensures Ones(0) == 0
  {
  }

  lemma ExtendedOnce(x: bv64, bit: bv64)
    requires bit <= 1 && Covers(0x7FFF_FFFF_FFFF_FFFF, x)
    ensures Half(Extended(x, bit)) == x
    ensures Extended(x, bit) == 0 <==> x == 0 && bit == 0
    ensures Extended(x, bit) == 1 <==> x == 0 && bit == 1
  {
    hide Bits, LastBit, Number, Ones, Pow2;
  }

  /** The digits of a number and of its half. */
  lemma HalfBits(d: nat)
    requires 0 < d < Pow2(64)
    ensures d / 2 < Pow2(64) && Half(Bits(d)) == Bits(d / 2)
    ensures Bits(d) == 0 <==> Bits(d / 2) == 0 && d % 2 == 0
    ensures Bits(d) == 1 <==> Bits(d / 2) == 0 && d % 2 == 1
  {
    PowerStep(64);
    hide *;
    FewBits(d / 2, 63);
    SixtyThreeOnes();
    BitsStep(d);
    ExtendedOnce(Bits(d / 2), LastBit(d));
  }

  lemma PowerStep(n: nat)
    requires n > 0
    ensures Pow2(n) == 2 * Pow2(n - 1)
  {
  }

  lemma {:induction false} NonZeroBits(d: nat)
    requires d < Pow2(64)
    ensures Bits(d) == 0 <==> d == 0
  {
    hide *;
    if d == 0 {
      ZeroBits();
    } else {
      HalfBits(d);
      NonZeroBits(d / 2);
    }
  }

  lemma ZeroBits()
    ensures Bits(0) == 0
  {
  }

  lemma LogOfHalf(x: bv64, r: bv64)
    ensures 1 <= r < 64 ==> (IsLog2(x, r) <==> IsLog2(Half(x), r - 1))
  {
    hide Bits, LastBit, Number, Ones, Pow2, Extended, Covers;
  }

  lemma LogZero(x: bv64)
    ensures IsLog2(x, 0) <==> x == 1
    ensures x == 0 ==> forall r :: !IsLog2(x, r)
  {
    hide Bits, LastBit, Number, Ones, Pow2, Extended, Covers;
  }

  lemma NumberStep(b: bv64)
    requires 0 < b <= 64
    ensures Number(b) == 1 + Number(b - 1) && Pow2(Number(b)) == 2 * Pow2(Number(b - 1))
  {
  }

  lemma ZeroNumber()
    ensures Number(0) == 0 && Pow2(Number(0)) == 1
  {
  }

  lemma Halved(d: nat, p: nat)
    requires p >= 1
    ensures p <= d / 2 < 2 * p <==> 2 * p <= d < 2 * (2 * p)
  {
  }

  /** r is the binary logarithm of the word of d exactly when d lies between the powers r and r + 1 of two. */
  lemma {:induction false} Log2OfBits(d: nat, r: bv64)
    requires 0 < d < Pow2(64) && r < 64
    ensures IsLog2(Bits(d), r) <==> Pow2(Number(r)) <= d < 2 * Pow2(Number(r))
    decreases r
  {
    hide *;
    HalfBits(d);
    LogZero(Bits(d));
    if r == 0 {
      ZeroNumber();
      NonZeroBits(d / 2);
    } else {
      LogOfHalf(Bits(d), r);
      NumberStep(r);
      if d / 2 > 0 {
        Log2OfBits(d / 2, r - 1);
      } else {
        ZeroBits();
        LogZero(Bits(d / 2));
      }
      Halved(d, Pow2(Number(r - 1)));
    }
  }

  lemma {:induction false} PowerSum(m: nat, n: nat)
    ensures Pow2(m + n) == Pow2(m) * Pow2(n)
  {
    if m > 0 {
      PowerSum(m - 1, n);
      assert 2 * (Pow2(m - 1) * Pow2(n)) == 2 * Pow2(m - 1) * Pow2(n);
    }
  }

  lemma PowerOf8()
    ensures Pow2(8) == 256
  {
  }

  lemma PowerOf64()
    ensures Pow2(64) == 0x1_0000_0000_0000_0000
  {
    hide *;
    PowerOf8();
    PowerSum(8, 8);
    PowerSum(16, 16);
    PowerSum(32, 32);
  }
}
