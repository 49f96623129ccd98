/** log2_64 of server.cpp: the position of the highest bit, by smearing and a de Bruijn multiplication. */
module Log2 {

  const DE_BRUIJN: bv64 := 0x07EDD5E59A4E28C2

  /** One entry of a row of eight. */
  function Pick8(j: bv64, a: bv64, b: bv64, c: bv64, d: bv64, e: bv64, f: bv64, g: bv64, h: bv64): bv64 {
    if j < 4 then (if j < 2 then (if j == 0 then a else b) else (if j == 2 then c else d))
    else (if j < 6 then (if j == 4 then e else f) else (if j == 6 then g else h))
  }

  /** tab64, row by row. */
  function Tab64(i: bv64): bv64 {
    var j := i & 7;
    Pick8(i >> 3,
      Pick8(j, 63,  0, 58,  1, 59, 47, 53,  2),
      Pick8(j, 60, 39, 48, 27, 54, 33, 42,  3),
      Pick8(j, 61, 51, 37, 40, 49, 18, 28, 20),
      Pick8(j, 55, 30, 34, 11, 43, 14, 22,  4),
      Pick8(j, 62, 57, 46, 52, 38, 26, 32, 41),
      Pick8(j, 50, 36, 17, 19, 29, 10, 13, 21),
      Pick8(j, 56, 45, 25, 31, 35, 16,  9, 12),
      Pick8(j, 44, 24, 15,  8, 23,  7,  6,  5))
  }

  /** r is the integer part of the logarithm of v to base 2: bit r is set and no higher one is. */
  predicate IsLog2(v: bv64, r: bv64) { r < 64 && v >> r == 1 }

  lemma Log2IsUnique(v: bv64, r: bv64, q: bv64)
    requires IsLog2(v, r) && IsLog2(v, q)
    ensures r == q
  {
  }

  /** A smeared value: its set bits are those up to some position. */
  predicate AllOnes(f: bv64) { f & (f + 1) == 0 }

  predicate OneBit(p: bv64) { p != 0 && p & (p - 1) == 0 }

  /** The six steps fill every bit below the highest one. */
  lemma Smearing(v0: bv64, v1: bv64, v2: bv64, v3: bv64, v4: bv64, v5: bv64, v6: bv64)
    requires v1 == v0 | (v0 >> 1) && v2 == v1 | (v1 >> 2) && v3 == v2 | (v2 >> 4)
    requires v4 == v3 | (v3 >> 8) && v5 == v4 | (v4 >> 16) && v6 == v5 | (v5 >> 32)
    ensures AllOnes(v6) && v0 <= v6 && (v0 != 0 ==> v6 >> 1 < v0) && (v0 == 0 ==> v6 == 0)
  {
  }

  /** Subtracting the half leaves the highest bit. */
  lemma Isolating(f: bv64)
    requires AllOnes(f) && f != 0
    ensures OneBit(f - (f >> 1)) && f - (f >> 1) == (f >> 1) + 1
  {
  }

  function Pick(p: bv64, mask: bv64, bit: bv64): bv64 { if p & mask != 0 then bit else 0 }

  /** The position of a single bit, found by bisection. */
  lemma PositionOf(p: bv64) returns (k: bv64)
    requires OneBit(p)
    ensures k < 64 && p == 1 << k
  {
    k := Pick(p, 0xAAAAAAAAAAAAAAAA, 1) | Pick(p, 0xCCCCCCCCCCCCCCCC, 2) | Pick(p, 0xF0F0F0F0F0F0F0F0, 4)
       | Pick(p, 0xFF00FF00FF00FF00, 8) | Pick(p, 0xFFFF0000FFFF0000, 16) | Pick(p, 0xFFFFFFFF00000000, 32);
  }

  lemma ProductIsShift(k: bv64)
    requires k < 64
    ensures (1 << k) * DE_BRUIJN == DE_BRUIJN << k
  {
  }

  /** The top six bits of the shifted constant are different for every shift; the table inverts them. */
  lemma TableInvertsShift(k: bv64)
    requires k < 64
    ensures Tab64((DE_BRUIJN << k) >> 58) == k
  {
  }

  lemma TopBit(v: bv64, p: bv64, k: bv64)
    requires k < 64 && p == 1 << k && p <= v && v - p < p
    ensures IsLog2(v, k)
  {
  }

  /** The table lookup of a single bit is its position; that of zero is the table's first entry. */
  lemma Lookup(v: bv64, f: bv64)
    requires AllOnes(f) && v <= f && (v != 0 ==> f >> 1 < v) && (v == 0 ==> f == 0)
    ensures var r := Tab64(((f - (f >> 1)) * DE_BRUIJN) >> 58);
      if v == 0 then r == 63 else IsLog2(v, r)
  {
    if v != 0 {
      Isolating(f);
      var p := f - (f >> 1);
      var k := PositionOf(p);
      ProductIsShift(k);
      TableInvertsShift(k);
      Within(v, f, p);
      TopBit(v, p, k);
    }
  }

  lemma Within(v: bv64, f: bv64, p: bv64)
    requires AllOnes(f) && f >> 1 < v <= f && p == (f >> 1) + 1
    ensures p <= v && v - p < p
  {
  }

  /** log2_64, for every 64-bit value. Zero is not a logarithm: the result for it is 63. */
  method Log2_64(value: bv64) returns (r: bv64)
    ensures value != 0 ==> IsLog2(value, r)
    ensures value == 0 ==> r == 63
  {
    var v := value;
    v := v | (v >> 1);
    ghost var v1 := v;
    v := v | (v >> 2);
    ghost var v2 := v;
    v := v | (v >> 4);
    ghost var v3 := v;
    v := v | (v >> 8);
    ghost var v4 := v;
    v := v | (v >> 16);
    ghost var v5 := v;
    v := v | (v >> 32);
    Smearing(value, v1, v2, v3, v4, v5, v);
    Lookup(value, v);
    r := Tab64(((v - (v >> 1)) * DE_BRUIJN) >> 58);
  }
}
