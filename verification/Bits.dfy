/**
 Bit operations on words of any width. A word of width w is a number below 2^w; bitwise AND is defined
 digit by digit on numbers, so nothing depends on the width except the complement and the wrap-around of
 addition.
 */
module Bits {
  function Pow2(n: nat): (r: nat)
    ensures r > 0
  {
    if n == 0 then 1 else 2 * Pow2(n - 1)
  }

  function And(x: nat, y: nat): nat {
    if x == 0 || y == 0 then 0
    else 2 * And(x / 2, y / 2) + (if x % 2 == 1 && y % 2 == 1 then 1 else 0)
  }

  /** Bit k of a number. */
  predicate Bit(x: nat, k: nat) {
    x / Pow2(k) % 2 == 1
  }

  lemma BitShift(x: nat, k: nat)
    requires k > 0
    ensures Bit(x, k) <==> Bit(x / 2, k - 1)
  {
    DivTwice(x, Pow2(k - 1));
  }

  lemma NoBits(k: nat)
    ensures !Bit(0, k)
  {
  }

  /** AND, bit by bit. */
  lemma {:induction false} AndBits(x: nat, y: nat, k: nat)
    ensures Bit(And(x, y), k) <==> Bit(x, k) && Bit(y, k)
    decreases k
  {
    if x == 0 || y == 0 {
      NoBits(k);
    } else {
      AndHalf(x, y);
      if k == 0 {
        BitZero(x);
        BitZero(y);
        BitZero(And(x, y));
      } else {
        AndBits(x / 2, y / 2, k - 1);
        BitShift(x, k);
        BitShift(y, k);
        BitShift(And(x, y), k);
      }
    }
  }

  lemma AndHalf(x: nat, y: nat)
    requires x > 0 && y > 0
    ensures And(x, y) / 2 == And(x / 2, y / 2)
    ensures And(x, y) % 2 == 1 <==> x % 2 == 1 && y % 2 == 1
  {
    HalfOf(And(x / 2, y / 2), if x % 2 == 1 && y % 2 == 1 then 1 else 0);
  }

  lemma HalfOf(h: nat, b: nat)
    requires b < 2
    ensures (2 * h + b) / 2 == h && (2 * h + b) % 2 == b
  {
  }

  lemma BitZero(x: nat)
    ensures Bit(x, 0) <==> x % 2 == 1
  {
    assert x / 1 == x;
  }

  /** ~x in a word of width w. */
  function Not(x: nat, w: nat): nat
    requires x < Pow2(w)
  {
    Pow2(w) - 1 - x
  }

  // ---------------------------------------------------------------- powers of two

  predicate IsPowerOfTwo(x: int) {
    x > 0 && And(x, x - 1) == 0
  }

  lemma {:induction false} AndSelf(x: nat)
    ensures And(x, x) == x
  {
    if x > 0 {
      AndSelf(x / 2);
    }
  }

  lemma {:induction false} PowerHasOneBit(k: nat)
    ensures IsPowerOfTwo(Pow2(k))
  {
    if k > 0 {
      PowerHasOneBit(k - 1);
      var m := Pow2(k - 1);
      assert (2 * m - 1) / 2 == m - 1;
    }
  }

  lemma {:induction false} Exponent(x: int) returns (k: nat)
    requires IsPowerOfTwo(x)
    ensures x == Pow2(k)
    decreases x
  {
    if x == 1 {
      k := 0;
    } else {
      if x % 2 == 1 {
        assert (x - 1) / 2 == x / 2;
        AndSelf(x / 2);
        assert false;
      }
      assert (x - 1) / 2 == x / 2 - 1;
      k := Exponent(x / 2);
      k := k + 1;
    }
  }

  /** The test holds of exactly the powers of two, at every width and for negative numbers too. */
  lemma PowerOfTwoIff(x: int)
    ensures IsPowerOfTwo(x) <==> exists k :: x == Pow2(k)
  {
    if IsPowerOfTwo(x) {
      var k := Exponent(x);
    } else if k: nat :| x == Pow2(k) {
      PowerHasOneBit(k);
    }
  }

  // ---------------------------------------------------------------- alignment

  function AlignDown(size: nat, alignment: nat, w: nat): nat
    requires 0 < alignment < Pow2(w)
  {
    And(size, Not(alignment - 1, w))
  }

  function Align(size: nat, alignment: nat, w: nat): nat
    requires 0 < alignment < Pow2(w)
  {
    And((size + alignment - 1) % Pow2(w), Not(alignment - 1, w))
  }

  lemma {:induction false} AndAllOnes(x: nat, w: nat)
    requires x < Pow2(w)
    ensures And(x, Pow2(w) - 1) == x
  {
    if w > 0 && x > 0 {
      var y := Pow2(w) - 1;
      assert y / 2 == Pow2(w - 1) - 1 && y % 2 == 1;
      AndAllOnes(x / 2, w - 1);
      assert And(x, y) == 2 * And(x / 2, y / 2) + x % 2;
    }
  }

  /** Halving and taking a remainder commute, up to the lost bit. */
  lemma ModTwice(x: nat, m: nat)
    requires m > 0
    ensures x % (2 * m) == 2 * (x / 2 % m) + x % 2
  {
    var q, r := x / 2 / m, x / 2 % m;
    assert x == q * (2 * m) + (2 * r + x % 2) by {
      assert x / 2 == q * m + r;
    }
    ModUnique(x, 2 * m, q, 2 * r + x % 2);
  }

  lemma ModUnique(x: int, d: int, q: int, r: int)
    requires d > 0 && 0 <= r < d && x == q * d + r
    ensures x % d == r
  {
    var p := x / d;
    assert x == p * d + x % d;
    assert (p - q) * d == r - x % d;
    MulBounds(p - q, d);
  }

  lemma MulBounds(k: int, d: int)
    requires d > 0
    ensures k >= 1 ==> k * d >= d
    ensures k <= -1 ==> k * d <= -d
  {
  }

  lemma MulDouble(y: nat, p: nat)
    ensures y * (2 * p) == 2 * (y * p)
  {
  }

  /** The mask clears the bits below 2^k. */
  lemma {:induction false} MaskClears(x: nat, k: nat, w: nat)
    requires x < Pow2(w) && k <= w
    ensures Pow2(k) <= Pow2(w)
    ensures And(x, Pow2(w) - Pow2(k)) == x - x % Pow2(k)
    decreases k
  {
    if k == 0 {
      AndAllOnes(x, w);
    } else {
      MaskClears(x / 2, k - 1, w - 1);
      var m := Pow2(w - 1) - Pow2(k - 1);
      assert Pow2(w) - Pow2(k) == 2 * m;
      assert (2 * m) / 2 == m && (2 * m) % 2 == 0;
      ModTwice(x, Pow2(k - 1));
      AndDouble(x, m);
    }
  }

  lemma AndDouble(x: nat, m: nat)
    ensures And(x, 2 * m) == 2 * And(x / 2, m)
  {
    if x > 0 && m > 0 {
      assert (2 * m) / 2 == m;
    }
  }

  /** `r` is the greatest multiple of `a` that is at most `size`. */
  predicate RoundedDown(r: int, size: int, a: int)
    requires a > 0
  {
    r % a == 0 && r <= size < r + a
  }

  /** `r` is the least multiple of `a` that is at least `size`. */
  predicate RoundedUp(r: int, size: int, a: int)
    requires a > 0
  {
    r % a == 0 && r - a < size <= r
  }

  lemma ExponentInWidth(k: nat, w: nat)
    requires Pow2(k) < Pow2(w)
    ensures k <= w
  {
    if k > w {
      PowMonotone(w, k);
    }
  }

  lemma {:induction false} PowMonotone(a: nat, b: nat)
    requires a <= b
    ensures Pow2(a) <= Pow2(b)
    decreases b
  {
    if a < b {
      PowMonotone(a, b - 1);
    }
  }

  lemma CutToMultiple(x: nat, a: nat)
    requires a > 0
    ensures (x - x % a) % a == 0
  {
    ModUnique(x - x % a, a, x / a, 0);
  }

  lemma AlignDownRounds(size: nat, alignment: nat, w: nat)
    requires size < Pow2(w) && 0 < alignment < Pow2(w) && IsPowerOfTwo(alignment)
    ensures RoundedDown(AlignDown(size, alignment, w), size, alignment)
  {
    var k := Exponent(alignment);
    ExponentInWidth(k, w);
    MaskClears(size, k, w);
    var r := AlignDown(size, alignment, w);
    assert r == size - size % alignment;
    CutToMultiple(size, alignment);
  }

  /** Rounding up is right exactly if the addition does not wrap around. */
  lemma AlignRoundsIff(size: nat, alignment: nat, w: nat)
    requires size < Pow2(w) && 0 < alignment < Pow2(w) && IsPowerOfTwo(alignment)
    ensures RoundedUp(Align(size, alignment, w), size, alignment) <==> size + alignment - 1 < Pow2(w)
  {
    var x := size + alignment - 1;
    if x < Pow2(w) {
      ModUnique(x, Pow2(w), 0, x);
      AlignDownRounds(x, alignment, w);
    } else {
      ModUnique(x, Pow2(w), 1, x - Pow2(w));
      AlignDownRounds(x - Pow2(w), alignment, w);
      assert Align(size, alignment, w) <= x - Pow2(w) < size;
    }
  }

  /** The largest word, rounded up to an even one, becomes zero: at every width of two bits or more. */
  lemma AlignWraps(w: nat)
    requires w > 1
    ensures 2 < Pow2(w) && IsPowerOfTwo(2)
    ensures Align(Pow2(w) - 1, 2, w) == 0 && !RoundedUp(0, Pow2(w) - 1, 2)
  {
    PowMonotone(2, w);
    PowerHasOneBit(1);
    ModUnique(Pow2(w), Pow2(w), 1, 0);
  }

  // ---------------------------------------------------------------- leading and trailing zeros

  /** _BitScanReverse: the index of the highest bit that is set. */
  function HighBit(x: nat): (r: nat)
    requires x > 0
    ensures Pow2(r) <= x < Pow2(r + 1)
  {
    if x == 1 then 0 else 1 + HighBit(x / 2)
  }

  /** _BitScanForward: the index of the lowest bit that is set. */
  function LowBit(x: nat): (r: nat)
    requires x > 0
  {
    if x % 2 == 1 then 0 else 1 + LowBit(x / 2)
  }

  /** Types of at most four bytes: the scan is done on 32 bits. */
  function LeadingZeros(x: nat, bits: nat): int {
    if x == 0 then bits else 31 - HighBit(x) - (32 - bits)
  }

  /** Eight bytes, with a 64-bit scan. */
  function LeadingZeros64(x: nat): int {
    if x == 0 then 64 else 63 - HighBit(x)
  }

  /** Eight bytes, where only 32-bit scans exist. */
  function LeadingZerosInHalves(x: nat): int {
    var left, right := x / 0x1_0000_0000, x % 0x1_0000_0000;
    if left != 0 then 31 - HighBit(left)
    else if right != 0 then 63 - HighBit(right)
    else 64
  }

  function TrailingZeros(x: nat, bits: nat): nat {
    if x == 0 then bits else LowBit(x)
  }

  function TrailingZerosInHalves(x: nat): nat {
    TrailingZerosOfHalves(x / 0x1_0000_0000, x % 0x1_0000_0000)
  }

  function TrailingZerosOfHalves(left: nat, right: nat): nat {
    if right != 0 then LowBit(right)
    else if left != 0 then 32 + LowBit(left)
    else 64
  }

  lemma HighBitUnique(x: nat, k: nat)
    requires x > 0 && Pow2(k) <= x < Pow2(k + 1)
    ensures HighBit(x) == k
  {
    if HighBit(x) < k {
      PowMonotone(HighBit(x) + 1, k);
    } else if k < HighBit(x) {
      PowMonotone(k + 1, HighBit(x));
    }
  }

  lemma {:induction false} HighBitShift(x: nat, k: nat)
    requires x / Pow2(k) > 0
    ensures x > 0 && HighBit(x) == HighBit(x / Pow2(k)) + k
  {
    if k > 0 {
      DivTwice(x, Pow2(k - 1));
      HighBitShift(x / 2, k - 1);
    }
  }

  lemma DivTwice(x: nat, m: nat)
    requires m > 0
    ensures x / (2 * m) == x / 2 / m
  {
    var q, r := x / 2 / m, x / 2 % m;
    ModTwice(x, m);
    assert x == 2 * (q * m + r) + x % 2;
    assert x == (x / (2 * m)) * (2 * m) + x % (2 * m);
    assert (x / (2 * m) - q) * (2 * m) == 0;
  }

  /** The count is k exactly if the k highest of the bits are zero and the next one is not. */
  lemma LeadingZerosIff(x: nat, bits: nat, k: nat)
    requires 0 < bits <= 32 && x < Pow2(bits) && k < bits
    ensures LeadingZeros(x, bits) == k <==> Pow2(bits - k - 1) <= x < Pow2(bits - k)
  {
    if Pow2(bits - k - 1) <= x < Pow2(bits - k) {
      HighBitUnique(x, bits - k - 1);
    }
  }

  /** Of zero, the counts are the width, in every form. */
  lemma ZeroCounts(bits: nat)
    ensures LeadingZeros(0, bits) == TrailingZeros(0, bits) == bits
    ensures LeadingZeros64(0) == LeadingZerosInHalves(0) == TrailingZerosInHalves(0) == 64
  {
  }

  lemma {:induction false} LowBitUnique(x: nat, k: nat)
    requires x > 0 && x % Pow2(k) == 0 && x / Pow2(k) % 2 == 1
    ensures LowBit(x) == k
    decreases k
  {
    if k > 0 {
      var m := Pow2(k - 1);
      ModTwice(x, m);
      DivTwice(x, m);
      LowBitUnique(x / 2, k - 1);
    }
  }

  /** The count is k exactly if the k lowest bits are zero and the next one is not. */
  lemma TrailingZerosIff(x: nat, bits: nat, k: nat)
    requires x > 0
    ensures TrailingZeros(x, bits) == k <==> x % Pow2(k) == 0 && x / Pow2(k) % 2 == 1
  {
    LowBitSpec(x);
    if x % Pow2(k) == 0 && x / Pow2(k) % 2 == 1 {
      LowBitUnique(x, k);
    }
  }

  /** 00100010 : the two zeros above the highest bit that is set are counted, not the zeros below it. */
  lemma LeadingZerosExample()
    ensures LeadingZeros(0x22, 8) == 2 && TrailingZeros(0x22, 8) == 1
  {
    assert HighBit(0x22) == 5 && LowBit(0x22) == 1;
  }

  lemma Powers()
    ensures Pow2(8) == 0x100 && Pow2(16) == 0x1_0000 && Pow2(32) == 0x1_0000_0000
  {
    assert Pow2(4) == 16;
    PowAdd(4, 4);
    PowAdd(8, 8);
    PowAdd(16, 16);
  }

  lemma {:induction false} PowAdd(a: nat, b: nat)
    ensures Pow2(a + b) == Pow2(a) * Pow2(b)
  {
    if a > 0 {
      PowAdd(a - 1, b);
    }
  }

  /** The two-half form counts the same as the 64-bit scan, for every word. */
  lemma LeadingHalvesAgree(x: nat)
    ensures LeadingZerosInHalves(x) == LeadingZeros64(x)
  {
    Powers();
    LeadingInParts(x, 32, 0x1_0000_0000);
  }

  /** A word cut at bit h: the upper part decides, if it has a bit at all. */
  lemma LeadingInParts(x: nat, h: nat, p: nat)
    requires p == Pow2(h)
    ensures x / p > 0 ==> HighBit(x) == h + HighBit(x / p)
    ensures x / p == 0 ==> x % p == x
  {
    if x / p > 0 {
      HighBitShift(x, h);
    } else {
      assert x == x / p * p + x % p;
    }
  }

  lemma LeadingZeros64Iff(x: nat, k: nat)
    requires x < Pow2(64) && k < 64
    ensures LeadingZeros64(x) == k <==> Pow2(63 - k) <= x < Pow2(64 - k)
  {
    if Pow2(63 - k) <= x < Pow2(64 - k) {
      HighBitUnique(x, 63 - k);
    }
  }

  lemma {:induction false} LowBitSpec(x: nat)
    requires x > 0
    ensures x % Pow2(LowBit(x)) == 0 && x / Pow2(LowBit(x)) % 2 == 1
  {
    if x % 2 == 0 {
      var m := Pow2(LowBit(x / 2));
      LowBitSpec(x / 2);
      ModTwice(x, m);
      DivTwice(x, m);
    }
  }

  lemma {:induction false} LowBitShift(y: nat, k: nat)
    requires y > 0
    ensures y * Pow2(k) > 0 && LowBit(y * Pow2(k)) == k + LowBit(y)
  {
    if k > 0 {
      LowBitShift(y, k - 1);
      MulDouble(y, Pow2(k - 1));
      LowBitDouble(y * Pow2(k - 1));
    }
  }

  lemma LowBitDouble(z: nat)
    requires z > 0
    ensures LowBit(2 * z) == 1 + LowBit(z)
  {
    assert (2 * z) % 2 == 0 && (2 * z) / 2 == z;
  }

  lemma LowBitAbove(z: nat, r: nat)
    requires r > 0
    ensures r % 2 == 1 ==> LowBit(2 * z + r) == LowBit(r) == 0
    ensures r % 2 == 0 ==> LowBit(2 * z + r) == 1 + LowBit(z + r / 2) && LowBit(r) == 1 + LowBit(r / 2)
  {
    if r % 2 == 0 {
      LowBitDouble(z + r / 2);
      LowBitDouble(r / 2);
    }
  }

  /** The lower part decides, if it has a bit at all. */
  lemma {:induction false} LowBitOfSum(q: nat, r: nat, k: nat)
    requires 0 < r < Pow2(k)
    ensures LowBit(q * Pow2(k) + r) == LowBit(r)
    decreases k
  {
    if k > 0 {
      var z := q * Pow2(k - 1);
      MulDouble(q, Pow2(k - 1));
      assert q * Pow2(k) == 2 * z;
      LowBitAbove(z, r);
      if r % 2 == 0 {
        LowBitOfSum(q, r / 2, k - 1);
      }
    }
  }

  lemma TrailingHalvesAgree(x: nat)
    ensures TrailingZerosInHalves(x) == TrailingZeros(x, 64)
  {
    var left, right := x / 0x1_0000_0000, x % 0x1_0000_0000;
    Powers();
    TrailingOfHalves(x, left, right);
  }

  lemma TrailingOfHalves(x: nat, left: nat, right: nat)
    requires Pow2(32) == 0x1_0000_0000
    requires x == left * 0x1_0000_0000 + right && right < 0x1_0000_0000
    ensures TrailingZerosOfHalves(left, right) == TrailingZeros(x, 64)
  {
    if x > 0 {
      TrailingInParts(x, left, right, 32);
    }
  }

  lemma TrailingInParts(x: nat, q: nat, r: nat, h: nat)
    requires x > 0 && x == q * Pow2(h) + r && r < Pow2(h)
    ensures r > 0 ==> LowBit(x) == LowBit(r)
    ensures r == 0 ==> q > 0 && LowBit(x) == h + LowBit(q)
  {
    if r > 0 {
      LowBitOfSum(q, r, h);
    } else {
      LowBitShift(q, h);
    }
  }

  // ---------------------------------------------------------------- logarithms

  function Log2Floor(n: nat): int {
    31 - LeadingZeros(n, 32)
  }

  function Log2Ceiling(n: nat): int {
    (if n != 0 then 32 else -1) - LeadingZeros((n - 1) % 0x1_0000_0000, 32)
  }

  /** The greatest i with 2^i <= n; of zero it is -1. */
  lemma Log2FloorBounds(n: nat)
    requires n < Pow2(32)
    ensures n == 0 ==> Log2Floor(n) == -1
    ensures n > 0 ==> 0 <= Log2Floor(n) < 32 && Pow2(Log2Floor(n)) <= n < Pow2(Log2Floor(n) + 1)
  {
    if n > 0 {
      if HighBit(n) >= 32 {
        PowMonotone(32, HighBit(n));
      }
    }
  }

  /** The wrapped predecessor that Log2Ceiling scans. */
  lemma Predecessor32(n: nat)
    requires n < 0x1_0000_0000
    ensures (n - 1) % 0x1_0000_0000 == if n == 0 then 0x1_0000_0000 - 1 else n - 1
  {
  }

  lemma CeilingOfPredecessor(n: nat, m: nat)
    requires m == (n - 1) % 0x1_0000_0000
    ensures Log2Ceiling(n) == (if n != 0 then 32 else -1) - LeadingZeros(m, 32)
  {
  }

  lemma AllOnesLeadingZeros(m: nat)
    requires m == Pow2(32) - 1
    ensures m > 0 && LeadingZeros(m, 32) == 0
  {
    PowMonotone(0, 31);
    HighBitUnique(m, 31);
  }

  lemma Log2CeilingOfZero(n: nat, m: nat)
    requires n == 0 && m == (n - 1) % 0x1_0000_0000
    ensures Log2Ceiling(n) == -1
  {
    Powers();
    Predecessor32(n);
    AllOnesLeadingZeros(m);
    CeilingOfPredecessor(n, m);
  }

  lemma Log2CeilingOfPositive(n: nat, m: nat)
    requires 0 < n < 0x1_0000_0000 && m == n - 1
    ensures 0 <= Log2Ceiling(n) <= 32 && n <= Pow2(Log2Ceiling(n))
    ensures n == 1 ==> Log2Ceiling(n) == 0
    ensures n > 1 ==> Log2Ceiling(n) > 0 && Pow2(Log2Ceiling(n) - 1) < n
  {
    Predecessor32(n);
    CeilingOfPredecessor(n, m);
    assert Log2Ceiling(n) == Log2Floor(m) + 1;
    assert m < Pow2(32) by {
      Powers();
    }
    Log2FloorBounds(m);
  }

  /** The least i with n <= 2^i; of zero it is -1. */
  lemma Log2CeilingBounds(n: nat)
    requires n < Pow2(32)
    ensures n == 0 ==> Log2Ceiling(n) == -1
    ensures n > 0 ==> 0 <= Log2Ceiling(n) <= 32 && n <= Pow2(Log2Ceiling(n))
    ensures n == 1 ==> Log2Ceiling(n) == 0
    ensures n > 1 ==> Log2Ceiling(n) > 0 && Pow2(Log2Ceiling(n) - 1) < n
  {
    if n == 0 {
      Log2CeilingOfZero(n, (n - 1) % 0x1_0000_0000);
    } else {
      Powers();
      Log2CeilingOfPositive(n, n - 1);
    }
  }
}
