/**
 Big-endian integers of any byte width. An integer type is its width in bytes and whether it is signed;
 a value of it is a number in its range, and a conversion to it wraps in two's complement.
 */
module BigEndian {
  import Bits

  type Byte = x: int | 0 <= x < 256

  /** 256^n, the number of values of n bytes. */
  function Values(n: nat): (r: nat)
    ensures r > 0
  {
    if n == 0 then 1 else 256 * Values(n - 1)
  }

  /** The bits of a number in n bytes. */
  function Pattern(v: int, n: nat): nat {
    v % Values(n)
  }

  function Convert(v: int, n: nat, signed: bool): int {
    var u := Pattern(v, n);
    if signed && u >= Values(n) / 2 then u - Values(n) else u
  }

  predicate InRange(v: int, n: nat, signed: bool) {
    if signed then -(Values(n) / 2) <= v < Values(n) / 2 else 0 <= v < Values(n)
  }

  /** What a byte is worth as a char. */
  function CharValue(b: Byte, charSigned: bool): int {
    if charSigned && b >= 128 then b - 256 else b
  }

  function Or(x: nat, y: nat): nat {
    if x == 0 && y == 0 then 0
    else 2 * Or(x / 2, y / 2) + (if x % 2 == 1 || y % 2 == 1 then 1 else 0)
  }

  /** The base-256 number with these digits, the most significant first. */
  function FromBytes(s: seq<Byte>): nat {
    if |s| == 0 then 0 else 256 * FromBytes(s[..|s| - 1]) + s[|s| - 1]
  }

  function ToBytes(v: int, n: nat): (s: seq<Byte>)
    ensures |s| == n
    decreases n
  {
    if n == 0 then [] else ToBytes(v / 256, n - 1) + [v % 256]
  }

  // ---------------------------------------------------------------- wrap-around

  lemma AddMultiple(x: int, k: int, d: int)
    requires d > 0
    ensures (x + k * d) % d == x % d
  {
    var q := x / d;
    assert x + k * d == (q + k) * d + x % d;
    Bits.ModUnique(x + k * d, d, q + k, x % d);
  }

  lemma ModInRange(x: int, d: int)
    requires 0 <= x < d
    ensures x % d == x
  {
    Bits.ModUnique(x, d, 0, x);
  }

  lemma ConvertKeepsPattern(v: int, n: nat, signed: bool)
    ensures Pattern(Convert(v, n, signed), n) == Pattern(v, n)
  {
    var d, u := Values(n), Pattern(v, n);
    ModInRange(u, d);
    AddMultiple(u, -1, d);
  }

  /** A conversion depends on the bits alone. */
  lemma ConvertPattern(v: int, n: nat, signed: bool)
    ensures Convert(Pattern(v, n), n, signed) == Convert(v, n, signed)
  {
    ModInRange(Pattern(v, n), Values(n));
  }

  lemma ConvertTwice(v: int, n: nat, signed: bool)
    ensures Convert(Convert(v, n, signed), n, signed) == Convert(v, n, signed)
  {
    ConvertKeepsPattern(v, n, signed);
  }

  lemma ConvertInRange(v: int, n: nat, signed: bool)
    requires n > 0
    ensures InRange(Convert(v, n, signed), n, signed)
  {
    var u, d, h := Pattern(v, n), Values(n), 128 * Values(n - 1);
    assert d == 2 * h && 0 <= u < d;
    assert d / 2 == h;
  }

  lemma ConvertExactIff(v: int, n: nat, signed: bool)
    requires n > 0
    ensures Convert(v, n, signed) == v <==> InRange(v, n, signed)
  {
    ConvertInRange(v, n, signed);
    var d := Values(n);
    if 0 <= v < d {
      ModInRange(v, d);
    } else if -d <= v < 0 {
      Bits.ModUnique(v, d, -1, v + d);
    }
  }

  /** Scaling by 256 scales the remainder, one byte wider. */
  lemma ModScaled(x: int, m: nat, b: Byte)
    requires m > 0
    ensures (256 * x + b) % (256 * m) == 256 * (x % m) + b
  {
    var q := x / m;
    assert 256 * x + b == q * (256 * m) + (256 * (x % m) + b);
    Bits.ModUnique(256 * x + b, 256 * m, q, 256 * (x % m) + b);
  }

  lemma SameModScaled(x: int, y: int, b: Byte, n: nat)
    requires n > 0 && Pattern(x, n) == Pattern(y, n)
    ensures Pattern(256 * x + b, n) == Pattern(256 * y + b, n)
  {
    var d := Values(n);
    var k := x / d - y / d;
    assert x == y + k * d;
    assert 256 * x + b == (256 * y + b) + (256 * k) * d;
    AddMultiple(256 * y + b, 256 * k, d);
  }

  // ---------------------------------------------------------------- masks

  lemma {:induction false} OrBelow(h: nat, k: nat, b: nat)
    requires b < Bits.Pow2(k)
    ensures Or(h * Bits.Pow2(k), b) == h * Bits.Pow2(k) + b
  {
    if k == 0 {
      OrZero(h);
    } else {
      var z := h * Bits.Pow2(k - 1);
      Bits.MulDouble(h, Bits.Pow2(k - 1));
      OrBelow(h, k - 1, b / 2);
      assert (2 * z) / 2 == z && (2 * z) % 2 == 0;
    }
  }

  /** OR, bit by bit. */
  lemma {:induction false} OrBits(x: nat, y: nat, k: nat)
    ensures Bits.Bit(Or(x, y), k) <==> Bits.Bit(x, k) || Bits.Bit(y, k)
    decreases k
  {
    if x == 0 && y == 0 {
      Bits.NoBits(k);
    } else {
      OrHalf(x, y);
      if k == 0 {
        Bits.BitZero(x);
        Bits.BitZero(y);
        Bits.BitZero(Or(x, y));
      } else {
        OrBits(x / 2, y / 2, k - 1);
        Bits.BitShift(x, k);
        Bits.BitShift(y, k);
        Bits.BitShift(Or(x, y), k);
      }
    }
  }

  lemma OrHalf(x: nat, y: nat)
    requires x > 0 || y > 0
    ensures Or(x, y) / 2 == Or(x / 2, y / 2)
    ensures Or(x, y) % 2 == 1 <==> x % 2 == 1 || y % 2 == 1
  {
    Bits.HalfOf(Or(x / 2, y / 2), if x % 2 == 1 || y % 2 == 1 then 1 else 0);
  }

  lemma {:induction false} OrZero(x: nat)
    ensures Or(x, 0) == x
  {
    if x > 0 {
      OrZero(x / 2);
    }
  }

  lemma AndOdd(x: nat, m: nat)
    ensures Bits.And(x, 2 * m + 1) == 2 * Bits.And(x / 2, m) + x % 2
  {
    assert (2 * m + 1) / 2 == m && (2 * m + 1) % 2 == 1;
  }

  lemma {:induction false} MaskKeeps(x: nat, k: nat)
    ensures Bits.And(x, Bits.Pow2(k) - 1) == x % Bits.Pow2(k)
    decreases k
  {
    if k > 0 {
      var p := Bits.Pow2(k - 1);
      MaskKeeps(x / 2, k - 1);
      Bits.ModTwice(x, p);
      AndOdd(x, p - 1);
      assert Bits.Pow2(k) - 1 == 2 * (p - 1) + 1;
    }
  }

  lemma ModOfMod(x: int, m: nat)
    requires m > 0
    ensures x % (256 * m) % 256 == x % 256
  {
    ModScaled(x / 256, m, x % 256);
    var y := x / 256 % m;
    assert (256 * y + x % 256) % 256 == x % 256;
  }

  /** val & 0xFF is the lowest base-256 digit, of a negative number too. */
  lemma LowByte(v: int, n: nat)
    requires n > 0
    ensures Bits.And(Pattern(v, n), 0xFF) == v % 256
  {
    ModOfMod(v, Values(n - 1));
    Bits.Powers();
    MaskKeeps(Pattern(v, n), 8);
  }

  /** After the shift the low byte is zero, so the OR puts the new byte there. */
  lemma ShiftAndOr(x: int, n: nat, signed: bool, b: Byte)
    requires n > 0
    ensures Or(Pattern(Convert(256 * x, n, signed), n), b) == Pattern(256 * x + b, n)
  {
    var m := Values(n - 1);
    ConvertKeepsPattern(256 * x, n, signed);
    ModScaled(x, m, 0);
    ModScaled(x, m, b);
    Bits.Powers();
    OrBelow(x % m, 8, b);
  }

  // ---------------------------------------------------------------- the two loops

  /**
   The value read is the base-256 number of the bytes, converted to the type, whether char is signed or
   not: what the first byte's sign extension adds is a multiple of 256^i that moves up with every shift.
   */
  method ReadBigEndian(buf: array<Byte>, n: nat, signed: bool, charSigned: bool) returns (out: int)
    requires 0 < n <= buf.Length
    ensures out == Convert(FromBytes(buf[..n]), n, signed)
  {
    out := Convert(CharValue(buf[0], charSigned), n, signed);
    ghost var e := if charSigned && buf[0] >= 128 then 1 else 0;
    ConvertKeepsPattern(CharValue(buf[0], charSigned), n, signed);
    assert buf[..1] == [buf[0]];
    FirstByte(buf[0], charSigned);
    var i := 1;
    while i < n
      invariant 1 <= i <= n
      invariant Pattern(out, n) == Pattern(Extended(buf[..i], e), n)
      invariant out == Convert(out, n, signed)
    {
      ghost var was := out;
      out := Convert(out * 256, n, signed);
      out := Convert(Or(Pattern(out, n), buf[i]), n, signed);
      ReadStep(was, Extended(buf[..i], e), buf[i], n, signed);
      ExtendedStep(buf[..i], e, buf[i]);
      assert buf[..i + 1] == buf[..i] + [buf[i]];
      i := i + 1;
    }
    AddMultiple(FromBytes(buf[..n]), -e, Values(n));
    assert Pattern(out, n) == Pattern(FromBytes(buf[..n]), n);
  }

  /** The number read so far, when the sign extension of the first byte took `e` from the next digit. */
  ghost function Extended(s: seq<Byte>, e: int): int {
    FromBytes(s) - e * Values(|s|)
  }

  lemma FirstByte(b: Byte, charSigned: bool)
    ensures CharValue(b, charSigned) == Extended([b], if charSigned && b >= 128 then 1 else 0)
  {
    assert [b][..0] == [];
    assert FromBytes([b]) == b;
    assert Values(0) == 1;
    assert Values(|[b]|) == 256;
  }

  lemma ExtendedStep(s: seq<Byte>, e: int, b: Byte)
    ensures Extended(s + [b], e) == 256 * Extended(s, e) + b
  {
    assert (s + [b])[..|s|] == s;
    assert e * (256 * Values(|s|)) == 256 * (e * Values(|s|));
  }

  lemma ReadStep(was: int, x: int, b: Byte, n: nat, signed: bool)
    requires n > 0 && Pattern(was, n) == Pattern(x, n)
    ensures var out := Convert(Or(Pattern(Convert(was * 256, n, signed), n), b), n, signed);
            Pattern(out, n) == Pattern(256 * x + b, n) && out == Convert(out, n, signed)
  {
    var or := Or(Pattern(Convert(was * 256, n, signed), n), b);
    ShiftAndOr(was, n, signed, b);
    SameModScaled(was, x, b, n);
    ConvertKeepsPattern(or, n, signed);
    ConvertPattern(256 * x + b, n, signed);
    ConvertTwice(or, n, signed);
  }

  method WriteBigEndian(buf: array<Byte>, n: nat, value: int)
    requires n <= buf.Length
    modifies buf
    ensures buf[..n] == ToBytes(value, n)
    ensures buf[n..] == old(buf[n..])
  {
    var val := value;
    var i := 0;
    while i < n
      invariant 0 <= i <= n
      invariant ToBytes(value, n) == ToBytes(val, n - i) + buf[n - i..n]
      invariant buf[n..] == old(buf[n..])
    {
      LowByte(val, n);
      ghost var rest := buf[n - i..n];
      buf[n - i - 1] := Bits.And(Pattern(val, n), 0xFF);
      assert buf[n - i - 1..n] == [val % 256] + rest;
      val := val / 256;
      i := i + 1;
    }
  }

  // ---------------------------------------------------------------- round trips

  lemma {:induction false} DigitsOfValue(v: int, n: nat)
    ensures FromBytes(ToBytes(v, n)) == Pattern(v, n)
    decreases n
  {
    if n == 0 {
      Bits.ModUnique(v, 1, v, 0);
    } else {
      DigitsOfValue(v / 256, n - 1);
      var s := ToBytes(v, n);
      assert s[..n - 1] == ToBytes(v / 256, n - 1);
      ModScaled(v / 256, Values(n - 1), v % 256);
    }
  }

  lemma {:induction false} ValueOfDigits(s: seq<Byte>, x: int, k: int)
    requires x == FromBytes(s) + k * Values(|s|)
    ensures ToBytes(x, |s|) == s
  {
    if |s| > 0 {
      var front, b := s[..|s| - 1], s[|s| - 1];
      var y := FromBytes(front) + k * Values(|front|);
      assert x == 256 * y + b by {
        assert k * (256 * Values(|front|)) == 256 * (k * Values(|front|));
      }
      ValueOfDigits(front, y, k);
      assert x / 256 == y && x % 256 == b;
    }
  }

  /** Reading what was written gives the value back, for every value of the type. */
  lemma WriteThenRead(v: int, n: nat, signed: bool)
    requires n > 0
    ensures Convert(FromBytes(ToBytes(v, n)), n, signed) == v <==> InRange(v, n, signed)
  {
    DigitsOfValue(v, n);
    ConvertExactIff(v, n, signed);
    ConvertPattern(v, n, signed);
  }

  /** Writing what was read gives the bytes back. */
  lemma ReadThenWrite(s: seq<Byte>, signed: bool)
    ensures ToBytes(Convert(FromBytes(s), |s|, signed), |s|) == s
  {
    var x := FromBytes(s);
    var k := ConvertAddsMultiple(x, |s|, signed);
    ValueOfDigits(s, Convert(x, |s|, signed), k);
  }

  lemma ConvertAddsMultiple(v: int, n: nat, signed: bool) returns (k: int)
    ensures Convert(v, n, signed) == v + k * Values(n)
  {
    var d := Values(n);
    var q := v / d;
    assert v == q * d + Pattern(v, n);
    k := -q;
    if signed && Pattern(v, n) >= d / 2 {
      k := k - 1;
      assert k * d == -(q * d) - d;
    }
  }

  lemma DivScaled(v: int, m: nat)
    requires m > 0
    ensures v / (256 * m) == v / 256 / m
  {
    var x := v / 256;
    ModScaled(x, m, v % 256);
    assert v == 256 * (x / m * m + x % m) + v % 256;
    assert v == v / (256 * m) * (256 * m) + v % (256 * m);
    assert (v / (256 * m) - x / m) * (256 * m) == 0;
  }

  /** The byte at position k carries the digit of weight 256^(n-1-k): the most significant comes first. */
  lemma {:induction false} ByteAt(v: int, n: nat, k: nat)
    requires k < n
    ensures ToBytes(v, n)[k] == v / Values(n - 1 - k) % 256
    decreases n
  {
    if k < n - 1 {
      ByteAt(v / 256, n - 1, k);
      DivScaled(v, Values(n - 2 - k));
    }
  }
}
