/**
 Absolute send time: a 24-bit stamp in units of 2^-18 seconds that wraps every 64 seconds. The C++
 expressions are written out with their widths: unsigned 32-bit subtraction and shift, a conversion to
 a signed 32-bit integer, an arithmetic shift back, and a division that truncates toward zero.
 */
module SendTime {
  const TWO_8: int := 0x100
  const TWO_18: int := 0x4_0000
  const TWO_23: int := 0x80_0000
  const TWO_24: int := 0x100_0000
  const TWO_31: int := 0x8000_0000
  const TWO_32: int := 0x1_0000_0000
  const MICROS: int := 1_000_000

  /** Division of C++ : toward zero. */
  function TruncDiv(a: int, b: int): int
    requires b > 0
  {
    if a >= 0 then a / b else -(-a / b)
  }

  function ToInt32(x: int): int {
    if x < TWO_31 then x else x - TWO_32
  }

  /** static_cast<int32_t>((current - previous) << 8) >> 8 */
  function SignedDelta(current: int, previous: int): int {
    ToInt32((current - previous) % TWO_32 * TWO_8 % TWO_32) / TWO_8
  }

  /** GetAbsoluteSendTimeDelta, in microseconds. */
  function SendTimeDelta(current: int, previous: int): int {
    TruncDiv(SignedDelta(current, previous) * MICROS, TWO_18)
  }

  /** GetAbsoluteSendTimestamp, in microseconds. */
  function SendTimestamp(stamp: int): int {
    TruncDiv(stamp * MICROS, TWO_18)
  }

  /** The stamp that is sent for a tick count. */
  function Stamp(tick: int): int {
    tick % TWO_24
  }

  // ---------------------------------------------------------------- one difference

  /** The difference of two stamps is their distance modulo 2^24, nearest to zero. */
  lemma SignedDeltaRange(current: int, previous: int)
    requires 0 <= current < TWO_24 && 0 <= previous < TWO_24
    ensures var d := SignedDelta(current, previous);
            && -TWO_23 <= d < TWO_23
            && (d == current - previous || d == current - previous + TWO_24 || d == current - previous - TWO_24)
  {
    var x := current - previous;
    var u := x % TWO_32;
    var s := u * TWO_8 % TWO_32;
    if x >= 0 {
      assert u == x;
      assert s == x * TWO_8;
    } else {
      assert u == x + TWO_32;
      assert u * TWO_8 == (x + TWO_24) * TWO_8 + 255 * TWO_32;
      assert s == (x + TWO_24) * TWO_8;
    }
  }

  lemma StampDifference(a: int, b: int) returns (k: int)
    ensures Stamp(b) - Stamp(a) == (b - a) + k * TWO_24
  {
    k := a / TWO_24 - b / TWO_24;
  }

  /** The stamps give the true difference exactly when it is at most half the range in size. */
  lemma DeltaExactIff(a: int, b: int)
    ensures SignedDelta(Stamp(b), Stamp(a)) == b - a <==> -TWO_23 <= b - a < TWO_23
  {
    SignedDeltaRange(Stamp(b), Stamp(a));
    var k := StampDifference(a, b);
  }

  /** A gap of half the range is taken for the same gap backwards. */
  lemma DeltaAtHalfRange(a: int)
    ensures SignedDelta(Stamp(a + TWO_23), Stamp(a)) == -TWO_23
  {
    SignedDeltaRange(Stamp(a + TWO_23), Stamp(a));
    var k := StampDifference(a, a + TWO_23);
  }

  /** Where the stamps do not wrap, subtracting timestamps gives the delta or one microsecond more. */
  lemma TimestampsAgree(a: int, b: int)
    requires 0 <= a <= b < TWO_24 && b - a < TWO_23
    ensures 0 <= SendTimestamp(b) - SendTimestamp(a) - SendTimeDelta(b, a) <= 1
  {
    SignedDeltaRange(b, a);
    var x, y := a * MICROS, (b - a) * MICROS;
    assert b * MICROS == x + y;
    assert x / TWO_18 + y / TWO_18 <= (x + y) / TWO_18 <= x / TWO_18 + y / TWO_18 + 1;
  }

  // ---------------------------------------------------------------- a whole stream

  ghost predicate SmallGaps(ticks: seq<int>) {
    forall i :: 0 < i < |ticks| ==> -TWO_23 <= ticks[i] - ticks[i - 1] < TWO_23
  }

  function SumOfDeltas(ticks: seq<int>): int {
    if |ticks| < 2 then 0
    else SumOfDeltas(ticks[..|ticks| - 1]) + SignedDelta(Stamp(ticks[|ticks| - 1]), Stamp(ticks[|ticks| - 2]))
  }

  function SumOfMicros(ticks: seq<int>): int {
    if |ticks| < 2 then 0
    else SumOfMicros(ticks[..|ticks| - 1]) + SendTimeDelta(Stamp(ticks[|ticks| - 1]), Stamp(ticks[|ticks| - 2]))
  }

  /** However long the stream and however often the stamps wrap, the deltas add up to the true time
      that has passed. */
  lemma {:induction false} DeltasTelescope(ticks: seq<int>)
    requires ticks != [] && SmallGaps(ticks)
    ensures SumOfDeltas(ticks) == ticks[|ticks| - 1] - ticks[0]
  {
    var n := |ticks|;
    if n > 1 {
      var init := ticks[..n - 1];
      assert SmallGaps(init);
      DeltasTelescope(init);
      DeltaExactIff(ticks[n - 2], ticks[n - 1]);
    }
  }

  /** The delta is cut toward zero to whole microseconds: a stamp step is 1_000_000 / 2^18 of one. */
  lemma DeltaTruncates(current: int, previous: int)
    ensures var d, r := SignedDelta(current, previous), SendTimeDelta(current, previous);
            && (d >= 0 ==> r >= 0 && 0 <= d * 1_000_000 - r * 0x4_0000 < 0x4_0000)
            && (d < 0 ==> r <= 0 && -0x4_0000 < d * 1_000_000 - r * 0x4_0000 <= 0)
  {
  }

  lemma TimestampTruncates(stamp: int)
    requires 0 <= stamp < TWO_24
    ensures SendTimestamp(stamp) * 0x4_0000 <= stamp * 1_000_000 < (SendTimestamp(stamp) + 1) * 0x4_0000
  {
  }

  /** Truncation and not rounding down: one step back is -3 microseconds. */
  lemma OneStepBack()
    ensures SendTimeDelta(0, 1) == -3 && SendTimeDelta(1, 0) == 3 && SendTimestamp(0) == 0
  {
  }

  /** Truncation loses less than one unit, in either direction. */
  lemma TruncationError(d: int)
    ensures -TWO_18 < TruncDiv(d * MICROS, TWO_18) * TWO_18 - d * MICROS < TWO_18
  {
  }

  /** The error of the summed microseconds, over n differences, is less than n microseconds. */
  lemma {:induction false} MicrosAddUp(ticks: seq<int>)
    requires |ticks| > 1 && SmallGaps(ticks)
    ensures var n := |ticks| - 1;
            var exact := (ticks[n] - ticks[0]) * MICROS;      // in units of 2^-18 microseconds
            -n * TWO_18 < SumOfMicros(ticks) * TWO_18 - exact < n * TWO_18
  {
    var n := |ticks| - 1;
    var init := ticks[..n];
    assert SmallGaps(init);
    var d := ticks[n] - ticks[n - 1];
    DeltaExactIff(ticks[n - 1], ticks[n]);
    TruncationError(d);
    if n > 1 {
      MicrosAddUp(init);
    } else {
      assert SumOfMicros(init) == 0;
    }
    assert SumOfMicros(ticks) == SumOfMicros(init) + TruncDiv(d * MICROS, TWO_18);
  }
}
