/**
 The PID gains sent to the truck: fixed-point numerators over a shared divisor
 (`PidParams::setF`) and their offset encoding (PropB_31).
 */
module PidParams {
  import opened Bytes
  import opened Options
  import opened TruckFrames

  const INT16_MAX: int := 32767
  const INT32_MAX: int := 2147483647

  /** Conversion to a signed 16-bit integer keeps the low 16 bits. */
  function Int16(v: int): (r: int)
    ensures -32768 <= r <= INT16_MAX
  {
    (v + 32768) % 65536 - 32768
  }

  predicate IsInt16(v: int) {
    -32768 <= v <= INT16_MAX
  }

  /** Rounding to the nearest integer, halves away from zero. */
  function Round(x: real): int {
    if x >= 0.0 then (x + 0.5).Floor else -((0.5 - x).Floor)
  }

  datatype Params = Params(kp: int, ki: int, kd: int, divisor: int)

  function Max3(p: real, i: real, d: real): (m: real)
    ensures m >= p && m >= i && m >= d && (m == p || m == i || m == d)
  {
    var m := if p < i then i else p;
    if m < d then d else m
  }

  /** None when a conversion to `int` overflows and throws. */
  method SetF(p: real, i: real, d: real) returns (r: Option<Params>)
    ensures p >= 0.0 && i >= 0.0 && d >= 0.0 ==> SetOutcome(p, i, d, r)
  {
    hide Approximates, LargestDivisor, Round, Trunc, Int16;
    var divisor;
    var max := Max3(p, i, d);
    if max != 0.0 {
      var div := Trunc(INT16_MAX as real / max);
      if div > INT32_MAX || div < -INT32_MAX - 1 {
        NotBelow(max);
        if max > 0.0 {
          OverflowIff(max);
        }
        return None;
      }
      divisor := Int16(if div < INT16_MAX then div else INT16_MAX);
      NotBelow(max);
      if max > 0.0 {
        OverflowIff(max);
      }
      Int16Is(if div < INT16_MAX then div else INT16_MAX);
    } else {
      divisor := INT16_MAX;
    }
    if p >= 0.0 && i >= 0.0 && d >= 0.0 {
      AllNumerators(p, i, d, divisor);
      DivisorLargest(max, divisor);
    }
    var kp, ki, kd := Round(p * divisor as real), Round(i * divisor as real), Round(d * divisor as real);
    if !IsInt32(kp) || !IsInt32(ki) || !IsInt32(kd) {
      return None;
    }
    Int16Is(kp); Int16Is(ki); Int16Is(kd);
    r := Some(Params(Int16(kp), Int16(ki), Int16(kd), divisor));
  }

  lemma Int16Is(v: int)
    ensures IsInt16(v) ==> Int16(v) == v
  {
  }

  lemma NotBelow(max: real)
    requires max != 0.0
    ensures max > 0.0 ==> Trunc(INT16_MAX as real / max) >= 0
  {
    if max > 0.0 {
      var q := INT16_MAX as real / max;
      assert q * max == INT16_MAX as real;
      if q < 0.0 {
        Monotone(q, 0.0, max);
      }
      TruncError(q);
    }
  }

  predicate IsInt32(v: int) {
    -INT32_MAX - 1 <= v <= INT32_MAX
  }

  predicate IsNumerator(k: int) {
    0 <= k <= INT16_MAX
  }

  /** The numerator is the gain times the divisor rounded to the nearest integer, halves up. */
  predicate Approximates(k: int, gain: real, divisor: int) {
    IsNumerator(k) && -0.5 < k as real - gain * divisor as real <= 0.5
  }

  /** No larger divisor up to 32767 keeps the largest numerator within 16 bits. */
  predicate LargestDivisor(max: real, divisor: int) {
    if max == 0.0 then divisor == 32767
    else FitsField(max, divisor) && (divisor == 32767 || !FitsField(max, divisor + 1))
  }

  /** The gain times the divisor fits a signed 16-bit field. */
  predicate FitsField(gain: real, divisor: int) {
    divisor as real * gain <= 32767.0
  }

  /** For non-negative gains: refused exactly when the largest, and not zero, times 2^31 is at most
      32767, so that the divisor overflows; with a largest gain up to 32767 the divisor is the largest
      possible and every numerator within half a step of its gain; beyond that the divisor, and with it
      every numerator, is zero. */
  predicate SetOutcome(p: real, i: real, d: real, r: Option<Params>) {
    var max := Max3(p, i, d);
    if max > 0.0 && 2147483648.0 * max <= 32767.0 then r == None
    else
      && r.Some?
      && if max <= 32767.0 then
           && 1 <= r.value.divisor <= 32767 && LargestDivisor(max, r.value.divisor)
           && Approximates(r.value.kp, p, r.value.divisor)
           && Approximates(r.value.ki, i, r.value.divisor)
           && Approximates(r.value.kd, d, r.value.divisor)
         else
           r.value == Params(0, 0, 0, 0)
  }

  lemma QuotientOrder(max: real, c: real)
    requires max > 0.0
    ensures c <= INT16_MAX as real / max <==> c * max <= 32767.0
  {
    var q := INT16_MAX as real / max;
    assert q * max == 32767.0;
    if c <= q {
      Monotone(c, q, max);
    } else {
      Strict(q, c, max);
    }
  }

  lemma TruncOrder(q: real, c: int)
    requires q >= 0.0 && c >= 1
    ensures Trunc(q) >= c <==> c as real <= q
  {
  }

  /** The truncated quotient is at least `c` exactly when `c` times the gain is at most 32767. */
  lemma QuotientIff(max: real, c: int)
    requires max > 0.0 && c >= 1
    ensures Trunc(INT16_MAX as real / max) >= c <==> FitsField(max, c)
  {
    QuotientOrder(max, 0.0);
    QuotientOrder(max, c as real);
    TruncOrder(INT16_MAX as real / max, c);
  }

  lemma OverflowIff(max: real)
    requires max > 0.0
    ensures Trunc(INT16_MAX as real / max) > INT32_MAX <==> 2147483648.0 * max <= 32767.0
  {
    hide Trunc;
    QuotientIff(max, 2147483648);
  }

  lemma DivisorLargest(max: real, divisor: int)
    requires max >= 0.0 && DivisorFor(max, divisor)
    ensures LargestDivisor(max, divisor)
  {
    if max > 0.0 {
      DivisorBound(max, divisor);
      assert FitsField(max, divisor);
      hide Trunc, FitsField;
      QuotientIff(max, divisor + 1);
    }
  }

  /** The divisor chosen for the largest gain `max`, before the overflow check. */
  predicate DivisorFor(max: real, divisor: int) {
    if max == 0.0 then divisor == INT16_MAX
    else
      var div := Trunc(INT16_MAX as real / max);
      divisor == if div < INT16_MAX then div else INT16_MAX
  }

  lemma DivisorBound(max: real, divisor: int)
    requires max > 0.0 && DivisorFor(max, divisor)
    ensures 0 <= divisor <= INT16_MAX && divisor as real * max <= INT16_MAX as real
    ensures max <= INT16_MAX as real <==> divisor >= 1
  {
    var q := INT16_MAX as real / max;
    assert q * max == INT16_MAX as real;
    TruncError(q);
    Monotone(divisor as real, q, max);
    if max <= INT16_MAX as real {
      if q < 1.0 {
        Strict(q, 1.0, max);
      }
    } else if q >= 1.0 {
      Monotone(1.0, q, max);
    }
  }

  lemma Monotone(a: real, b: real, k: real)
    requires a <= b && k >= 0.0
    ensures a * k <= b * k
  {
  }

  lemma Strict(a: real, b: real, k: real)
    requires a < b && k > 0.0
    ensures a * k < b * k
  {
  }

  lemma RoundError(x: real)
    requires 0.0 <= x
    ensures -0.5 < Round(x) as real - x <= 0.5 && Round(x) >= 0
    ensures x <= INT16_MAX as real ==> Round(x) <= INT16_MAX
  {
  }

  lemma Numerator(gain: real, max: real, divisor: int)
    requires 0.0 <= gain <= max && DivisorFor(max, divisor)
    ensures 0 <= divisor <= INT16_MAX
    ensures Approximates(Round(gain * divisor as real), gain, divisor) && IsNumerator(Round(gain * divisor as real))
    ensures divisor == 0 ==> Round(gain * divisor as real) == 0
  {
    if max > 0.0 {
      DivisorBound(max, divisor);
    }
    ProductRange(gain, max, divisor as real, INT16_MAX as real);
    RoundError(gain * divisor as real);
  }

  lemma ProductRange(g: real, m: real, k: real, bound: real)
    requires 0.0 <= g <= m && k >= 0.0 && bound >= 0.0 && (m > 0.0 ==> k * m <= bound)
    ensures 0.0 <= g * k <= bound
    ensures k == 0.0 ==> g * k == 0.0
  {
    if m > 0.0 {
      Monotone(g, m, k);
      assert m * k == k * m;
    }
  }

  lemma AllNumerators(p: real, i: real, d: real, divisor: int)
    requires p >= 0.0 && i >= 0.0 && d >= 0.0 && DivisorFor(Max3(p, i, d), divisor)
    ensures 0 <= divisor <= INT16_MAX
    ensures Max3(p, i, d) <= INT16_MAX as real <==> divisor >= 1
    ensures Approximates(Round(p * divisor as real), p, divisor) && IsNumerator(Round(p * divisor as real))
    ensures Approximates(Round(i * divisor as real), i, divisor) && IsNumerator(Round(i * divisor as real))
    ensures Approximates(Round(d * divisor as real), d, divisor) && IsNumerator(Round(d * divisor as real))
    ensures divisor == 0 ==> Round(p * divisor as real) == Round(i * divisor as real) == Round(d * divisor as real) == 0
  {
    hide Approximates, Round;
    var max := Max3(p, i, d);
    Numerator(p, max, divisor);
    Numerator(i, max, divisor);
    Numerator(d, max, divisor);
    if max > 0.0 {
      DivisorBound(max, divisor);
    }
  }

  // ----- PropB_31 ------------------------------------------------------------------------------------

  function Offset(v: int): int {
    (v + 32768) % 65536
  }

  function Unoffset(lo: byte, hi: byte): int {
    Int16(Int16(Word(hi, lo)) + 32768)
  }

  /** Adding the offset on the way out and again, not subtracting it, on the way in is the
      identity on every signed 16-bit value, because both conversions wrap. */
  lemma OffsetRoundTrip(v: int)
    requires IsInt16(v)
    ensures Unoffset(LowByte(Offset(v)), HighByte(Offset(v))) == v
  {
    hide LowByte, HighByte, Word;
    WordSplit(Offset(v));
    assert Offset(v) == v + 32768;
    DoubleOffset(v);
  }

  lemma DoubleOffset(v: int)
    requires IsInt16(v)
    ensures Int16(Int16(v + 32768) + 32768) == v
  {
    if v >= 0 {
      assert Int16(v + 32768) == v - 32768;
    } else {
      assert Int16(v + 32768) == v + 32768;
    }
  }

  predicate Int16s(p: Params) {
    IsInt16(p.kp) && IsInt16(p.ki) && IsInt16(p.kd) && IsInt16(p.divisor)
  }

  /** The eight bytes of the message: each field with its offset, low byte first. */
  function GainBytes(p: Params): (d: seq<byte>)
    ensures |d| == 8
  {
    [LowByte(Offset(p.kp)), HighByte(Offset(p.kp)), LowByte(Offset(p.ki)), HighByte(Offset(p.ki)),
     LowByte(Offset(p.kd)), HighByte(Offset(p.kd)), LowByte(Offset(p.divisor)), HighByte(Offset(p.divisor))]
  }

  /** Where each field is on the wire: two bytes, low byte first, holding the value plus 32768. */
  lemma GainPositions(p: Params)
    requires Int16s(p)
    ensures var d := GainBytes(p);
            && d[0] as int + 256 * d[1] as int == p.kp + 32768
            && d[2] as int + 256 * d[3] as int == p.ki + 32768
            && d[4] as int + 256 * d[5] as int == p.kd + 32768
            && d[6] as int + 256 * d[7] as int == p.divisor + 32768
  {
    hide LowByte, HighByte, Offset;
    OffsetOnWire(p.kp);
    OffsetOnWire(p.ki);
    OffsetOnWire(p.kd);
    OffsetOnWire(p.divisor);
  }

  lemma OffsetOnWire(v: int)
    requires IsInt16(v)
    ensures LowByte(Offset(v)) as int + 256 * HighByte(Offset(v)) as int == v + 32768
  {
    WordSplit(Offset(v));
    hide LowByte, HighByte;
    assert Offset(v) == v + 32768;
  }

  function GainsOf(d: seq<byte>): (p: Params)
    requires |d| == 8
    ensures Int16s(p)
  {
    Params(Unoffset(d[0], d[1]), Unoffset(d[2], d[3]), Unoffset(d[4], d[5]), Unoffset(d[6], d[7]))
  }

  /** The message in its two roles, sent and received. */
  class GainsMessage {
    var gains: Params

    constructor ()
      ensures gains == Params(0, 0, 0, 0)
    {
      gains := Params(0, 0, 0, 0);
    }

    method PackData() returns (data: seq<byte>)
      ensures data == GainBytes(gains)
    {
      var kp, ki, kd, divisor := Offset(gains.kp), Offset(gains.ki), Offset(gains.kd), Offset(gains.divisor);
      data := [LowByte(kp), HighByte(kp), LowByte(ki), HighByte(ki),
               LowByte(kd), HighByte(kd), LowByte(divisor), HighByte(divisor)];
    }

    method SetData(data: seq<byte>)
      requires |data| == 8
      modifies this
      ensures gains == GainsOf(data) && Int16s(gains)
    {
      gains := Params(Unoffset(data[0], data[1]), Unoffset(data[2], data[3]),
                      Unoffset(data[4], data[5]), Unoffset(data[6], data[7]));
    }
  }

  /** Setting a message from the eight bytes of a packed one gives back all four fields. */
  lemma GainsRoundTrip(p: Params)
    requires Int16s(p)
    ensures GainsOf(GainBytes(p)) == p
  {
    hide Offset, Unoffset, LowByte, HighByte;
    OffsetRoundTrip(p.kp);
    OffsetRoundTrip(p.ki);
    OffsetRoundTrip(p.kd);
    OffsetRoundTrip(p.divisor);
  }

  lemma OffsetOnto(lo: byte, hi: byte)
    ensures Offset(Unoffset(lo, hi)) == Word(hi, lo)
  {
    var w: int := Word(hi, lo);
    assert w < 32768 ==> Int16(w) == w;
    assert w >= 32768 ==> Int16(w) == w - 65536;
  }

  lemma SplitWord(lo: byte, hi: byte)
    ensures LowByte(Word(hi, lo)) == lo && HighByte(Word(hi, lo)) == hi
  {
  }

  /** Conversely every eight bytes are what packing the gains read from them gives, so a frame
      and its gains determine each other. */
  lemma FrameRoundTrip(d: seq<byte>)
    requires |d| == 8
    ensures GainBytes(GainsOf(d)) == d
  {
    hide Offset, Unoffset, LowByte, HighByte;
    OffsetOnto(d[0], d[1]);
    OffsetOnto(d[2], d[3]);
    OffsetOnto(d[4], d[5]);
    OffsetOnto(d[6], d[7]);
    SplitWord(d[0], d[1]);
    SplitWord(d[2], d[3]);
    SplitWord(d[4], d[5]);
    SplitWord(d[6], d[7]);
  }
}
