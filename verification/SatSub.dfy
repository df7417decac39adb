/** satsub64be (d1_pkt.c): the saturating difference of two 64-bit big-endian numbers, one octet at a time. */
module SatSub {
  import opened Bytes

  /** The number an octet string holds, most significant octet first. */
  function Value(v: seq<byte>): nat {
    if v == [] then 0
    else
      var last: int := v[|v| - 1];
      256 * Value(v[..|v| - 1]) + last
  }

  const TOP: int := 0x100_0000_0000_0000

  function Clamp(d: int): int {
    if d > 128 then 128 else if d < -128 then -128 else d
  }

  /** `a >> 8` and `a & 0xff` on a two's complement integer */
  function Shr8(a: int): int { a / 256 }

  function Low8(a: int): (r: int)
    ensures 0 <= r < 256
  {
    a % 256
  }

  /** What the octet loop computes, as a function of the true difference. */
  function Saturated(d: int): int {
    var low, high := Low8(d), Shr8(d);
    if low < 128 then
      if high == 0 || high == -TOP then (if high < 0 then -256 else 0) + low
      else if high < 0 then -128 else 128
    else
      if high == -1 || high == TOP - 1 then (if high < 0 then -256 else 0) + low
      else if high < 0 then -128 else 128
  }

  /** Dividing once more: the octet taken out joins the remainder. */
  lemma Split(q6: int, pow: int, q: int, rem: int, q': int, b: int)
    requires pow > 0 && q6 == pow * q + rem && 0 <= rem < pow
    requires q == 256 * q' + b && 0 <= b < 256
    ensures q6 == (256 * pow) * q' + (pow * b + rem)
    ensures 0 <= pow * b + rem < 256 * pow
    ensures pow * b + rem == 0 <==> b == 0 && rem == 0
    ensures pow * b + rem == 256 * pow - 1 <==> b == 255 && rem == pow - 1
  {
    assert pow * (256 * q' + b) == (256 * pow) * q' + pow * b;
    if b <= 254 { assert pow * b <= pow * 254; }
    if b >= 1 { assert pow * b >= pow; }
    assert pow * 255 == 255 * pow;
  }

  /** One octet of the difference, with the borrow it leaves. */
  lemma ScanStep(v1: seq<byte>, v2: seq<byte>, i: nat, q6: int, pow: int, rem: int, brw: int)
    requires |v1| == 8 && |v2| == 8 && i <= 6 && -1 <= brw <= 0
    requires pow == Pow256(6 - i) && 0 <= rem < pow
    requires q6 == pow * (Value(v1[..i + 1]) - Value(v2[..i + 1]) + brw) + rem
    ensures var d := brw + (v1[i] as int - v2[i] as int);
            var b, rem' := Low8(d), pow * Low8(d) + rem;
            && -1 <= Shr8(d) <= 0 && 256 * pow == Pow256(7 - i)
            && q6 == (256 * pow) * (Value(v1[..i]) - Value(v2[..i]) + Shr8(d)) + rem'
            && 0 <= rem' < 256 * pow
            && (rem' == 0 <==> b == 0 && rem == 0)
            && (rem' == 256 * pow - 1 <==> b == 255 && rem == pow - 1)
  {
    var d := brw + (v1[i] as int - v2[i] as int);
    Top(v1, v2, i);
    Split(q6, pow, Value(v1[..i + 1]) - Value(v2[..i + 1]) + brw, rem,
          Value(v1[..i]) - Value(v2[..i]) + Shr8(d), Low8(d));
  }

  lemma OrIsZero(a: bv8, b: bv8)
    ensures a | b == 0 <==> a == 0 && b == 0
  {
  }

  /** sat |= x */
  method OrIn(sat: bv8, x: int) returns (r: bv8)
    requires 0 <= x < 256
    ensures r == 0 <==> sat == 0 && x == 0
  {
    OrIsZero(sat, x as bv8);
    r := sat | x as bv8;
  }

  /** The loop for a low octet of 128 or more: `sat` collects the complements. */
  method ScanForOnes(v1: seq<byte>, v2: seq<byte>, borrow: int) returns (brw: int, sat: bv8)
    requires |v1| == 8 && |v2| == 8 && -1 <= borrow <= 0
    ensures -1 <= brw <= 0
    ensures var rem := Value(v1[..7]) - Value(v2[..7]) + borrow - TOP * brw;
            0 <= rem < TOP && (sat == 0 <==> rem == TOP - 1)
  {
    brw, sat := borrow, 0;
    ghost var q6, pow, rem := Value(v1[..7]) - Value(v2[..7]) + borrow, 1, 0;
    var i := 6;
    while i >= 0
      invariant -1 <= i <= 6
      invariant pow == Pow256(6 - i) && 0 <= rem < pow
      invariant q6 == pow * (Value(v1[..i + 1]) - Value(v2[..i + 1]) + brw) + rem
      invariant -1 <= brw <= 0
      invariant sat == 0 <==> rem == pow - 1
    {
      ScanStep(v1, v2, i, q6, pow, rem, brw);
      brw := brw + (v1[i] as int - v2[i] as int);
      ghost var b := Low8(brw);
      sat := OrIn(sat, 255 - Low8(brw));
      brw := Shr8(brw);
      rem, pow := pow * b + rem, 256 * pow;
      i := i - 1;
    }
    assert v1[..0] == [] && v2[..0] == [] && pow == Pow256(7) == TOP;
  }

  /** The loop for a low octet below 128: `sat` collects the octets. */
  method ScanForZeros(v1: seq<byte>, v2: seq<byte>, borrow: int) returns (brw: int, sat: bv8)
    requires |v1| == 8 && |v2| == 8 && -1 <= borrow <= 0
    ensures -1 <= brw <= 0
    ensures var rem := Value(v1[..7]) - Value(v2[..7]) + borrow - TOP * brw;
            0 <= rem < TOP && (sat == 0 <==> rem == 0)
  {
    brw, sat := borrow, 0;
    ghost var q6, pow, rem := Value(v1[..7]) - Value(v2[..7]) + borrow, 1, 0;
    var i := 6;
    while i >= 0
      invariant -1 <= i <= 6
      invariant pow == Pow256(6 - i) && 0 <= rem < pow
      invariant q6 == pow * (Value(v1[..i + 1]) - Value(v2[..i + 1]) + brw) + rem
      invariant -1 <= brw <= 0
      invariant sat == 0 <==> rem == 0
    {
      ScanStep(v1, v2, i, q6, pow, rem, brw);
      brw := brw + (v1[i] as int - v2[i] as int);
      ghost var b := Low8(brw);
      sat := OrIn(sat, Low8(brw));
      brw := Shr8(brw);
      rem, pow := pow * b + rem, 256 * pow;
      i := i - 1;
    }
    assert v1[..0] == [] && v2[..0] == [] && pow == Pow256(7) == TOP;
  }

  method SatSub64be(v1: seq<byte>, v2: seq<byte>) returns (r: int)
    requires |v1| == 8 && |v2| == 8
    ensures r == Saturated(Value(v1) - Value(v2))
  {
    var ret := v1[7] as int - v2[7] as int;
    var brw, sat;
    LastOctet(v1, v2, ret);
    if Low8(ret) >= 128 {
      brw, sat := ScanForOnes(v1, v2, Shr8(ret));
    } else {
      brw, sat := ScanForZeros(v1, v2, Shr8(ret));
    }
    FromBorrow(Value(v1) - Value(v2), brw, sat != 0);
    // brw << 8 is 0 or -256; setting bit 7 of that gives 128 or -128
    brw := 256 * brw;
    r := if sat != 0 then brw + 128 else brw + Low8(ret);
  }

  /** The last borrow and the saturation flag give the result. */
  lemma FromBorrow(d: int, brw: int, sat: bool)
    requires -1 <= brw <= 0 && 0 <= Shr8(d) - TOP * brw < TOP
    requires sat <==> Shr8(d) - TOP * brw != if Low8(d) >= 128 then TOP - 1 else 0
    ensures Saturated(d) == if sat then 256 * brw + 128 else 256 * brw + Low8(d)
  {
  }

  /** The difference from that of the last octets and that of the rest */
  lemma LastOctet(v1: seq<byte>, v2: seq<byte>, ret: int)
    requires |v1| == 8 && |v2| == 8 && ret == v1[7] as int - v2[7] as int
    ensures var d := Value(v1) - Value(v2);
            && -256 <= ret < 256 && Low8(d) == Low8(ret)
            && Shr8(d) == Value(v1[..7]) - Value(v2[..7]) + Shr8(ret)
  {
    Top(v1, v2, 7);
    LowAndHigh(Value(v1[..7]) - Value(v2[..7]), ret);
  }

  lemma LowAndHigh(high: int, ret: int)
    ensures Low8(256 * high + ret) == Low8(ret)
    ensures Shr8(256 * high + ret) == high + Shr8(ret)
  {
  }

  /** Octet `i` of a difference, and what is above it. */
  lemma Top(v1: seq<byte>, v2: seq<byte>, i: nat)
    requires |v1| == 8 && |v2| == 8 && i < 8
    ensures Value(v1[..i + 1]) == 256 * Value(v1[..i]) + v1[i] as int
    ensures Value(v2[..i + 1]) == 256 * Value(v2[..i]) + v2[i] as int
    ensures v1[..8] == v1 && v2[..8] == v2
  {
    assert v1[..i + 1][..i] == v1[..i] && v2[..i + 1][..i] == v2[..i];
  }

  /**
   * For all 64-bit values the sign is right, the result is exact on [-128, 127], and beyond that its
   * magnitude is at least 128.
   */
  lemma SaturatedSign(d: int)
    requires -256 * TOP < d < 256 * TOP
    ensures -128 <= d <= 127 ==> Saturated(d) == d
    ensures d > 127 ==> 128 <= Saturated(d) <= 255
    ensures d < -128 ==> -256 < Saturated(d) <= -128
  {
    assert d == 256 * Shr8(d) + Low8(d);
  }

  /** It is the clamped difference except within 127 of the two ends of the 65-bit range. */
  lemma SaturatedIsClampIff(d: int)
    requires -256 * TOP < d < 256 * TOP
    ensures Saturated(d) == Clamp(d) <==> -(256 * TOP - 128) <= d <= 256 * TOP - 128
  {
    assert d == 256 * Shr8(d) + Low8(d);
  }

  /** The machine-word path: subtraction in 64-bit two's complement, then a clamp. */
  function Wrap64(d: int): (l: int)
    ensures -128 * TOP <= l < 128 * TOP
  {
    (d + 128 * TOP) % (256 * TOP) - 128 * TOP
  }

  function SatSubWord(v1: seq<byte>, v2: seq<byte>): int {
    Clamp(Wrap64(Wrap64(Value(v1)) - Wrap64(Value(v2))))
  }

  lemma {:induction false} ValueBound(v: seq<byte>)
    ensures Value(v) < Pow256(|v|)
  {
    if v != [] { ValueBound(v[..|v| - 1]); }
  }

  /** Leading zero octets do not count. */
  lemma {:induction false} ValueOfTail(v: seq<byte>, n: nat)
    requires n <= |v| && forall i :: 0 <= i < n ==> v[i] == 0
    ensures Value(v) == Value(v[n..])
  {
    if |v| > n {
      ValueOfTail(v[..|v| - 1], n);
      assert v[n..][..|v| - n - 1] == v[..|v| - 1][n..];
    } else if n > 0 {
      ValueOfTail(v[..n - 1], n - 1);
      assert v[..n - 1][n - 1..] == [];
    }
  }

  /** Numbers as read_sequence holds them: the two leading octets are zero, so the value is below 2^48. */
  predicate Is48(v: seq<byte>) {
    |v| == 8 && v[0] == 0 && v[1] == 0
  }

  lemma Value48(v: seq<byte>)
    requires Is48(v)
    ensures Value(v) < 0x1_0000_0000_0000
  {
    ValueOfTail(v, 2);
    ValueBound(v[2..]);
    assert Pow256(6) == 0x1_0000_0000_0000;
  }

  /** On 48-bit sequence numbers both paths give the difference clamped to [-128, 128]. */
  lemma PathsAgreeOnSequenceNumbers(v1: seq<byte>, v2: seq<byte>)
    requires Is48(v1) && Is48(v2)
    ensures Saturated(Value(v1) - Value(v2)) == Clamp(Value(v1) - Value(v2)) == SatSubWord(v1, v2)
  {
    Value48(v1);
    Value48(v2);
    SaturatedIsClampIff(Value(v1) - Value(v2));
    WrapSmall(Value(v1));
    WrapSmall(Value(v2));
    WrapSmall(Value(v1) - Value(v2));
  }

  lemma WrapSmall(d: int)
    requires -128 * TOP <= d < 128 * TOP
    ensures Wrap64(d) == d
  {
  }
}
