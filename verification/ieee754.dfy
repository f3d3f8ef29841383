/**
 * IEEE 754 single (binary32) and double (binary64) bit patterns, and the
 * conversion of a single to a double that happens when the reader assigns a
 * four-byte real or date to a `double`. The conversion is exact: every
 * single is a double, so only the fields are re-laid out (a subnormal single
 * becomes a normal double, and a NaN is made quiet).
 */
module Ieee754 {
  import opened Bytes

  /**
   * What a bit pattern stands for: the finite number
   * `(-1)^negative * significand * 2^exponent`, an infinity, or not a number.
   */
  datatype FloatValue =
    | Finite(negative: bool, significand: nat, exponent: int)
    | Infinite(negative: bool)
    | NotANumber

  /** The value of a single: sign bit 31, exponent bits 30-23, fraction bits 22-0. */
  function SingleValue(u: nat): FloatValue
    requires u < 0x1_0000_0000
  {
    var negative, e, f := u >= 0x8000_0000, (u / 0x80_0000) % 0x100, u % 0x80_0000;
    if e == 0xFF then (if f == 0 then Infinite(negative) else NotANumber)
    else if e == 0 then Finite(negative, f, -149)
    else Finite(negative, 0x80_0000 + f, e - 150)
  }

  /** The value of a double: sign bit 63, exponent bits 62-52, fraction bits 51-0. */
  function DoubleValue(d: nat): FloatValue
    requires d < 0x1_0000_0000_0000_0000
  {
    var negative, e, m := d >= 0x8000_0000_0000_0000, (d / 0x10_0000_0000_0000) % 0x800, d % 0x10_0000_0000_0000;
    if e == 0x7FF then (if m == 0 then Infinite(negative) else NotANumber)
    else if e == 0 then Finite(negative, m, -1074)
    else Finite(negative, 0x10_0000_0000_0000 + m, e - 1075)
  }

  /**
   * Two values are the same number: both not a number, infinities of the
   * same sign, or finite values of the same sign and the same magnitude
   * (the significands scaled to a common exponent agree).
   */
  predicate SameValue(a: FloatValue, b: FloatValue) {
    match (a, b)
    case (NotANumber, NotANumber) => true
    case (Infinite(n1), Infinite(n2)) => n1 == n2
    case (Finite(n1, s1, e1), Finite(n2, s2, e2)) =>
      n1 == n2 && if e1 <= e2 then s1 == s2 * Pow2(e2 - e1) else s1 * Pow2(e1 - e2) == s2
    case _ => false
  }

  /** The double with sign bit `s`, exponent field `e` and fraction field `m`. */
  function Compose(s: nat, e: nat, m: nat): (d: nat)
    requires s < 2 && e < 0x800 && m < 0x10_0000_0000_0000
    ensures d < 0x1_0000_0000_0000_0000
    ensures d >= 0x8000_0000_0000_0000 <==> s == 1
    ensures (d / 0x10_0000_0000_0000) % 0x800 == e && d % 0x10_0000_0000_0000 == m
  {
    var d := s * 0x8000_0000_0000_0000 + e * 0x10_0000_0000_0000 + m;
    assert d / 0x10_0000_0000_0000 == s * 0x800 + e;
    d
  }

  /** The left shift that moves the leading one of a subnormal fraction to bit 23. */
  function NormShift(f: nat): (k: nat)
    requires 0 < f < 0x80_0000
    ensures 1 <= k <= 23 && 0x80_0000 <= f * Pow2(k) < 0x100_0000
    decreases 0x80_0000 - f
  {
    if f >= 0x40_0000 then
      assert Pow2(1) == 2;
      1
    else
      var k := NormShift(2 * f);
      DoubleShift(f, k);
      1 + k
  }

  /** One more shift doubles the shifted fraction; and a shift of 23 already leaves bit 23. */
  lemma DoubleShift(f: nat, k: nat)
    requires 0 < f
    ensures f * Pow2(1 + k) == (2 * f) * Pow2(k)
    ensures k >= 23 ==> (2 * f) * Pow2(k) >= 0x100_0000
  {
    var p := Pow2(k);
    assert Pow2(1 + k) == 2 * p;
    MulRotate(f, 2, p);
    if k >= 23 {
      Powers();
      Pow2Add(23, k - 23);
      MulRotate(2 * f, 0x80_0000, Pow2(k - 23));
    }
  }

  /** The double bit pattern of the single `u`, field by field. */
  function WidenBits(u: nat): (d: nat)
    requires u < 0x1_0000_0000
    ensures d < 0x1_0000_0000_0000_0000
  {
    var s, e, f := u / 0x8000_0000, (u / 0x80_0000) % 0x100, u % 0x80_0000;
    if e == 0xFF then
      // an infinity stays one; a NaN keeps its payload and gets the quiet bit
      Compose(s, 0x7FF, (if f == 0 || f >= 0x40_0000 then f else f + 0x40_0000) * 0x2000_0000)
    else if e == 0 && f == 0 then Compose(s, 0, 0)
    else if e == 0 then
      var k := NormShift(f);
      Compose(s, 897 - k, (f * Pow2(k) - 0x80_0000) * 0x2000_0000)
    else Compose(s, e + 896, f * 0x2000_0000)
  }

  /** The powers of two the field shifts use. */
  lemma Powers()
    ensures Pow2(23) == 0x80_0000 && Pow2(29) == 0x2000_0000
  {
    assert Pow2(8) == 0x100;
    assert Pow2(16) == 0x1_0000;
    assert Pow2(23) == 0x80_0000;
  }

  lemma {:induction false} Pow2Add(a: nat, b: nat)
    ensures Pow2(a + b) == Pow2(a) * Pow2(b)
  {
    if a > 0 {
      Pow2Add(a - 1, b);
    }
  }

  /** Widening keeps the sign bit and the value: NaN stays NaN, an infinity the same infinity, a number the same number. */
  lemma WidenIsExact(u: nat)
    requires u < 0x1_0000_0000
    ensures SameValue(SingleValue(u), DoubleValue(WidenBits(u)))
    ensures WidenBits(u) >= 0x8000_0000_0000_0000 <==> u >= 0x8000_0000
  {
    var e, f := (u / 0x80_0000) % 0x100, u % 0x80_0000;
    if e == 0 && f != 0 {
      SubnormalWidens(u);
    } else if e != 0 && e != 0xFF {
      NormalWidens(u);
    }
  }

  /** A normal single: the exponent is rebiased by 1023 - 127 = 896 and the fraction moves up 29 bits. */
  lemma NormalWidens(u: nat)
    requires u < 0x1_0000_0000
    requires 0 < (u / 0x80_0000) % 0x100 < 0xFF
    ensures SameValue(SingleValue(u), DoubleValue(WidenBits(u)))
  {
    var e, f := (u / 0x80_0000) % 0x100, u % 0x80_0000;
    var d := WidenBits(u);
    assert DoubleValue(d) == Finite(u >= 0x8000_0000, 0x10_0000_0000_0000 + f * 0x2000_0000, e - 179);
    Powers();
  }

  /** A subnormal single becomes a normal double. */
  lemma SubnormalWidens(u: nat)
    requires u < 0x1_0000_0000
    requires (u / 0x80_0000) % 0x100 == 0 && u % 0x80_0000 != 0
    ensures SameValue(SingleValue(u), DoubleValue(WidenBits(u)))
  {
    var f := u % 0x80_0000;
    var k := NormShift(f);
    var d := WidenBits(u);
    assert DoubleValue(d) == Finite(u >= 0x8000_0000, 0x10_0000_0000_0000 + (f * Pow2(k) - 0x80_0000) * 0x2000_0000, -178 - (k as int));
    SubnormalIsExact(f);
  }

  /**
   * A subnormal single `f * 2^-149` is the normal double whose significand
   * `2^52 + M` is `f * 2^(29 + k)` and whose exponent is `-178 - k`.
   */
  lemma SubnormalIsExact(f: nat)
    requires 0 < f < 0x80_0000
    ensures var k := NormShift(f);
      0x10_0000_0000_0000 + (f * Pow2(k) - 0x80_0000) * 0x2000_0000 == f * Pow2(29 + k)
  {
    var k := NormShift(f);
    Powers();
    Pow2Add(29, k);
    MulRotate(f, 0x2000_0000, Pow2(k));
  }

  lemma MulRotate(a: int, b: int, c: int)
    ensures a * (b * c) == (a * c) * b
  {
  }

  /** The eight bytes of a double's bit pattern, most significant first. */
  function DoubleBytes(d: nat): (s: seq<Byte>)
    requires d < 0x1_0000_0000_0000_0000
    ensures |s| == 8
  {
    var q1 := d / 0x100;
    var q2 := q1 / 0x100;
    var q3 := q2 / 0x100;
    var q4 := q3 / 0x100;
    var q5 := q4 / 0x100;
    var q6 := q5 / 0x100;
    var q7 := q6 / 0x100;
    [q7, q6 % 0x100, q5 % 0x100, q4 % 0x100, q3 % 0x100, q2 % 0x100, q1 % 0x100, d % 0x100]
  }

  /** They are the big-endian encoding of the pattern, so they read back as it. */
  lemma DoubleBytesValue(d: nat)
    requires d < 0x1_0000_0000_0000_0000
    ensures Pow256(8) == 0x1_0000_0000_0000_0000
    ensures DoubleBytes(d) == BeEncode(d, 8) && BeValue(DoubleBytes(d)) == d
  {
    assert Pow256(7) == 0x100_0000_0000_0000;
    var q1 := d / 0x100;
    var q2 := q1 / 0x100;
    var q3 := q2 / 0x100;
    var q4 := q3 / 0x100;
    var q5 := q4 / 0x100;
    var q6 := q5 / 0x100;
    var q7 := q6 / 0x100;
    assert BeEncode(q7, 1) == [q7];
    assert BeEncode(q6, 2) == [q7, q6 % 0x100];
    assert BeEncode(q5, 3) == [q7, q6 % 0x100, q5 % 0x100];
    assert BeEncode(q4, 4) == [q7, q6 % 0x100, q5 % 0x100, q4 % 0x100];
    assert BeEncode(q3, 5) == [q7, q6 % 0x100, q5 % 0x100, q4 % 0x100, q3 % 0x100];
    assert BeEncode(q2, 6) == [q7, q6 % 0x100, q5 % 0x100, q4 % 0x100, q3 % 0x100, q2 % 0x100];
    assert BeEncode(q1, 7) == [q7, q6 % 0x100, q5 % 0x100, q4 % 0x100, q3 % 0x100, q2 % 0x100, q1 % 0x100];
  }

  /** The eight bytes of the double that the four bytes of a single stand for. */
  function Widen(single: seq<Byte>): (double: seq<Byte>)
    requires |single| == 4
    ensures |double| == 8
  {
    SingleBound(single);
    DoubleBytes(WidenBits(BeValue(single)))
  }

  lemma SingleBound(single: seq<Byte>)
    requires |single| == 4
    ensures BeValue(single) < 0x1_0000_0000
  {
    assert Pow256(4) == 0x1_0000_0000;
  }

  /** The eight bytes `Widen` gives stand for the same value as the four it was given, with the same sign. */
  lemma WidenKeepsValue(single: seq<Byte>)
    requires |single| == 4
    ensures BeValue(single) < 0x1_0000_0000 && BeValue(Widen(single)) < 0x1_0000_0000_0000_0000
    ensures SameValue(SingleValue(BeValue(single)), DoubleValue(BeValue(Widen(single))))
    ensures BeValue(Widen(single)) >= 0x8000_0000_0000_0000 <==> BeValue(single) >= 0x8000_0000
  {
    SingleBound(single);
    WidenIsExact(BeValue(single));
    DoubleBytesValue(WidenBits(BeValue(single)));
  }

  /** Examples: 1.0, -2.5, the subnormal 2^-127 and negative infinity. */
  lemma WidenExamples()
    ensures WidenBits(0x3F80_0000) == 0x3FF0_0000_0000_0000
    ensures WidenBits(0xC020_0000) == 0xC004_0000_0000_0000
    ensures WidenBits(0x0040_0000) == 0x3800_0000_0000_0000
    ensures WidenBits(0xFF80_0000) == 0xFFF0_0000_0000_0000
  {
    assert (0x3F80_0000 / 0x80_0000) % 0x100 == 0x7F && 0x3F80_0000 % 0x80_0000 == 0;
    assert (0xC020_0000 / 0x80_0000) % 0x100 == 0x80 && 0xC020_0000 % 0x80_0000 == 0x20_0000;
    assert (0x0040_0000 / 0x80_0000) % 0x100 == 0 && 0x0040_0000 % 0x80_0000 == 0x40_0000;
    assert NormShift(0x40_0000) == 1;
    assert (0xFF80_0000 / 0x80_0000) % 0x100 == 0xFF && 0xFF80_0000 % 0x80_0000 == 0;
  }
}
