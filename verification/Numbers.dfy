/**
 Sample values as the services compute with them: real numbers (rounding is not modelled), the
 two infinities and NaN, and the numbers that float32 bit patterns stand for.
 */
module Numbers {
  datatype Number = Finite(r: real) | Infinite(negative: bool) | NaN

  // ------------------------------------------------------------------------ arithmetic

  /** v * s */
  function ScaledBy(v: Number, s: real): Number {
    match v
    case Finite(r) => Finite(r * s)
    case Infinite(negative) => if s == 0.0 then NaN else Infinite(negative != (s < 0.0))
    case NaN => NaN
  }

  /** v + o */
  function ShiftedBy(v: Number, o: real): Number {
    if v.Finite? then Finite(v.r + o) else v
  }

  function Add(a: Number, b: Number): Number {
    if a.NaN? || b.NaN? || (a.Infinite? && b.Infinite? && a != b) then NaN
    else if a.Infinite? then a
    else ShiftedBy(b, a.r)
  }

  /** v / n */
  function DividedBy(v: Number, n: int): Number
    requires n > 0
  {
    if v.Finite? then Finite(v.r / n as real) else v
  }

  /** a < b; false if either is NaN. */
  predicate Less(a: Number, b: Number) {
    if a.NaN? || b.NaN? then false
    else if a.Infinite? then a.negative && a != b
    else if b.Infinite? then !b.negative
    else a.r < b.r
  }

  /** a <= b; false if either is NaN. */
  predicate AtMost(a: Number, b: Number) {
    Less(a, b) || (a == b && !a.NaN?)
  }

  /** Numbers are ordered strictly, between the two infinities; NaN is not comparable. */
  lemma LessIs(a: Number, b: Number)
    ensures Less(a, b) ==> a != b && !Less(b, a)
    ensures !a.NaN? && !b.NaN? ==> a == b || Less(a, b) || Less(b, a)
    ensures a.NaN? || b.NaN? ==> !Less(a, b)
    ensures a.Finite? && b.Finite? ==> (Less(a, b) <==> a.r < b.r)
    ensures a.Finite? ==> Less(Infinite(true), a) && Less(a, Infinite(false))
  {}

  lemma LessTransitive(a: Number, b: Number, c: Number)
    requires Less(a, b) && Less(b, c)
    ensures Less(a, c)
  {}

  // --------------------------------------------------------------------------- float32

  function Pow2(e: int): (p: real)
    ensures p > 0.0
    decreases if e < 0 then -e else e
  {
    if e == 0 then 1.0 else if e > 0 then 2.0 * Pow2(e - 1) else Pow2(e + 1) / 2.0
  }

  const FRACTIONS: int := 0x80_0000
  const INFINITY: int := 0x7F80_0000
  const SIGN: int := 0x8000_0000

  /** A pattern without its sign: exponent field and fraction. */
  function Magnitude(e: int, f: int): Number {
    if e == 255 then (if f == 0 then Infinite(false) else NaN)
    else if e == 0 then Finite(f as real * Pow2(-149))
    else Finite((FRACTIONS + f) as real * Pow2(e - 150))
  }

  function Negated(v: Number): Number {
    ScaledBy(v, -1.0)
  }

  /** What a 32-bit pattern stands for: sign, eight bits of exponent, 23 of fraction. */
  function FloatValue(bits: int): Number {
    var v := Magnitude(bits / FRACTIONS % 256, bits % FRACTIONS);
    if bits / SIGN % 2 == 1 then Negated(v) else v
  }

  lemma Parts(bits: int)
    requires 0 <= bits < SIGN
    ensures FloatValue(bits) == Magnitude(bits / FRACTIONS, bits % FRACTIONS)
  {}

  lemma TimesLess(a: int, b: int, p: real)
    requires a < b && p > 0.0
    ensures a as real * p < b as real * p
  {}

  /** The next larger pattern without sign stands for the next larger number. */
  lemma MagnitudeNext(e: int, f: int)
    requires 0 <= e < 255 && 0 <= f < FRACTIONS
    ensures Less(Magnitude(e, f), if f + 1 < FRACTIONS then Magnitude(e, f + 1) else Magnitude(e + 1, 0))
  {
    if f + 1 < FRACTIONS { NextFraction(e, f); } else { NextExponent(e); }
  }

  lemma NextFraction(e: int, f: int)
    requires 0 <= e < 255 && 0 <= f < FRACTIONS - 1
    ensures Less(Magnitude(e, f), Magnitude(e, f + 1))
  {
    if e == 0 { TimesLess(f, f + 1, Pow2(-149)); } else { TimesLess(FRACTIONS + f, FRACTIONS + (f + 1), Pow2(e - 150)); }
  }

  lemma NextExponent(e: int)
    requires 0 <= e < 255
    ensures Less(Magnitude(e, FRACTIONS - 1), Magnitude(e + 1, 0))
  {
    if e == 0 {
      TimesLess(FRACTIONS - 1, FRACTIONS, Pow2(-149));
    } else if e < 254 {
      TimesLess(FRACTIONS + (FRACTIONS - 1), 2 * FRACTIONS, Pow2(e - 150));
      Doubled(FRACTIONS, Pow2(e - 150), Pow2(e + 1 - 150));
    }
  }

  lemma Doubled(n: int, p: real, q: real)
    requires q == 2.0 * p
    ensures (2 * n) as real * p == n as real * q
  {}

  lemma FloatNext(bits: int)
    requires 0 <= bits < INFINITY
    ensures Less(FloatValue(bits), FloatValue(bits + 1))
  {
    var e, f := bits / FRACTIONS, bits % FRACTIONS;
    MagnitudeNext(e, f);
    Parts(bits);
    Parts(bits + 1);
    NextParts(bits);
  }

  lemma NextParts(bits: int)
    requires 0 <= bits < INFINITY
    ensures var e, f := bits / FRACTIONS, bits % FRACTIONS;
            && 0 <= e < 255 && 0 <= f < FRACTIONS
            && (bits + 1) / FRACTIONS == (if f + 1 < FRACTIONS then e else e + 1)
            && (bits + 1) % FRACTIONS == (if f + 1 < FRACTIONS then f + 1 else 0)
  {}

  /** Patterns without sign, up to the one of infinity, are ordered like the numbers they stand
      for, so no two of them stand for the same. */
  lemma {:induction false} FloatOrdered(a: int, b: int)
    requires 0 <= a < b <= INFINITY
    ensures Less(FloatValue(a), FloatValue(b))
    decreases b
  {
    FloatNext(b - 1);
    if a < b - 1 {
      FloatOrdered(a, b - 1);
      LessTransitive(FloatValue(a), FloatValue(b - 1), FloatValue(b));
    }
  }

  lemma {:induction false} Pow2Sum(e: int, k: nat)
    ensures Pow2(e + k) == Pow2(e) * Pow2(k)
  {
    if k > 0 {
      Pow2Sum(e, k - 1);
      assert Pow2(e + k) == 2.0 * Pow2(e + (k - 1));
      TwiceProduct(Pow2(e), Pow2(k - 1), Pow2(k));
    }
  }

  /** One is the pattern with exponent 127 and no fraction. */
  lemma FloatOne()
    ensures FloatValue(0x3F80_0000) == Finite(1.0)
  {
    Parts(0x3F80_0000);
    assert Pow2(4) == 16.0;
    Pow2Sum(4, 4);
    Pow2Sum(8, 8);
    Pow2Sum(16, 4);
    assert Pow2(3) == 8.0;
    Pow2Sum(20, 3);
    Pow2Sum(-23, 23);
    assert FRACTIONS as real == Pow2(23);
  }

  /** The next exponent doubles. */
  lemma FloatDoubles(e: int, f: int)
    requires 1 <= e < 254 && 0 <= f < FRACTIONS
    ensures FloatValue(e * FRACTIONS + f).Finite?
    ensures FloatValue((e + 1) * FRACTIONS + f) == Finite(2.0 * FloatValue(e * FRACTIONS + f).r)
  {
    FloatParts(e, f);
    FloatParts(e + 1, f);
    TwiceProduct((FRACTIONS + f) as real, Pow2(e - 150), Pow2(e + 1 - 150));
  }

  lemma TwiceProduct(a: real, p: real, q: real)
    requires q == 2.0 * p
    ensures a * q == 2.0 * (a * p)
  {}

  /** Between two exponents the numbers are evenly spaced, from the smaller power of two to the larger. */
  lemma FloatNormal(e: int, f: int)
    requires 1 <= e < 255 && 0 <= f < FRACTIONS
    ensures FloatValue(e * FRACTIONS + f).Finite? && FloatValue(e * FRACTIONS).Finite?
    ensures FloatValue(e * FRACTIONS + f).r * FRACTIONS as real == (FRACTIONS + f) as real * FloatValue(e * FRACTIONS).r
  {
    FloatParts(e, f);
    FloatParts(e, 0);
    Swap((FRACTIONS + f) as real, Pow2(e - 150), FRACTIONS as real);
  }

  /** Below the smallest of those they count up from zero in the same steps. */
  lemma FloatSubnormal(f: int)
    requires 0 <= f < FRACTIONS
    ensures FloatValue(f).Finite? && FloatValue(FRACTIONS).Finite?
    ensures FloatValue(f).r * FRACTIONS as real == f as real * FloatValue(FRACTIONS).r
  {
    FloatParts(0, f);
    FloatParts(1, 0);
    Swap(f as real, Pow2(-149), FRACTIONS as real);
  }

  lemma FloatParts(e: int, f: int)
    requires 0 <= e < 255 && 0 <= f < FRACTIONS
    ensures FloatValue(e * FRACTIONS + f) == Magnitude(e, f)
  {
    Parts(e * FRACTIONS + f);
    assert (e * FRACTIONS + f) / FRACTIONS == e && (e * FRACTIONS + f) % FRACTIONS == f;
  }

  lemma Swap(a: real, b: real, c: real)
    ensures a * b * c == a * (c * b)
  {}

  lemma SignBit(bits: int)
    requires 0 <= bits < SIGN
    ensures FloatValue(bits + SIGN) == Negated(FloatValue(bits)) && FloatValue(bits) == Magnitude(bits / FRACTIONS, bits % FRACTIONS)
  {
    assert (bits + SIGN) / FRACTIONS == bits / FRACTIONS + 256 && (bits + SIGN) % FRACTIONS == bits % FRACTIONS;
    Parts(bits);
  }

  lemma NegatedIs(v: Number)
    ensures Negated(v) == match v case Finite(r) => Finite(-r) case Infinite(negative) => Infinite(!negative) case NaN => NaN
  {}

  /** The sign bit negates; the patterns above infinity's are NaN. */
  lemma FloatSign(bits: int)
    requires 0 <= bits < SIGN
    ensures FloatValue(bits).Finite? ==> FloatValue(bits + SIGN) == Finite(-FloatValue(bits).r)
    ensures FloatValue(bits).Infinite? ==> FloatValue(bits) == Infinite(false) && FloatValue(bits + SIGN) == Infinite(true)
    ensures FloatValue(bits).NaN? ==> FloatValue(bits + SIGN).NaN?
    ensures FloatValue(bits).NaN? <==> bits > INFINITY
    ensures FloatValue(bits).Infinite? <==> bits == INFINITY
  {
    SignBit(bits);
    NegatedIs(FloatValue(bits));
    ExponentIs(bits);
  }

  lemma ExponentIs(bits: int)
    requires 0 <= bits < SIGN
    ensures 0 <= bits / FRACTIONS <= 255
    ensures bits / FRACTIONS == 255 && bits % FRACTIONS == 0 <==> bits == INFINITY
    ensures bits / FRACTIONS == 255 && bits % FRACTIONS > 0 <==> bits > INFINITY
  {}
}
