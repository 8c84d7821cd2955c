/** The -20 RationalNumber conversion (src/secc_iso20.c), over exact reals instead of C doubles. */
module Rational {

  const MAX_MANTISSA: int := 32767
  const MAX_EXPONENT: int := 127
  const MIN_EXPONENT: int := -3

  // ---- powers of ten ----

  function Power(n: nat): real { if n == 0 then 1.0 else 10.0 * Power(n - 1) }

  /** Ten to any integer power. */
  function Ten(k: int): real {
    PowerPositive(if k >= 0 then k else -k);
    if k >= 0 then Power(k) else 1.0 / Power(-k)
  }

  lemma PowerPositive(n: nat)
    ensures Power(n) >= 1.0
  {
  }

  lemma TenStep(k: int)
    ensures Ten(k + 1) == 10.0 * Ten(k) && Ten(k) > 0.0
  {
    PowerPositive(if k >= 0 then k else -k);
    if k < 0 {
      PowerPositive(-k - 1);
      assert Power(-k) == 10.0 * Power(-k - 1);
    }
  }

  lemma {:induction false} TenAdd(a: int, b: nat)
    ensures Ten(a + b) == Ten(a) * Ten(b)
  {
    if b > 0 {
      TenAdd(a, b - 1);
      TenStep(a + b - 1);
      TenStep(b - 1);
      calc {
        Ten(a + b);
        10.0 * (Ten(a) * Ten(b - 1));
        Ten(a) * (10.0 * Ten(b - 1));
      }
    }
  }

  lemma {:induction false} TenMonotone(a: int, b: int)
    requires a <= b
    ensures 0.0 < Ten(a) <= Ten(b)
    decreases b - a
  {
    TenStep(a);
    if a < b { TenMonotone(a + 1, b); }
  }

  lemma TenInverse(k: int)
    ensures Ten(k) * Ten(-k) == 1.0
  {
    if k >= 0 { TenAdd(-k, k); } else { TenAdd(k, -k); }
  }

  // ---- rounding ----

  function Abs(x: real): real { if x < 0.0 then -x else x }

  /** s20_lround: half away from zero, by truncation. */
  function Round(v: real): int {
    if v >= 0.0 then (v + 0.5).Floor else -((-v + 0.5).Floor)
  }

  lemma RoundIsNearest(v: real)
    ensures Abs(v - Round(v) as real) <= 0.5
    ensures Abs(v) <= 32767.0 ==> -MAX_MANTISSA <= Round(v) <= MAX_MANTISSA
  {
  }

  lemma RoundOfInteger(n: int)
    ensures Round(n as real) == n
  {
  }

  function Clamp(m: int): int {
    if m > MAX_MANTISSA then MAX_MANTISSA else if m < -MAX_MANTISSA then -MAX_MANTISSA else m
  }

  /** Close enough to an integer for the scaling-up loop to stop. */
  predicate Near(v: real) { Abs(v - Round(v) as real) <= 0.000001 * (Abs(v) + 1.0) }

  // ---- what the conversion delivers ----

  /** x in units of ten to the e. */
  function Shift(x: real, e: int): real { x * Ten(-e) }

  /** The value a RationalNumber stands for. */
  function Value(e: int, m: int): real { m as real * Ten(e) }

  lemma ShiftStep(x: real, e: int)
    ensures Shift(x, e) / 10.0 == Shift(x, e + 1)
    ensures Shift(x, e) * 10.0 == Shift(x, e - 1)
  {
    TenStep(-e - 1);
    TenStep(-e);
    hide Ten;
    assert -(e + 1) == -e - 1 && -(e - 1) == -e + 1;
    Tenfold(x, Ten(-e - 1), Ten(-e));
    Tenfold(x, Ten(-e), Ten(-e + 1));
  }

  lemma Tenfold(x: real, t: real, u: real)
    requires u == 10.0 * t
    ensures x * u / 10.0 == x * t && x * t * 10.0 == x * u
  {
    assert x * u == 10.0 * (x * t);
  }

  lemma ShiftValue(x: real, e: int)
    ensures Shift(x, e) * Ten(e) == x
  {
    TenInverse(e);
    assert Shift(x, e) * Ten(e) == x * (Ten(-e) * Ten(e));
  }

  /** A product with a positive factor. */
  lemma AbsTimes(x: real, t: real, y: real)
    requires t > 0.0 && y == x * t
    ensures Abs(y) == Abs(x) * t
  {
    if x < 0.0 { assert x * t < 0.0; assert -(x * t) == (-x) * t; } else { assert x * t >= 0.0; }
  }

  lemma ScaleBoth(a: real, b: real, t: real)
    requires t > 0.0
    ensures a <= b <==> a * t <= b * t
  {
    if a <= b { assert (b - a) * t >= 0.0; } else { assert (a - b) * t > 0.0; }
  }

  /** The mantissa bound, seen from the unscaled number. */
  lemma FitsExactly(x: real, e: int)
    ensures Ten(e) > 0.0
    ensures Abs(Shift(x, e)) <= 32767.0 <==> Abs(x) <= 32767.0 * Ten(e)
  {
    hide Ten, Abs;
    ShiftValue(x, e);
    TenStep(e);
    AbsTimes(Shift(x, e), Ten(e), x);
    ScaleBoth(Abs(Shift(x, e)), 32767.0, Ten(e));
  }

  lemma ShiftOfValue(e: int, m: int, k: int)
    requires k <= e
    ensures Shift(Value(e, m), k) == m as real * Ten(e - k)
  {
    hide Ten;
    TenAdd(k, e - k);
    TenInverse(k);
    calc {
      Shift(Value(e, m), k);
      m as real * Ten(e) * Ten(-k);
      m as real * (Ten(k) * Ten(e - k)) * Ten(-k);
      m as real * Ten(e - k) * (Ten(k) * Ten(-k));
    }
  }

  lemma ShiftToOwn(e: int, m: int)
    ensures Shift(Value(e, m), e) == m as real
  {
    assert Ten(0) == 1.0;
    hide Ten, Shift, Value;
    ShiftOfValue(e, m, e);
  }

  lemma MantissaFits(m: int)
    requires -MAX_MANTISSA <= m <= MAX_MANTISSA
    ensures Abs(m as real) <= 32767.0
  {
  }

  lemma ExactFits(e: int, m: int)
    requires -MAX_MANTISSA <= m <= MAX_MANTISSA
    ensures Abs(Value(e, m)) <= 32767.0 * Ten(e)
  {
    hide Ten, Shift, Value, Abs;
    ShiftToOwn(e, m);
    MantissaFits(m);
    FitsExactly(Value(e, m), e);
  }

  /** Everything the two loops and the final rounding promise: the least exponent that fits, raised only for
      size, lowered only while that buys exactness. */
  ghost predicate IsEncoding(x: real, e: int, m: int) {
    && MIN_EXPONENT <= e <= MAX_EXPONENT
    && m == Clamp(Round(Shift(x, e)))
    && (e > 0 ==> Abs(Shift(x, e - 1)) > 32767.0)
    && (e < MAX_EXPONENT ==> Abs(Shift(x, e)) <= 32767.0)
    && (forall j :: e < j <= 0 ==> !Near(Shift(x, j)))
    && (e > MIN_EXPONENT ==> Near(Shift(x, e)) || Abs(Shift(x, e)) * 10.0 > 32767.0)
  }

  /** jpv2g_secc20_rat_from_float. */
  method FromReal(value: real) returns (e: int, m: int)
    ensures IsEncoding(value, e, m)
  {
    e, m := 0, 0;
    var v := value;
    assert Shift(value, 0) == value;
    if v == 0.0 { return; }
    var mag := Abs(v);
    while mag > 32767.0 && e < 127
      invariant 0 <= e <= MAX_EXPONENT
      invariant v == Shift(value, e) && mag == Abs(v)
      invariant e > 0 ==> Abs(Shift(value, e - 1)) > 32767.0
    {
      ShiftStep(value, e);
      v := v / 10.0;
      mag := mag / 10.0;
      e := e + 1;
    }
    while e > -3
      invariant MIN_EXPONENT <= e <= MAX_EXPONENT
      invariant v == Shift(value, e) && mag == Abs(v)
      invariant e > 0 ==> Abs(Shift(value, e - 1)) > 32767.0
      invariant e < MAX_EXPONENT ==> mag <= 32767.0
      invariant forall j :: e < j <= 0 ==> !Near(Shift(value, j))
    {
      ShiftStep(value, e);
      ShiftStep(value, e - 1);
      if Abs(v - Round(v) as real) <= 0.000001 * (mag + 1.0) { break; }
      if mag * 10.0 > 32767.0 { break; }
      v := v * 10.0;
      mag := mag * 10.0;
      e := e - 1;
    }
    m := Round(v);
    if m > 32767 { m := 32767; }
    if m < -32767 { m := -32767; }
  }

  /** jpv2g_secc20_rat_to_float. */
  method ToReal(exponent: int, mantissa: int) returns (v: real)
    ensures v == Value(exponent, mantissa)
  {
    v := mantissa as real;
    var i := 0;
    if exponent >= 0 {
      while i < exponent
        invariant 0 <= i <= exponent && v == Value(i, mantissa)
      {
        TenStep(i);
        v := v * 10.0;
        i := i + 1;
      }
    } else {
      while i > exponent
        invariant exponent <= i <= 0 && v == Value(i, mantissa)
      {
        TenStep(i - 1);
        v := v / 10.0;
        i := i - 1;
      }
    }
  }

  // ---- the theorems ----

  predicate InRange(x: real) { Abs(x) <= 32767.0 * Ten(MAX_EXPONENT) }

  /** Within the representable magnitudes the scaled value always fits, so the clamp never acts. */
  lemma ScaledFits(x: real, e: int, m: int)
    requires IsEncoding(x, e, m) && InRange(x)
    ensures Abs(Shift(x, e)) <= 32767.0 && m == Round(Shift(x, e))
  {
    hide Ten, Round, Near;
    FitsExactly(x, e);
    RoundIsNearest(Shift(x, e));
  }

  /** The mantissa stays in the wire range and the error is at most half a unit of the exponent. */
  lemma ErrorBound(x: real, e: int, m: int)
    requires IsEncoding(x, e, m) && InRange(x)
    ensures -MAX_MANTISSA <= m <= MAX_MANTISSA
    ensures Abs(x - Value(e, m)) <= 0.5 * Ten(e)
  {
    hide Ten, Round, Near, Shift, Abs;
    var v := Shift(x, e);
    ScaledFits(x, e, m);
    RoundIsNearest(v);
    ShiftValue(x, e);
    TenStep(e);
    var miss, t := v - m as real, Ten(e);
    assert x - Value(e, m) == miss * t;
    AbsTimes(miss, t, x - Value(e, m));
    ScaleBoth(Abs(miss), 0.5, t);
  }

  /** Beyond +-32767 the exponent is the least one that fits, and the second loop leaves it alone. */
  lemma LeastFittingExponent(x: real, e: int, m: int, k: int)
    requires IsEncoding(x, e, m) && InRange(x) && Abs(x) > 32767.0
    ensures e > 0 && Abs(x) <= 32767.0 * Ten(e)
    ensures k < e ==> Abs(x) > 32767.0 * Ten(k)
  {
    hide Ten, Round, Near, Shift, Abs;
    ScaledFits(x, e, m);
    FitsExactly(x, e);
    if e <= 0 { TenUpToOne(e); }
    if k < e {
      FitsExactly(x, e - 1);
      TenMonotone(k, e - 1);
    }
  }

  lemma TenUpToOne(e: int)
    requires e <= 0
    ensures Ten(e) <= 1.0
  {
    TenMonotone(e, 0);
  }

  // ---- exact numbers ----

  /** Fewer decimal places than the tolerance can blur: m * 10^k near an integer is an integer. */
  lemma NearMeansExact(m: int, k: int, v: real)
    requires -MAX_MANTISSA <= m <= MAX_MANTISSA && -3 <= k <= -1 && v == m as real * Ten(k) && Near(v)
    ensures v == Round(v) as real
  {
    var p := if k == -1 then 10 else if k == -2 then 100 else 1000;
    SmallPowers();
    assert v == m as real / p as real;
    NearFraction(m, p, v);
  }

  lemma SmallPowers()
    ensures Ten(-1) == 1.0 / 10.0 && Ten(-2) == 1.0 / 100.0 && Ten(-3) == 1.0 / 1000.0
  {
    assert Power(1) == 10.0 && Power(2) == 100.0 && Power(3) == 1000.0;
  }

  lemma NearFraction(m: int, p: int, v: real)
    requires -MAX_MANTISSA <= m <= MAX_MANTISSA && p in {10, 100, 1000} && v == m as real / p as real && Near(v)
    ensures v == Round(v) as real
  {
    hide Round;
    var r := Round(v);
    assert Abs(m as real - (r * p) as real) < 1.0;
    assert m == r * p;
  }

  /** On a grid at most as coarse as its own exponent the number is a whole multiple. */
  lemma WholeMultiple(e0: int, m0: int, k: int)
    requires k <= e0
    ensures var v := Shift(Value(e0, m0), k); v == Round(v) as real && Near(v)
  {
    hide Ten, Shift, Value;
    ShiftOfValue(e0, m0, k);
    PowerIsWhole(e0 - k);
    assert Shift(Value(e0, m0), k) == (m0 * WholePower(e0 - k)) as real;
    RoundOfInteger(m0 * WholePower(e0 - k));
  }

  function WholePower(n: nat): int { if n == 0 then 1 else 10 * WholePower(n - 1) }

  lemma {:induction false} PowerIsWhole(n: nat)
    ensures Ten(n) == WholePower(n) as real
  {
    if n > 0 {
      PowerIsWhole(n - 1);
      TenStep(n - 1);
    }
  }

  /** On a coarser grid (by d places) the shift is m0 / 10^d, a tenth of the mantissa at most. */
  lemma CoarseGrid(e0: int, m0: int, e: int)
    requires MIN_EXPONENT <= e0 < e <= 0 && -MAX_MANTISSA <= m0 <= MAX_MANTISSA
    ensures Shift(Value(e0, m0), e) == m0 as real * Ten(e0 - e)
    ensures Abs(Shift(Value(e0, m0), e)) * 10.0 <= 32767.0
  {
    hide Ten;
    TenAdd(e0, -e);
    assert Shift(Value(e0, m0), e) == m0 as real * (Ten(e0) * Ten(-e));
    TenMonotone(e0 - e, -1);
    TenStep(e0 - e);
    AbsTimes(m0 as real, Ten(e0 - e), Shift(Value(e0, m0), e));
    SmallPowers();
    MulBound(Abs(m0 as real), Ten(e0 - e));
  }

  lemma MulBound(a: real, t: real)
    requires 0.0 <= a <= 32767.0 && 0.0 < t <= 1.0 / 10.0
    ensures a * t * 10.0 <= 32767.0
  {
    assert a * (t * 10.0) <= a * 1.0;
  }

  /** Where an exactly representable number ends up: on a grid point of its own line, no further from zero
      than its own exponent, and with nothing to round. */
  lemma ExponentOfExact(e0: int, m0: int, e: int, m: int)
    requires MIN_EXPONENT <= e0 <= MAX_EXPONENT && -MAX_MANTISSA <= m0 <= MAX_MANTISSA
    requires IsEncoding(Value(e0, m0), e, m)
    ensures e > 0 ==> e <= e0
    ensures e <= 0 ==> e >= (if e0 < 0 then e0 else 0)
    ensures Shift(Value(e0, m0), e) == Round(Shift(Value(e0, m0), e)) as real
  {
    hide Ten, Round, Near, Shift, Value;
    var x := Value(e0, m0);
    if e > 0 {
      RaisedOnlyForSize(e0, m0, e);
      WholeMultiple(e0, m0, e);
    } else if e0 >= 0 {
      WholeMultiple(e0, m0, 0);
      WholeMultiple(e0, m0, e);
    } else if e <= e0 {
      WholeMultiple(e0, m0, e0);
      WholeMultiple(e0, m0, e);
    } else {
      CoarseGrid(e0, m0, e);
      NearMeansExact(m0, e0 - e, Shift(x, e));
    }
  }

  lemma RaisedOnlyForSize(e0: int, m0: int, e: int)
    requires -MAX_MANTISSA <= m0 <= MAX_MANTISSA
    requires Abs(Shift(Value(e0, m0), e - 1)) > 32767.0
    ensures e <= e0
  {
    hide Ten, Shift, Value, Abs;
    if e > e0 {
      FitsExactly(Value(e0, m0), e - 1);
      ExactFits(e0, m0);
      TenMonotone(e0, e - 1);
    }
  }

  /** Every m * 10^e with |m| <= 32767 and -3 <= e <= 127 converts to a pair with exactly the same value. */
  lemma RoundTrip(e0: int, m0: int, e: int, m: int)
    requires MIN_EXPONENT <= e0 <= MAX_EXPONENT && -MAX_MANTISSA <= m0 <= MAX_MANTISSA
    requires IsEncoding(Value(e0, m0), e, m)
    ensures Value(e, m) == Value(e0, m0)
  {
    hide Ten, Round, Near, Shift, Abs;
    var x := Value(e0, m0);
    ExactIsInRange(e0, m0);
    ScaledFits(x, e, m);
    ExponentOfExact(e0, m0, e, m);
    ShiftValue(x, e);
  }

  lemma ExactIsInRange(e0: int, m0: int)
    requires e0 <= MAX_EXPONENT && -MAX_MANTISSA <= m0 <= MAX_MANTISSA
    ensures InRange(Value(e0, m0))
  {
    hide Ten, Abs;
    ExactFits(e0, m0);
    TenMonotone(e0, MAX_EXPONENT);
  }

  /** Among all exact representations of a number the conversion picks one of least |exponent|. */
  lemma SmallestExponentMagnitude(e0: int, m0: int, e: int, m: int)
    requires MIN_EXPONENT <= e0 <= MAX_EXPONENT && -MAX_MANTISSA <= m0 <= MAX_MANTISSA
    requires IsEncoding(Value(e0, m0), e, m)
    ensures (if e < 0 then -e else e) <= (if e0 < 0 then -e0 else e0)
  {
    hide Ten, Round, Near, Shift, Abs, IsEncoding;
    ExponentOfExact(e0, m0, e, m);
  }

  /** The contract leaves no freedom: the pair is a function of the value. */
  lemma EncodingIsUnique(x: real, e1: int, m1: int, e2: int, m2: int)
    requires IsEncoding(x, e1, m1) && IsEncoding(x, e2, m2)
    ensures e1 == e2 && m1 == m2
  {
    hide Ten, Round, Near, Shift, Abs;
    NotFiner(x, e1, m1, e2, m2);
    NotFiner(x, e2, m2, e1, m1);
  }

  lemma NotFiner(x: real, e1: int, m1: int, e2: int, m2: int)
    requires IsEncoding(x, e1, m1) && IsEncoding(x, e2, m2)
    ensures e1 >= e2
  {
    hide Ten, Round, Near, Shift, Abs;
    if e1 < e2 {
      FitsExactly(x, e1);
      FitsExactly(x, e2 - 1);
      TenMonotone(e1, e2 - 1);
      ShiftStep(x, e2);
      AbsTimes(Shift(x, e2), 10.0, Shift(x, e2 - 1));
    }
  }

  /** Numbers as they go over the wire: an exact decimal fraction, one that only fits with a larger exponent, and the
      rounding away from zero below the smallest exponent. */
  lemma OverTheWire()
    ensures IsEncoding(12.5, -1, 125) && Value(-1, 125) == 12.5
    ensures IsEncoding(400_000.0, 2, 4000) && Value(2, 4000) == 400_000.0
    ensures IsEncoding(-0.0005, -3, -1) && IsEncoding(0.0005, -3, 1)
  {
    assert Power(0) == 1.0 && Power(1) == 10.0 && Power(2) == 100.0 && Power(3) == 1000.0;
    assert Ten(0) == 1.0 && Ten(1) == 10.0 && Ten(2) == 100.0 && Ten(3) == 1000.0;
    assert Ten(-1) == 0.1 && Ten(-2) == 0.01;
  }
}
