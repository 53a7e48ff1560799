/**
 * java.math.BigDecimal, as the payroll code uses it: a number written as an
 * unscaled integer and a scale, denoting unscaled × 10^-scale. Addition,
 * subtraction and `setScale(n, RoundingMode.HALF_UP)` are exact integer
 * arithmetic on that pair; `toPlainString` is modelled for scale 2, the only
 * scale it is applied to.
 */
module Decimals {
  import opened Wrappers
  import opened Text

  datatype Decimal = Decimal(unscaled: int, scale: int)

  /** `BigDecimal.ZERO`: zero at scale 0. */
  const Zero: Decimal := Decimal(0, 0)

  function Pow10(n: nat): (r: nat)
    ensures r >= 1
  {
    if n == 0 then 1 else 10 * Pow10(n - 1)
  }

  /** 10^k as a real number, for any integer k. */
  ghost function Ten(k: int): real
    decreases if k >= 0 then k else -k
  {
    if k == 0 then 1.0 else if k > 0 then 10.0 * Ten(k - 1) else Ten(k + 1) / 10.0
  }

  lemma {:induction false} TenStep(a: int)
    ensures Ten(a + 1) == 10.0 * Ten(a)
    decreases if a >= 0 then a else -a
  {
    if a < -1 { TenStep(a + 1); }
  }

  // Small arithmetic facts, stated over plain variables so that the solver
  // meets each nonlinear step on its own.

  lemma ProductAsReal(x: int, y: int)
    ensures (x * y) as real == (x as real) * (y as real)
  {
  }

  lemma Regroup(x: real, p: real, t: real)
    ensures (x * p) * t == x * (p * t)
  {
  }

  lemma Distribute(x: real, y: real, t: real)
    ensures (x + y) * t == x * t + y * t
    ensures (x - y) * t == x * t - y * t
  {
  }

  lemma MulSucc(x: int, m: int)
    ensures (x + 1) * m == x * m + m
    ensures (-x) * m == -(x * m)
  {
  }

  lemma MulDiff(q: int, r: int, m: int)
    ensures (q - r) * m == q * m - r * m
  {
  }

  lemma MulBounds(q: int, m: int)
    requires m > 0
    ensures q >= 1 ==> q * m >= m
    ensures q <= 0 ==> q * m <= 0
    ensures q <= -1 ==> q * m <= -m
    ensures q >= 2 ==> q * m >= 2 * m
    ensures q <= -2 ==> q * m <= -2 * m
  {
  }

  /** The number a decimal denotes. */
  ghost function Value(d: Decimal): real
  {
    d.unscaled as real * Ten(-d.scale)
  }

  function Max(a: int, b: int): int { if a >= b then a else b }

  function Abs(x: int): nat { if x < 0 then -x else x }

  /** The same number written at a scale at least as large (RescaleKeepsValue). */
  function Rescale(d: Decimal, s: int): (r: Decimal)
    requires d.scale <= s
    ensures r.scale == s
  {
    Decimal(d.unscaled * Pow10(s - d.scale), s)
  }

  /** Rescaling does not change the number. */
  lemma RescaleKeepsValue(d: Decimal, s: int)
    requires d.scale <= s
    ensures Value(Rescale(d, s)) == Value(d)
  {
    var k: nat := s - d.scale;
    var p := Pow10(k);
    UnitRatio(d.scale, k, s);
    ProductAsReal(d.unscaled, p);
    Regroup(d.unscaled as real, p as real, Ten(-s));
  }

  /** One unit at scale n is Pow10(k) units at scale s = n + k. */
  lemma {:induction false} UnitRatio(n: int, k: nat, s: int)
    requires s == n + k
    ensures Ten(-n) == (Pow10(k) as real) * Ten(-s)
    decreases k
  {
    if k > 0 {
      UnitRatio(n + 1, k - 1, s);
      TenStep(-n - 1);
    }
  }

  /** `a.add(b)`: at the larger of the two scales (AddExact). */
  function Add(a: Decimal, b: Decimal): (r: Decimal)
    ensures r.scale == Max(a.scale, b.scale)
  {
    var s := Max(a.scale, b.scale);
    Decimal(Rescale(a, s).unscaled + Rescale(b, s).unscaled, s)
  }

  /** `a.subtract(b)`: at the larger of the two scales (SubtractExact). */
  function Subtract(a: Decimal, b: Decimal): (r: Decimal)
    ensures r.scale == Max(a.scale, b.scale)
  {
    var s := Max(a.scale, b.scale);
    Decimal(Rescale(a, s).unscaled - Rescale(b, s).unscaled, s)
  }

  /** Adding or subtracting zero leaves a decimal with a non-negative scale as it is. */
  lemma ZeroIsNeutral(d: Decimal)
    requires d.scale >= 0
    ensures Add(d, Zero) == d && Subtract(d, Zero) == d
    ensures Subtract(Zero, d) == Decimal(-d.unscaled, d.scale)
  {
    assert Pow10(0) == 1;
    assert Rescale(d, d.scale) == d;
  }

  /** Addition is exact: no digit is lost. */
  lemma AddExact(a: Decimal, b: Decimal)
    ensures Value(Add(a, b)) == Value(a) + Value(b)
  {
    var s := Max(a.scale, b.scale);
    var x, y := Rescale(a, s), Rescale(b, s);
    RescaleKeepsValue(a, s);
    RescaleKeepsValue(b, s);
    Distribute(x.unscaled as real, y.unscaled as real, Ten(-s));
  }

  /** Subtraction is exact: no digit is lost. */
  lemma SubtractExact(a: Decimal, b: Decimal)
    ensures Value(Subtract(a, b)) == Value(a) - Value(b)
  {
    var s := Max(a.scale, b.scale);
    var x, y := Rescale(a, s), Rescale(b, s);
    RescaleKeepsValue(a, s);
    RescaleKeepsValue(b, s);
    Distribute(x.unscaled as real, y.unscaled as real, Ten(-s));
  }

  /**
   * u / m rounded to an integer with `RoundingMode.HALF_UP`: to the nearest
   * integer, and away from zero when both neighbours are equally near.
   */
  function DivHalfUp(u: int, m: nat): (q: int)
    requires m > 0
    ensures 2 * Abs(q * m - u) <= m
    ensures 2 * Abs(q * m - u) == m ==> Abs(q * m) > Abs(u)
  {
    var a := Abs(u);
    var mag := if 2 * (a % m) >= m then a / m + 1 else a / m;
    MagnitudeHalfUp(a, m, mag);
    MulSucc(mag, m);
    if u < 0 then -mag else mag
  }

  /** The rounded magnitude of a non-negative dividend. */
  lemma MagnitudeHalfUp(a: nat, m: nat, mag: int)
    requires m > 0
    requires mag == if 2 * (a % m) >= m then a / m + 1 else a / m
    ensures mag >= 0 && mag * m >= 0
    ensures 2 * Abs(mag * m - a) <= m
    ensures 2 * Abs(mag * m - a) == m ==> mag * m > a
  {
    var lo, rem := a / m, a % m;
    var x := lo * m;
    assert a == x + rem;
    MulSucc(lo, m);
    MulBounds(lo, m);
  }

  /** Two neighbouring multiples of m cannot both be tied with u and farther from zero. */
  lemma NoDoubleTie(u: int, m: nat, r: int)
    requires m > 0
    ensures !(2 * Abs(r * m - u) == m && 2 * Abs((r + 1) * m - u) == m
              && Abs(r * m) > Abs(u) && Abs((r + 1) * m) > Abs(u))
  {
    var x := r * m;
    MulSucc(r, m);
    MulBounds(r, m);
  }

  /** Any integer that meets DivHalfUp's two postconditions is DivHalfUp's result. */
  lemma DivHalfUpUnique(u: int, m: nat, q: int)
    requires m > 0
    requires 2 * Abs(q * m - u) <= m
    requires 2 * Abs(q * m - u) == m ==> Abs(q * m) > Abs(u)
    ensures q == DivHalfUp(u, m)
  {
    var r := DivHalfUp(u, m);
    var eq, er := q * m - u, r * m - u;
    if q == r + 1 {
      MulSucc(r, m);
      NoDoubleTie(u, m, r);
    } else if r == q + 1 {
      MulSucc(q, m);
      NoDoubleTie(u, m, q);
    } else if q != r {
      MulDiff(q, r, m);
      MulBounds(q - r, m);
    }
  }

  /** `d.setScale(n, RoundingMode.HALF_UP)`; HalfUpNearest states how close the result is. */
  function SetScaleHalfUp(d: Decimal, n: int): (r: Decimal)
    ensures r.scale == n
  {
    if d.scale <= n then Rescale(d, n) else Shrink(d, n)
  }

  /** Rounding half-up to a smaller scale: the unscaled value divided by the change of scale's power of ten. */
  function Shrink(d: Decimal, n: int): (r: Decimal)
    requires d.scale > n
    ensures r.scale == n
  {
    Decimal(DivHalfUp(d.unscaled, Pow10(d.scale - n)), n)
  }

  /**
   * Rounding to a scale at least as large keeps the number exactly. Rounding
   * to a smaller scale n gives the decimal at scale n nearest to d: written
   * back at d's scale it is within half a unit of its last place from d, and
   * a tie goes away from zero.
   */
  lemma HalfUpNearest(d: Decimal, n: int)
    ensures d.scale <= n ==> Value(SetScaleHalfUp(d, n)) == Value(d)
    ensures d.scale > n ==>
      var r, m := SetScaleHalfUp(d, n), Pow10(d.scale - n);
      && 2 * Abs(r.unscaled * m - d.unscaled) <= m
      && (2 * Abs(r.unscaled * m - d.unscaled) == m ==> Abs(r.unscaled * m) > Abs(d.unscaled))
  {
    if d.scale <= n {
      RescaleKeepsValue(d, n);
    }
  }

  /** Rounding a value that already has the target scale changes nothing. */
  lemma SetScaleKeeps(d: Decimal, n: int)
    requires d.scale == n
    ensures SetScaleHalfUp(d, n) == d
  {
  }

  /** The worked cases: 1000.005 rounds to 1000.01, 1000.004 to 1000.00, -1000.005 to -1000.01. */
  /** Zero written at any non-negative scale is zero at that scale. */
  lemma ZeroAtScale(n: nat)
    ensures SetScaleHalfUp(Zero, n) == Decimal(0, n)
  {
    assert Rescale(Zero, n).unscaled == 0 * Pow10(n);
  }

  lemma HalfUpExamples()
    ensures SetScaleHalfUp(Decimal(1000005, 3), 2) == Decimal(100001, 2)
    ensures SetScaleHalfUp(Decimal(1000004, 3), 2) == Decimal(100000, 2)
    ensures SetScaleHalfUp(Decimal(-1000005, 3), 2) == Decimal(-100001, 2)
  {
  }

  /**
   * `toPlainString()` of a decimal at scale 2: a minus sign for negative
   * values, the integer digits, a point and exactly two fraction digits.
   */
  function PlainString2(d: Decimal): (s: string)
    requires d.scale == 2
    ensures |s| >= 4 && s[|s| - 3] == '.' && IsDigit(s[|s| - 2]) && IsDigit(s[|s| - 1])
    ensures (s[0] == '-') <==> d.unscaled < 0
  {
    var a := Abs(d.unscaled);
    (if d.unscaled < 0 then "-" else "") + (DigitsOf(a / 100) + "." + Cents(a % 100))
  }

  /** Reference reader for the plain two-decimal notation. */
  function ReadPlain2(s: string): Option<Decimal>
  {
    if s != [] && s[0] == '-' then
      match ReadMagnitude2(s[1..])
      case None => None
      case Some(m) => Some(Decimal(-(m as int), 2))
    else
      match ReadMagnitude2(s)
      case None => None
      case Some(m) => Some(Decimal(m, 2))
  }

  /** Integer digits, a point and two fraction digits, read as hundredths. */
  function ReadMagnitude2(body: string): Option<nat>
  {
    if |body| < 4 || body[|body| - 3] != '.' then None
    else
      var whole, frac := body[..|body| - 3], body[|body| - 2..];
      if !AllDigits(whole) || !AllDigits(frac) then None
      else Some(DigitsValue(whole) * 100 + DigitsValue(frac))
  }

  /** A number below 100 as exactly two digits. */
  function Cents(x: nat): (r: string)
    requires x < 100
    ensures |r| == 2 && AllDigits(r)
  {
    [DigitChar(x / 10), DigitChar(x % 10)]
  }

  /** Two digits read back as the number below 100 they were written from. */
  lemma TwoDigits(x: nat)
    requires x < 100
    ensures DigitsValue(Cents(x)) == x
  {
    var f := Cents(x);
    assert f[..1] == [f[0]] && [f[0]][..0] == [];
    assert DigitValue(f[0]) == x / 10 && DigitValue(f[1]) == x % 10;
    assert DigitsValue([f[0]]) == x / 10;
  }

  lemma ReadBody(digits: string, frac: string)
    requires 1 <= |digits| && AllDigits(digits) && |frac| == 2 && AllDigits(frac)
    ensures ReadMagnitude2(digits + "." + frac) == Some(DigitsValue(digits) * 100 + DigitsValue(frac))
  {
    var body := digits + "." + frac;
    SplitAtPoint(digits, frac, body);
    ReadMagnitudeOf(body, digits, frac);
  }

  /** The pieces of `digits.frac`, found back by position. */
  lemma SplitAtPoint(digits: string, frac: string, body: string)
    requires |frac| == 2 && body == digits + "." + frac
    ensures |body| == |digits| + 3 && body[|body| - 3] == '.'
    ensures body[..|body| - 3] == digits && body[|body| - 2..] == frac
  {
  }

  lemma ReadMagnitudeOf(b: string, whole: string, frac: string)
    requires |b| >= 4 && b[|b| - 3] == '.' && b[..|b| - 3] == whole && b[|b| - 2..] == frac
    requires AllDigits(whole) && AllDigits(frac)
    ensures ReadMagnitude2(b) == Some(DigitsValue(whole) * 100 + DigitsValue(frac))
  {
  }

  /** The digits, point and two fraction digits written for a magnitude read back as that magnitude. */
  lemma MagnitudeRoundTrip(a: nat)
    ensures ReadMagnitude2(DigitsOf(a / 100) + "." + Cents(a % 100)) == Some(a)
  {
    var w, c := a / 100, a % 100;
    ReadBody(DigitsOf(w), Cents(c));
    DigitsRoundTrip(w);
    TwoDigits(c);
  }

  /** The plain rendering of a scale-2 decimal reads back as the same decimal. */
  lemma PlainRoundTrip(d: Decimal)
    requires d.scale == 2
    ensures ReadPlain2(PlainString2(d)) == Some(d)
  {
    var a := Abs(d.unscaled);
    var body := DigitsOf(a / 100) + "." + Cents(a % 100);
    MagnitudeRoundTrip(a);
    if d.unscaled < 0 {
      assert PlainString2(d) == "-" + body;
      assert PlainString2(d)[1..] == body;
    } else {
      assert PlainString2(d) == body;
    }
  }
}
