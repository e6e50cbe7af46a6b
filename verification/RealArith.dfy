/** Small facts about products of reals, kept apart so that no other proof needs non-linear reasoning. */
module RealArith {

  /** The product, behind a name that a proof can hide. */
  function Times(x: real, y: real): real {
    x * y
  }

  /** The quotient, likewise. */
  function Over(x: real, y: real): real
    requires y != 0.0
  {
    x / y
  }

  function Min(x: real, y: real): real {
    if y < x then y else x
  }

  function Max(x: real, y: real): real {
    if x < y then y else x
  }

  function Abs(x: real): real {
    if x < 0.0 then -x else x
  }

  function Power(x: real, n: nat): real {
    if n == 0 then 1.0 else Times(x, Power(x, n - 1))
  }

  lemma TimesIs(x: real, y: real)
    ensures Times(x, y) == x * y
    ensures x == 0.0 || y == 0.0 ==> Times(x, y) == 0.0
  {
  }

  lemma ProductNonNegative(x: real, y: real)
    requires x >= 0.0 && y >= 0.0
    ensures x * y >= 0.0
  {
  }

  lemma ProductPositive(x: real, y: real)
    requires x > 0.0 && y > 0.0
    ensures x * y > 0.0
  {
  }

  /** Multiplying by a non-negative factor keeps order. */
  lemma ScaleMono(g: real, x: real, y: real)
    requires 0.0 <= g && x <= y
    ensures g * x <= g * y
  {
    ProductNonNegative(g, y - x);
    assert g * (y - x) == g * y - g * x;
  }

  /** An order that holds wherever the weight is positive survives weighting. */
  lemma WeightedMono(p: real, x: real, y: real)
    requires p >= 0.0 && (p > 0.0 ==> x <= y)
    ensures p * x <= p * y
  {
    if p > 0.0 {
      ScaleMono(p, x, y);
    } else {
      ZeroTimes(p, x);
      ZeroTimes(p, y);
    }
  }

  lemma ScaleDown(g: real, x: real)
    requires g <= 1.0 && 0.0 <= x
    ensures g * x <= x
  {
    ScaleMono(x, g, 1.0);
  }

  lemma ScaledBound(v: real, g: real, x: real)
    requires g <= 1.0 && 0.0 <= x && v <= Times(g, x)
    ensures v <= x
  {
    ScaleDown(g, x);
  }

  lemma ScaleShift(g: real, x: real, y: real, d: real)
    requires 0.0 <= g && x <= y + d
    ensures g * x <= g * y + g * d
  {
    ScaleMono(g, x, y + d);
    assert g * (y + d) == g * y + g * d;
  }

  lemma CancelFactor(x: real, y: real, h: real)
    requires h > 0.0 && x * h <= y * h
    ensures x <= y
  {
    assert (x - y) * h == x * h - y * h;
    if x > y {
      ProductPositive(x - y, h);
    }
  }

  lemma NoGrowth(d: real, g: real)
    requires g < 1.0 && d <= Times(g, d)
    ensures d <= 0.0
  {
    assert d * (1.0 - g) == d - g * d;
    if d > 0.0 {
      ProductPositive(d, 1.0 - g);
    }
  }

  lemma ZeroTimes(x: real, m: real)
    requires x == 0.0
    ensures x * m == 0.0
  {
  }

  lemma Distribute(x: real, y: real, m: real)
    ensures (x + y) * m == x * m + y * m
  {
  }

  lemma TimesOne(x: real, m: real)
    requires m == 1.0
    ensures x * m == x
  {
  }

  /** `d <= e + g * d` with `g < 1` bounds `d`. */
  lemma Geometric(d: real, e: real, g: real)
    requires 0.0 <= g < 1.0 && d <= e + g * d
    ensures d <= e / (1.0 - g)
  {
    var h := 1.0 - g;
    var x := e / h;
    assert x * h == e;
    assert d * h == d - g * d;
    CancelFactor(d, x, h);
  }

  lemma DivTimes(x: real, y: real)
    requires y > 0.0
    ensures Times(Over(x, y), y) == x
  {
  }

  lemma TimesUnit(x: real, m: real)
    requires m == 1.0
    ensures Times(x, m) == x
  {
  }

  lemma TimesAssoc(x: real, y: real, z: real)
    ensures Times(Times(x, y), z) == Times(x, Times(y, z))
  {
  }

  lemma TimesMono(g: real, x: real, y: real)
    requires 0.0 <= g && x <= y
    ensures Times(g, x) <= Times(g, y)
  {
    ScaleMono(g, x, y);
  }

  lemma TimesMonoLeft(x: real, y: real, g: real)
    requires 0.0 <= g && x <= y
    ensures Times(x, g) <= Times(y, g)
  {
    ScaleMono(g, x, y);
    assert x * g == g * x && y * g == g * y;
  }

  lemma TimesCancel(x: real, y: real, h: real)
    requires h > 0.0 && Times(x, h) <= Times(y, h)
    ensures x <= y
  {
    CancelFactor(x, y, h);
  }

  lemma TimesMinus(g: real, x: real, y: real)
    ensures Times(g, x - y) == Times(g, x) - Times(g, y)
  {
  }

  lemma TimesLess(x: real, y: real, g: real)
    requires 0.0 < g && x < y
    ensures Times(x, g) < Times(y, g)
  {
    ProductPositive(y - x, g);
    assert (y - x) * g == y * g - x * g;
  }

  lemma TimesPlus(g: real, x: real, y: real)
    ensures Times(g, x + y) == Times(g, x) + Times(g, y)
    ensures Times(x + y, g) == Times(x, g) + Times(y, g)
  {
  }

  lemma UnitTimes(x: real)
    ensures Times(1.0, x) == x && Times(x, 1.0) == x
  {
  }

  /** One more term of a weighted sum whose elements differ by at most `c`. */
  lemma ShiftedTerm(p: real, v: real, w: real, c: real, ev: real, ew: real, m: real)
    requires 0.0 <= p && v <= w + c && ev <= ew + c * m
    ensures ev + p * v <= ew + p * w + c * (m + p)
  {
    ScaleShift(p, v, w, c);
    Distribute(m, p, c);
  }
}
