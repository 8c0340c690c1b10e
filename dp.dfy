/** The Dirichlet-process (Polya urn) one-step predictive CDF
      P(t) = (alpha * G0(t) + K(t)) / (alpha + m),
    where K(t) counts the m observed atoms at or below t. Every driver of the
    model evaluates this closed form; it is defined once here together with
    its range, monotonicity, order invariance and the one-step increment
    identity behind the Proposition 2.6 variance. */
module DpPredictive {
  import opened Numerics

  /** alpha + k is non-zero for every integer k in [0, hi]: a Python float
      division by alpha + k would not raise. */
  predicate DenomsNonZero(alpha: real, hi: int)
  {
    forall k :: 0 <= k <= hi ==> Denom(alpha, k) != 0.0
  }

  function Denom(alpha: real, k: int): real
  {
    alpha + (k as real)
  }

  lemma DenomsNonZeroExtend(alpha: real, hi: int)
    requires DenomsNonZero(alpha, hi) && alpha + ((hi + 1) as real) != 0.0
    ensures DenomsNonZero(alpha, hi + 1)
  {
    assert Denom(alpha, hi + 1) != 0.0;
  }

  /** A positive concentration never meets a zero denominator. */
  lemma DenomsNonZeroPositive(alpha: real, hi: int)
    requires alpha > 0.0
    ensures DenomsNonZero(alpha, hi)
  {
  }

  /** (alpha * g + K(t)) / (alpha + |atoms|) */
  function PolyaCdf(alpha: real, g: real, atoms: seq<real>, t: real): (p: real)
    requires alpha + (|atoms| as real) != 0.0
    ensures alpha > 0.0 && 0.0 <= g <= 1.0 ==> 0.0 <= p <= 1.0
  {
    var K := CountLeq(atoms, t) as real;
    var d := alpha + (|atoms| as real);
    if alpha > 0.0 && 0.0 <= g <= 1.0 then
      FractionInUnit(alpha * g + K, d);
      (alpha * g + K) / d
    else
      (alpha * g + K) / d
  }

  /** 0 <= num <= den with den > 0 puts num / den in [0,1]. */
  lemma FractionInUnit(num: real, den: real)
    requires 0.0 < den && 0.0 <= num <= den
    ensures 0.0 <= num / den <= 1.0
  {
  }

  /** With no atoms the predictive is the base measure itself. */
  lemma PolyaCdfEmpty(alpha: real, g: real, t: real)
    requires alpha != 0.0
    ensures PolyaCdf(alpha, g, [], t) == g
  {
    assert (alpha * g) / alpha == g;
  }

  /** Non-decreasing in t whenever G0 is. */
  lemma PolyaCdfMonotone(alpha: real, gs: real, gt: real, atoms: seq<real>, s: real, t: real)
    requires alpha > 0.0 && s <= t && gs <= gt
    ensures PolyaCdf(alpha, gs, atoms, s) <= PolyaCdf(alpha, gt, atoms, t)
  {
    CountLeqMonotone(atoms, s, t);
    RatioMonotone(alpha, gs, gt, CountLeq(atoms, s) as real, CountLeq(atoms, t) as real, alpha + (|atoms| as real));
  }

  lemma RatioMonotone(alpha: real, gs: real, gt: real, ks: real, kt: real, d: real)
    requires alpha > 0.0 && gs <= gt && ks <= kt && d > 0.0
    ensures (alpha * gs + ks) / d <= (alpha * gt + kt) / d
  {
    ScaleMonotone(alpha, gs, gt);
    DivMonotone(alpha * gs + ks, alpha * gt + kt, d);
  }

  lemma ScaleMonotone(c: real, a: real, b: real)
    requires c > 0.0 && a <= b
    ensures c * a <= c * b
  {
    NonNegProduct(c, b - a);
    assert c * (b - a) == c * b - c * a;
  }

  lemma DivMonotone(a: real, b: real, d: real)
    requires a <= b && d > 0.0
    ensures a / d <= b / d
  {
    assert b / d - a / d == (b - a) / d;
  }

  /** The predictive depends on the atoms only through their multiset: feeding
      the same observations in any order gives the same CDF. */
  lemma PolyaCdfPermutation(alpha: real, g: real, a: seq<real>, b: seq<real>, t: real)
    requires multiset(a) == multiset(b) && alpha + (|a| as real) != 0.0
    ensures |a| == |b|
    ensures PolyaCdf(alpha, g, a, t) == PolyaCdf(alpha, g, b, t)
  {
    assert |a| == |multiset(a)| == |multiset(b)| == |b|;
    CountLeqPermutation(a, b, t);
  }

  /** The worked instance alpha = 5, G0(t) = 0.5, K = 3, n = 10 gives 11/30. */
  lemma PolyaCdfWorkedInstance(atoms: seq<real>, t: real)
    requires |atoms| == 10 && CountLeq(atoms, t) == 3
    ensures PolyaCdf(5.0, 0.5, atoms, t) == 11.0 / 30.0
  {
  }

  /** P_m(t) with P_0(t) = G0(t): the value the per-threshold loop holds after
      m observations. */
  function PStep(alpha: real, g: real, xs: seq<real>, t: real): (p: real)
    requires xs == [] || alpha + (|xs| as real) != 0.0
    ensures alpha > 0.0 && 0.0 <= g <= 1.0 ==> 0.0 <= p <= 1.0
  {
    if xs == [] then g else PolyaCdf(alpha, g, xs, t)
  }

  /** One more observation moves P by (1[x <= t] - P_{m-1}) / (alpha + m):
      the increment of the predictive martingale. */
  lemma PStepIncrement(alpha: real, g: real, xs: seq<real>, x: real, t: real)
    requires xs == [] || alpha + (|xs| as real) != 0.0
    requires alpha + ((|xs| + 1) as real) != 0.0
    requires xs == [] ==> alpha != 0.0
    ensures PStep(alpha, g, xs + [x], t) - PStep(alpha, g, xs, t)
            == ((Indicator(x <= t) as real) - PStep(alpha, g, xs, t)) / (alpha + ((|xs| + 1) as real))
  {
    var i := Indicator(x <= t) as real;
    var d := alpha + ((|xs| + 1) as real);
    var k0 := CountLeq(xs, t) as real;
    CountLeqSnoc(xs, x, t);
    assert xs + [x] != [];
    assert PStep(alpha, g, xs + [x], t) == (alpha * g + k0 + i) / d;
    if xs == [] {
      assert k0 == 0.0;
      CancelScale(alpha, g);
      IncrementOfRatio(alpha * g, i, g, d);
    } else {
      IncrementOfRatio(alpha * g + k0, i, PStep(alpha, g, xs, t), d);
    }
  }

  /** With p = N / (d - 1): (N + i) / d - p = (i - p) / d. */
  lemma IncrementOfRatio(num: real, i: real, p: real, d: real)
    requires d != 0.0 && d - 1.0 != 0.0 && p == num / (d - 1.0)
    ensures (num + i) / d - p == (i - p) / d
  {
    assert p * (d - 1.0) == num;
    assert ((num + i) / d - p) * d == num + i - p * d;
  }

  lemma CancelScale(a: real, g: real)
    requires a != 0.0
    ensures (a * g) / a == g
  {
  }

  /** Each term m^2 (P_m - P_{m-1})^2 of the variance sum is below 1 when
      alpha > 0 and P_{m-1} lies in [0,1]: here e is the increment
      (i - P_{m-1}) / (alpha + m), with i the indicator 1[x_m <= t]. */
  lemma IncrementTermBelowOne(alpha: real, pPrev: real, i: real, m: nat, e: real)
    requires alpha > 0.0 && m >= 1 && 0.0 <= pPrev <= 1.0 && (i == 0.0 || i == 1.0)
    requires e * (alpha + (m as real)) == i - pPrev
    ensures ((m * m) as real) * Sq(e) < 1.0
  {
    ScaledIncrementBelowOne(m as real, alpha + (m as real), i - pPrev, e);
    SquareBelowOne((m as real) * e);
    SquareOfScaled(m, e);
  }

  lemma ScaledIncrementBelowOne(mr: real, d: real, delta: real, e: real)
    requires 0.0 < mr < d && -1.0 <= delta <= 1.0 && e * d == delta
    ensures -1.0 < mr * e < 1.0
  {
    var q := mr * e;
    assert q * d == mr * delta;
    assert -mr <= mr * delta <= mr;
    if q >= 1.0 {
      NonNegProduct(q - 1.0, d);
    }
    if q <= -1.0 {
      NonNegProduct(-1.0 - q, d);
    }
  }

  lemma SquareOfScaled(m: nat, e: real)
    ensures ((m * m) as real) * Sq(e) == Sq((m as real) * e)
  {
    assert ((m * m) as real) == (m as real) * (m as real);
  }

  lemma NonNegProduct(x: real, y: real)
    requires x >= 0.0 && y >= 0.0
    ensures x * y >= 0.0
  {
  }

  lemma SquareBelowOne(x: real)
    requires -1.0 < x < 1.0
    ensures Sq(x) < 1.0
  {
    if x >= 0.0 {
      assert x * x <= x * 1.0;
    } else {
      assert x * x <= (-x) * 1.0;
    }
  }
}
