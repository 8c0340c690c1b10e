/** The sequential predictive methods: each consumes a stream one scalar at
    a time and answers, between updates, with an estimate of the predictive
    CDF (and density).

    - EcdfState: the running empirical CDF over a fixed-capacity buffer.
    - RunningMoments: Welford's one-pass mean and sum of squared deviations.
    - The Normal plug-in and Student-t predictives, as pure functions of a
      snapshot of the running moments, with their fallback branches.
    - PolyaPredictive: the Dirichlet-process predictive over the list of atoms.

    The standard normal CDF and density (Phi, phi), the Student-t CDF and
    density (Tcdf, Tpdf, taking the degrees of freedom) and sqrt are
    parameters. */
module Methods {
  import opened Numerics
  import opened BaseMeasure
  import opened DpPredictive

  // ---------------------------------------------------------------------
  // Empirical CDF
  // ---------------------------------------------------------------------

  /** The ECDF predictive over the stored values xs: 0.5 before any data,
      then the share of stored values at or below t. */
  function EcdfCdf(xs: seq<real>, t: real): (p: real)
    ensures 0.0 <= p <= 1.0
    ensures xs == [] ==> p == 0.5
    ensures xs != [] ==> p * (|xs| as real) == CountLeq(xs, t) as real
  {
    if xs == [] then 0.5
    else
      FractionInUnit(CountLeq(xs, t) as real, |xs| as real);
      (CountLeq(xs, t) as real) / (|xs| as real)
  }

  /** With data, the ECDF is non-decreasing in t. */
  lemma EcdfMonotone(xs: seq<real>, s: real, t: real)
    requires xs != [] && s <= t
    ensures EcdfCdf(xs, s) <= EcdfCdf(xs, t)
  {
    CountLeqMonotone(xs, s, t);
    DivMonotone(CountLeq(xs, s) as real, CountLeq(xs, t) as real, |xs| as real);
  }

  /** Below every stored value the ECDF is 0, at or above every stored value 1. */
  lemma EcdfExtremes(xs: seq<real>, t: real)
    requires xs != []
    ensures (forall k :: 0 <= k < |xs| ==> t < xs[k]) ==> EcdfCdf(xs, t) == 0.0
    ensures (forall k :: 0 <= k < |xs| ==> xs[k] <= t) ==> EcdfCdf(xs, t) == 1.0
  {
    if forall k :: 0 <= k < |xs| ==> t < xs[k] {
      CountLeqAllAbove(xs, t);
    }
    if forall k :: 0 <= k < |xs| ==> xs[k] <= t {
      CountLeqAllBelow(xs, t);
    }
  }

  /** The _ECDFState: a buffer of capacity max_n and the number of values stored. */
  class EcdfState {
    var buffer: array<real>
    var count: nat

    ghost predicate Valid()
      reads this
    {
      count <= buffer.Length
    }

    /** The values observed so far, in order. */
    ghost function Contents(): seq<real>
      reads this, buffer
      requires Valid()
    {
      buffer[..count]
    }

    constructor (maxN: nat)
      ensures Valid() && fresh(buffer) && buffer.Length == maxN && Contents() == []
    {
      buffer := new real[maxN];
      count := 0;
    }

    /** update: write x at buffer[count], then count += 1. With a full buffer
        numpy raises IndexError before anything changes (ok is false). */
    method Update(x: real) returns (ok: bool)
      requires Valid()
      modifies this`count, buffer
      ensures Valid() && buffer == old(buffer)
      ensures ok <==> old(count) < buffer.Length
      ensures Contents() == if ok then old(Contents()) + [x] else old(Contents())
    {
      ok := count < buffer.Length;
      if ok {
        var c := count;
        buffer[c] := x;
        count := c + 1;
        assert buffer[..count] == old(buffer[..c]) + [x];
      }
    }

    /** cdf_est at one threshold. */
    function CdfEst(t: real): (p: real)
      reads this, buffer
      requires Valid()
      ensures p == EcdfCdf(Contents(), t)
    {
      if count == 0 then 0.5 else (CountLeq(buffer[..count], t) as real) / (count as real)
    }

    /** cdf_est on a grid: one value per grid point. */
    function CdfEstGrid(ts: seq<real>): (ps: seq<real>)
      reads this, buffer
      requires Valid()
      ensures |ps| == |ts|
      ensures forall k :: 0 <= k < |ts| ==> ps[k] == EcdfCdf(Contents(), ts[k])
    {
      var xs := buffer[..count];
      seq(|ts|, k requires 0 <= k < |ts| => EcdfCdf(xs, ts[k]))
    }

    /** pdf_est: the ECDF has no density. */
    function PdfEst(x: real): (d: Est)
      ensures d == Undefined
    {
      Undefined
    }
  }

  /** init_state: np.empty(max_n) raises for a negative capacity. */
  method EcdfInit(maxN: int) returns (r: Result<EcdfState>)
    ensures r.Err? <==> maxN < 0
    ensures r.Ok? ==> fresh(r.value) && fresh(r.value.buffer) && r.value.Valid()
    ensures r.Ok? ==> r.value.buffer.Length == maxN && r.value.Contents() == []
  {
    if maxN < 0 {
      return Err("negative dimensions are not allowed");
    }
    var s := new EcdfState(maxN);
    return Ok(s);
  }

  // ---------------------------------------------------------------------
  // Running moments
  // ---------------------------------------------------------------------

  function Sum(xs: seq<real>): real
  {
    if xs == [] then 0.0 else Sum(xs[..|xs| - 1]) + xs[|xs| - 1]
  }

  function SumSq(xs: seq<real>): real
  {
    if xs == [] then 0.0 else SumSq(xs[..|xs| - 1]) + Sq(xs[|xs| - 1])
  }

  /** The arithmetic mean; 0 for no data (the accumulator's initial mean). */
  function Mean(xs: seq<real>): (m: real)
    ensures m * (|xs| as real) == Sum(xs)
    ensures xs == [] ==> m == 0.0
  {
    if xs == [] then 0.0 else Sum(xs) / (|xs| as real)
  }

  /** sum_i (xs[i] - c)^2 */
  function SqDev(xs: seq<real>, c: real): real
  {
    if xs == [] then 0.0 else SqDev(xs[..|xs| - 1], c) + Sq(xs[|xs| - 1] - c)
  }

  lemma {:induction false} SqDevNonNegative(xs: seq<real>, c: real)
    ensures SqDev(xs, c) >= 0.0
  {
    if xs != [] {
      SqDevNonNegative(xs[..|xs| - 1], c);
      SquareNonNegative(xs[|xs| - 1] - c);
    }
  }

  lemma ExpandStep(d0: real, s2: real, s1: real, n: real, x: real, c: real,
                   d1: real, t2: real, t1: real, n1: real)
    requires d0 == s2 - 2.0 * c * s1 + n * Sq(c)
    requires d1 == d0 + Sq(x - c) && t2 == s2 + Sq(x) && t1 == s1 + x && n1 == n + 1.0
    ensures d1 == t2 - 2.0 * c * t1 + n1 * Sq(c)
  {
  }

  /** sum (x - c)^2 = sum x^2 - 2 c sum x + n c^2 */
  lemma {:induction false} SqDevExpand(xs: seq<real>, c: real)
    ensures SqDev(xs, c) == SumSq(xs) - 2.0 * c * Sum(xs) + (|xs| as real) * Sq(c)
  {
    if xs != [] {
      var p := xs[..|xs| - 1];
      var x := xs[|xs| - 1];
      assert SqDev(p, c) == SumSq(p) - 2.0 * c * Sum(p) + (|p| as real) * Sq(c) by {
        SqDevExpand(p, c);
      }
      assert SqDev(xs, c) == SqDev(p, c) + Sq(x - c) && SumSq(xs) == SumSq(p) + Sq(x)
             && Sum(xs) == Sum(p) + x && (|xs| as real) == (|p| as real) + 1.0;
      ExpandStep(SqDev(p, c), SumSq(p), Sum(p), |p| as real, x, c,
                 SqDev(xs, c), SumSq(xs), Sum(xs), |xs| as real);
    }
  }

  /** About the mean c of xs: sum (x - c)^2 = sum x^2 - c sum x. */
  lemma SqDevAboutMean(xs: seq<real>, c: real)
    requires c * (|xs| as real) == Sum(xs)
    ensures SqDev(xs, c) == SumSq(xs) - c * Sum(xs)
  {
    SqDevExpand(xs, c);
    MeanSquareTerm(c, |xs| as real, Sum(xs));
  }

  lemma MeanSquareTerm(c: real, n: real, s: real)
    requires c * n == s
    ensures n * Sq(c) == c * s
  {
  }

  lemma SnocSums(xs: seq<real>, x: real)
    ensures Sum(xs + [x]) == Sum(xs) + x && SumSq(xs + [x]) == SumSq(xs) + Sq(x)
    ensures (|xs + [x]| as real) == (|xs| as real) + 1.0
  {
    assert (xs + [x])[..|xs|] == xs;
  }

  /** The Welford step on plain numbers: from mean * n = s1 and the new mean
      mean1 = mean + (x - mean) / (n + 1), the new mean times n + 1 is the
      new sum, and M2 + (x - mean)(x - mean1) is the new sum x^2 - mean1 sum x. */
  lemma WelfordAlgebra(n: real, mean: real, s1: real, s2: real, x: real,
                       n1: real, mean1: real, t1: real, t2: real)
    requires n1 == n + 1.0 && mean * n == s1
    requires mean1 * n1 == mean * n1 + (x - mean)
    requires t1 == s1 + x && t2 == s2 + Sq(x)
    ensures mean1 * n1 == t1
    ensures (s2 - mean * s1) + (x - mean) * (x - mean1) == t2 - mean1 * t1
  {
    assert mean1 * n1 == t1;
    assert mean * ((mean - mean1) * n - mean1 + x) == 0.0;
  }

  /** One Welford update keeps mean * n = sum x and M2 = sum x^2 - mean sum x. */
  lemma WelfordStep(xs: seq<real>, x: real, mean: real, mean1: real)
    requires mean * (|xs| as real) == Sum(xs)
    requires mean1 == mean + (x - mean) / ((|xs| + 1) as real)
    ensures mean1 * (|xs + [x]| as real) == Sum(xs + [x])
    ensures (SumSq(xs) - mean * Sum(xs)) + (x - mean) * (x - mean1) == SumSq(xs + [x]) - mean1 * Sum(xs + [x])
  {
    var ys := xs + [x];
    var n1 := |ys| as real;
    SnocSums(xs, x);
    assert mean1 * n1 == mean * n1 + (x - mean);
    WelfordAlgebra(|xs| as real, mean, Sum(xs), SumSq(xs), x, n1, mean1, Sum(ys), SumSq(ys));
  }

  lemma Cancel(a: real, b: real, k: real, s: real)
    requires k != 0.0 && a * k == s && b * k == s
    ensures a == b
  {
    assert (a - b) * k == 0.0;
  }

  /** A snapshot of the accumulator's fields (n, mean, M2). */
  datatype Moments = Moments(n: nat, mean: real, m2: real)

  /** The statistics of a data sequence: its length, mean and sum of squared
      deviations from the mean. */
  function MomentsOf(xs: seq<real>): (m: Moments)
    ensures m.n == |xs|
    ensures m.mean * (|xs| as real) == Sum(xs)
  {
    Moments(|xs|, Mean(xs), SqDev(xs, Mean(xs)))
  }

  /** The accumulator invariant: mean * n = sum x (0 before any data) and
      M2 = sum x^2 - mean sum x. */
  predicate Accumulates(xs: seq<real>, m: Moments)
  {
    m.n == |xs| && m.mean * (m.n as real) == Sum(xs) && (m.n == 0 ==> m.mean == 0.0)
    && m.m2 == SumSq(xs) - m.mean * Sum(xs)
  }

  /** One Welford update keeps the accumulator invariant. */
  lemma WelfordAccumulates(xs: seq<real>, x: real, m: Moments, next: Moments)
    requires Accumulates(xs, m)
    requires next.n == m.n + 1 && next.mean == m.mean + (x - m.mean) / (next.n as real)
    requires next.m2 == m.m2 + (x - m.mean) * (x - next.mean)
    ensures Accumulates(xs + [x], next)
  {
    WelfordStep(xs, x, m.mean, next.mean);
  }

  /** The accumulator holds exactly the mean and the sum of squared
      deviations of the data it has absorbed, and M2 >= 0. */
  lemma AccumulatesMoments(xs: seq<real>, m: Moments)
    requires Accumulates(xs, m)
    ensures m == MomentsOf(xs)
    ensures m.m2 >= 0.0
  {
    if xs != [] {
      Cancel(m.mean, Mean(xs), |xs| as real, Sum(xs));
    }
    SqDevAboutMean(xs, m.mean);
    SqDevNonNegative(xs, m.mean);
  }

  /** _RunningMoments: the fields n, mean, M2, and the data seen so far. */
  class RunningMoments {
    var n: nat
    var mean: real
    var m2: real
    ghost var seen: seq<real>

    ghost predicate Valid()
      reads this
    {
      Accumulates(seen, Moments(n, mean, m2))
    }

    constructor ()
      ensures Valid() && seen == []
    {
      n, mean, m2 := 0, 0.0, 0.0;
      seen := [];
    }

    /** update: n += 1; delta = x - mean; mean += delta / n; M2 += delta (x - mean). */
    method Update(x: real)
      requires Valid()
      modifies this
      ensures Valid() && seen == old(seen) + [x]
    {
      var n1 := n + 1;
      var delta := x - mean;
      var mean1 := mean + delta / (n1 as real);
      var m21 := m2 + delta * (x - mean1);
      WelfordAccumulates(seen, x, Moments(n, mean, m2), Moments(n1, mean1, m21));
      n, mean, m2 := n1, mean1, m21;
      seen := seen + [x];
    }

    function Snapshot(): (m: Moments)
      reads this
      ensures m.n == n && m.mean == mean && m.m2 == m2
    {
      Moments(n, mean, m2)
    }
  }

  /** Feeding a stream through the accumulator leaves in it the mean and the
      sum of squared deviations of that stream. */
  method AccumulateAll(xs: seq<real>) returns (m: Moments)
    ensures m == MomentsOf(xs)
  {
    var acc := new RunningMoments();
    var i := 0;
    while i < |xs|
      invariant 0 <= i <= |xs|
      invariant acc.Valid() && acc.seen == xs[..i]
    {
      assert xs[..i + 1] == xs[..i] + [xs[i]];
      acc.Update(xs[i]);
      i := i + 1;
    }
    assert xs[..i] == xs;
    m := acc.Snapshot();
    AccumulatesMoments(xs, m);
  }

  /** var_unbiased: M2 / (n - 1) from two observations on, NaN before. */
  function VarUnbiased(m: Moments): (v: Est)
    ensures v.Defined? <==> m.n >= 2
    ensures v.Defined? ==> v.value * ((m.n - 1) as real) == m.m2
  {
    if m.n >= 2 then Defined(m.m2 / ((m.n - 1) as real)) else Undefined
  }

  /** sd_unbiased: sqrt of a finite non-negative variance, NaN otherwise. */
  function SdUnbiased(m: Moments, sqrt: real -> real): (s: Est)
    ensures s.Defined? <==> m.n >= 2 && m.m2 >= 0.0
    ensures s.Defined? && IsSqrt(sqrt) ==> s.value >= 0.0 && s.value * s.value == VarUnbiased(m).value
  {
    var v := VarUnbiased(m);
    if v.Defined? && v.value >= 0.0 then Defined(sqrt(v.value)) else Undefined
  }

  lemma NonNegQuotient(a: real, d: real, q: real)
    requires a >= 0.0 && d > 0.0 && q * d == a
    ensures q >= 0.0
  {
  }

  /** On the statistics of real data the variance is the sample variance
      sum (x - mean)^2 / (n - 1) >= 0, and the standard deviation exists
      from two observations on. */
  lemma SampleVariance(xs: seq<real>, sqrt: real -> real)
    ensures VarUnbiased(MomentsOf(xs)).Defined? <==> |xs| >= 2
    ensures SdUnbiased(MomentsOf(xs), sqrt).Defined? <==> |xs| >= 2
    ensures |xs| >= 2 ==> VarUnbiased(MomentsOf(xs)).value >= 0.0
    ensures |xs| >= 2 ==> VarUnbiased(MomentsOf(xs)).value == SqDev(xs, Mean(xs)) / ((|xs| - 1) as real)
  {
    var m := MomentsOf(xs);
    SqDevNonNegative(xs, Mean(xs));
    VarianceNonNegative(m, sqrt);
  }

  lemma VarianceNonNegative(m: Moments, sqrt: real -> real)
    requires m.m2 >= 0.0
    ensures SdUnbiased(m, sqrt).Defined? <==> m.n >= 2
    ensures m.n >= 2 ==> VarUnbiased(m).value >= 0.0
  {
    if m.n >= 2 {
      NonNegQuotient(m.m2, (m.n - 1) as real, VarUnbiased(m).value);
    }
  }

  lemma PositiveSquare(d: real)
    requires d != 0.0
    ensures Sq(d) > 0.0
  {
    if d > 0.0 {
      calc {
        Sq(d);
        d * d;
      >
        0.0;
      }
    } else {
      calc {
        Sq(d);
        (-d) * (-d);
      >
        0.0;
      }
    }
  }

  lemma SquareNonNegative(d: real)
    ensures Sq(d) >= 0.0
  {
    if d != 0.0 {
      PositiveSquare(d);
    }
  }

  /** The squared deviation vanishes exactly when every observation equals c. */
  lemma {:induction false} SqDevZeroIff(xs: seq<real>, c: real)
    ensures SqDev(xs, c) == 0.0 <==> forall k :: 0 <= k < |xs| ==> xs[k] == c
  {
    if xs != [] {
      var p := xs[..|xs| - 1];
      var x := xs[|xs| - 1];
      SqDevZeroIff(p, c);
      SqDevNonNegative(p, c);
      if x != c {
        PositiveSquare(x - c);
      }
      assert forall k :: 0 <= k < |p| ==> p[k] == xs[k];
    }
  }

  // ---------------------------------------------------------------------
  // Normal plug-in predictive
  // ---------------------------------------------------------------------

  /** The centre the parametric predictives use: the running mean once there
      is data, 0 before. */
  function Location(m: Moments): (mu: real)
    ensures m.n >= 1 ==> mu == m.mean
    ensures m.n == 0 ==> mu == 0.0
  {
    if m.n >= 1 then m.mean else 0.0
  }

  /** _params: (n, mu, sd) with sd undefined until n >= 2. */
  function NormalParams(m: Moments, sqrt: real -> real): (r: (nat, real, Est))
    ensures r.0 == m.n && r.1 == Location(m)
    ensures r.2.Defined? <==> m.n >= 2 && m.m2 >= 0.0
    ensures r.2.Defined? ==> r.2 == SdUnbiased(m, sqrt)
  {
    (m.n, Location(m), if m.n >= 2 then SdUnbiased(m, sqrt) else Undefined)
  }

  /** The scale the Normal plug-in divides by: sd when usable, else 1. */
  function NormalScale(m: Moments, sqrt: real -> real): (s: real)
    ensures s > 0.0
    ensures m.n < 2 || m.m2 < 0.0 ==> s == 1.0
    ensures IsSqrt(sqrt) && m.n >= 2 && m.m2 == 0.0 ==> s == 1.0
    ensures IsSqrt(sqrt) && m.n >= 2 && m.m2 > 0.0 ==> s * s * ((m.n - 1) as real) == m.m2
  {
    var (n, mu, sd) := NormalParams(m, sqrt);
    if n < 2 || sd.Undefined? || sd.value <= 0.0 then
      assert IsSqrt(sqrt) && m.n >= 2 && m.m2 > 0.0 ==> false by {
        if IsSqrt(sqrt) && m.n >= 2 && m.m2 > 0.0 {
          SdPositive(m, sqrt);
        }
      }
      1.0
    else
      assert IsSqrt(sqrt) && m.n >= 2 && m.m2 == 0.0 ==> false by {
        if IsSqrt(sqrt) && m.n >= 2 && m.m2 == 0.0 {
          SdZero(m, sqrt);
        }
      }
      sd.value
  }

  /** A positive M2 gives a positive standard deviation ... */
  lemma SdPositive(m: Moments, sqrt: real -> real)
    requires IsSqrt(sqrt) && m.n >= 2 && m.m2 > 0.0
    ensures SdUnbiased(m, sqrt).Defined? && SdUnbiased(m, sqrt).value > 0.0
  {
  }

  /** ... and M2 = 0 a zero one. */
  lemma SdZero(m: Moments, sqrt: real -> real)
    requires IsSqrt(sqrt) && m.n >= 2 && m.m2 == 0.0
    ensures SdUnbiased(m, sqrt).Defined? && SdUnbiased(m, sqrt).value == 0.0
  {
    var s := SdUnbiased(m, sqrt).value;
    assert s * s == 0.0;
    if s != 0.0 {
      PositiveSquare(s);
    }
  }

  /** cdf_est of the Normal plug-in predictive. */
  function NormalCdf(m: Moments, t: real, Phi: real -> real, sqrt: real -> real): (c: real)
    ensures c == Phi((t - Location(m)) / NormalScale(m, sqrt))
  {
    var (n, mu, sd) := NormalParams(m, sqrt);
    if n < 2 || sd.Undefined? || sd.value <= 0.0 then Phi((t - mu) / 1.0)
    else Phi((t - mu) / sd.value)
  }

  /** pdf_est of the Normal plug-in predictive: divided by the same scale. */
  function NormalPdf(m: Moments, x: real, phi: real -> real, sqrt: real -> real): (d: real)
    ensures d == phi((x - Location(m)) / NormalScale(m, sqrt)) / NormalScale(m, sqrt)
  {
    var (n, mu, sd) := NormalParams(m, sqrt);
    if n < 2 || sd.Undefined? || sd.value <= 0.0 then phi((x - mu) / 1.0) / 1.0
    else phi((x - mu) / sd.value) / sd.value
  }

  /** On real data the plug-in falls back to unit scale exactly when there
      are fewer than two observations or all observations are equal;
      otherwise its scale squared is the sample variance. */
  lemma NormalFallbackOnData(xs: seq<real>, sqrt: real -> real)
    requires IsSqrt(sqrt)
    ensures (|xs| < 2 || forall k :: 0 <= k < |xs| ==> xs[k] == Mean(xs)) ==> NormalScale(MomentsOf(xs), sqrt) == 1.0
    ensures |xs| >= 2 && (exists k :: 0 <= k < |xs| && xs[k] != Mean(xs)) ==>
              var s := NormalScale(MomentsOf(xs), sqrt);
              s * s * ((|xs| - 1) as real) == SqDev(xs, Mean(xs))
  {
    SqDevZeroIff(xs, Mean(xs));
    SqDevNonNegative(xs, Mean(xs));
  }

  // ---------------------------------------------------------------------
  // Student-t predictive
  // ---------------------------------------------------------------------

  datatype TParams = TParams(n: nat, xbar: real, df: int, scale: Est)

  /** _t_params: df = max(n - 1, 1) and scale = s sqrt(1 + 1/n) when s is finite. */
  function StudentTParams(m: Moments, sqrt: real -> real): (r: TParams)
    ensures r.n == m.n && r.xbar == Location(m)
    ensures r.df >= 1 && (m.n >= 2 ==> r.df == m.n - 1) && (m.n < 2 ==> r.df == 1)
    ensures r.scale.Defined? <==> m.n >= 2 && m.m2 >= 0.0
    ensures r.scale.Defined? && IsSqrt(sqrt) ==>
              r.scale.value >= 0.0
              && r.scale.value * r.scale.value == VarUnbiased(m).value * (1.0 + 1.0 / (m.n as real))
  {
    var s := SdUnbiased(m, sqrt);
    var scale :=
      if m.n >= 1 && s.Defined? then Defined(s.value * sqrt(1.0 + 1.0 / (m.n as real))) else Undefined;
    assert scale.Defined? && IsSqrt(sqrt) ==>
             scale.value >= 0.0
             && scale.value * scale.value == VarUnbiased(m).value * (1.0 + 1.0 / (m.n as real)) by {
      if scale.Defined? && IsSqrt(sqrt) {
        var r := sqrt(1.0 + 1.0 / (m.n as real));
        ProductOfRoots(s.value, r, VarUnbiased(m).value, 1.0 + 1.0 / (m.n as real));
      }
    }
    TParams(m.n, Location(m), MaxInt(m.n - 1, 1), scale)
  }

  lemma ProductOfRoots(a: real, b: real, x: real, y: real)
    requires a >= 0.0 && b >= 0.0 && a * a == x && b * b == y
    ensures a * b >= 0.0 && (a * b) * (a * b) == x * y
  {
  }

  /** The Student-t predictive falls back to a unit normal around xbar. */
  predicate TFallback(p: TParams)
  {
    p.n < 2 || p.scale.Undefined? || p.scale.value <= 0.0
  }

  /** The fallback is taken exactly when n < 2 or M2 <= 0. */
  lemma TFallbackIff(m: Moments, sqrt: real -> real)
    requires IsSqrt(sqrt)
    ensures TFallback(StudentTParams(m, sqrt)) <==> m.n < 2 || m.m2 <= 0.0
  {
    var p := StudentTParams(m, sqrt);
    if m.n >= 2 && m.m2 > 0.0 {
      var v := VarUnbiased(m).value;
      var w := 1.0 + 1.0 / (m.n as real);
      assert v > 0.0 by {
        NonNegQuotient(m.m2, (m.n - 1) as real, v);
      }
      assert w > 0.0;
      PositiveProduct(v, w);
    }
    if m.n >= 2 && m.m2 == 0.0 {
      SdZero(m, sqrt);
    }
  }

  lemma PositiveProduct(a: real, b: real)
    requires a > 0.0 && b > 0.0
    ensures a * b > 0.0
  {
  }

  /** cdf_est of the Student-t predictive. */
  function StudentTCdf(m: Moments, t: real, Phi: real -> real, Tcdf: (real, int) -> real, sqrt: real -> real)
    : (c: real)
    ensures TFallback(StudentTParams(m, sqrt)) ==> c == Phi(t - Location(m))
    ensures !TFallback(StudentTParams(m, sqrt)) ==>
              c == Tcdf((t - m.mean) / StudentTParams(m, sqrt).scale.value, m.n - 1)
  {
    var p := StudentTParams(m, sqrt);
    if p.n < 2 || p.scale.Undefined? || p.scale.value <= 0.0 then Phi(t - p.xbar)
    else Tcdf((t - p.xbar) / p.scale.value, p.df)
  }

  /** pdf_est of the Student-t predictive: the standardised density over scale. */
  function StudentTPdf(m: Moments, x: real, phi: real -> real, Tpdf: (real, int) -> real, sqrt: real -> real)
    : (d: real)
    ensures TFallback(StudentTParams(m, sqrt)) ==> d == phi(x - Location(m))
    ensures !TFallback(StudentTParams(m, sqrt)) ==>
              var s := StudentTParams(m, sqrt).scale.value;
              s > 0.0 && d == Tpdf((x - m.mean) / s, m.n - 1) / s
  {
    var p := StudentTParams(m, sqrt);
    if p.n < 2 || p.scale.Undefined? || p.scale.value <= 0.0 then phi(x - p.xbar)
    else Tpdf((x - p.xbar) / p.scale.value, p.df) / p.scale.value
  }

  // ---------------------------------------------------------------------
  // Polya / Dirichlet-process predictive
  // ---------------------------------------------------------------------

  /** The Polya predictive: concentration alpha, base measure G0 and the
      list of atoms absorbed so far. */
  class PolyaPredictive {
    const alpha: real
    const base: BaseKind
    var atoms: seq<real>

    constructor (alpha: real, base: BaseKind)
      ensures this.alpha == alpha && this.base == base && atoms == []
    {
      this.alpha := alpha;
      this.base := base;
      atoms := [];
    }

    /** update: append the observation to the atoms. */
    method Update(x: real)
      modifies this`atoms
      ensures atoms == old(atoms) + [x]
    {
      atoms := atoms + [x];
    }

    /** cdf_est: (alpha G0(t) + K(t)) / (alpha + number of atoms). */
    function CdfEst(t: real, Phi: real -> real): (r: Result<real>)
      reads this
      ensures r.Err? <==> alpha + (|atoms| as real) == 0.0
      ensures r.Ok? ==> r.value == PolyaCdf(alpha, G0Cdf(base, t, Phi), atoms, t)
    {
      var d := alpha + (|atoms| as real);
      if d == 0.0 then Err("float division by zero")
      else Ok((alpha * G0Cdf(base, t, Phi) + (CountLeq(atoms, t) as real)) / d)
    }

    /** cdf_est on a grid. */
    function CdfEstGrid(ts: seq<real>, Phi: real -> real): (r: Result<seq<real>>)
      reads this
      ensures r == PolyaGrid(alpha, base, atoms, ts, Phi)
    {
      PolyaGrid(alpha, base, atoms, ts, Phi)
    }

    /** pdf_est: the predictive has an atomic part and no density. */
    function PdfEst(x: real): (d: Est)
      ensures d == Undefined
    {
      Undefined
    }

    /** Feed a whole stream, one update per element, in order. */
    method UpdateAll(xs: seq<real>)
      modifies this`atoms
      ensures atoms == old(atoms) + xs
    {
      var i := 0;
      while i < |xs|
        invariant 0 <= i <= |xs|
        invariant atoms == old(atoms) + xs[..i]
      {
        assert xs[..i + 1] == xs[..i] + [xs[i]];
        Update(xs[i]);
        i := i + 1;
      }
      assert xs[..i] == xs;
    }
  }

  /** The Polya predictive on a grid of thresholds. */
  function PolyaGrid(alpha: real, base: BaseKind, atoms: seq<real>, ts: seq<real>, Phi: real -> real)
    : (r: Result<seq<real>>)
    ensures r.Err? <==> ts != [] && alpha + (|atoms| as real) == 0.0
    ensures r.Ok? ==> |r.value| == |ts|
    ensures r.Ok? ==> forall k :: 0 <= k < |ts| ==> r.value[k] == PolyaCdf(alpha, G0Cdf(base, ts[k], Phi), atoms, ts[k])
  {
    if ts != [] && alpha + (|atoms| as real) == 0.0 then Err("float division by zero")
    else Ok(seq(|ts|, k requires 0 <= k < |ts| => PolyaCdf(alpha, G0Cdf(base, ts[k], Phi), atoms, ts[k])))
  }

  /** The grid depends on the atoms only through their multiset. */
  lemma PolyaGridPermutation(alpha: real, base: BaseKind, a: seq<real>, b: seq<real>, ts: seq<real>, Phi: real -> real)
    requires multiset(a) == multiset(b)
    ensures PolyaGrid(alpha, base, a, ts, Phi) == PolyaGrid(alpha, base, b, ts, Phi)
  {
    assert |a| == |multiset(a)| == |multiset(b)| == |b|;
    var ra := PolyaGrid(alpha, base, a, ts, Phi);
    var rb := PolyaGrid(alpha, base, b, ts, Phi);
    if ra.Ok? {
      forall k | 0 <= k < |ts|
        ensures ra.value[k] == rb.value[k]
      {
        PolyaCdfPermutation(alpha, G0Cdf(base, ts[k], Phi), a, b, ts[k]);
      }
      assert ra.value == rb.value;
    }
  }

  /** With a positive concentration the Polya predictive is defined, lies in
      [0,1] and is non-decreasing on any grid. */
  lemma PolyaCdfEstRange(p: PolyaPredictive, s: real, t: real, Phi: real -> real)
    requires p.alpha > 0.0 && (p.base == Normal ==> IsCdf(Phi)) && s <= t
    ensures p.CdfEst(s, Phi).Ok? && p.CdfEst(t, Phi).Ok?
    ensures 0.0 <= p.CdfEst(t, Phi).value <= 1.0
    ensures p.CdfEst(s, Phi).value <= p.CdfEst(t, Phi).value
  {
    G0CdfRange(p.base, t, Phi);
    G0CdfMonotone(p.base, s, t, Phi);
    PolyaCdfMonotone(p.alpha, G0Cdf(p.base, s, Phi), G0Cdf(p.base, t, Phi), p.atoms, s, t);
  }

  function Reverse(xs: seq<real>): (r: seq<real>)
    ensures |r| == |xs|
    ensures forall k :: 0 <= k < |xs| ==> r[k] == xs[|xs| - 1 - k]
  {
    if xs == [] then [] else [xs[|xs| - 1]] + Reverse(xs[..|xs| - 1])
  }

  lemma {:induction false} ReverseMultiset(xs: seq<real>)
    ensures multiset(Reverse(xs)) == multiset(xs)
  {
    if xs != [] {
      var p := xs[..|xs| - 1];
      ReverseMultiset(p);
      assert xs == p + [xs[|xs| - 1]];
    }
  }

  /** Two Polya predictives fed the same observations in forward and in
      reverse order give identical CDF values on every grid. */
  method OrderInvariance(alpha: real, base: BaseKind, xs: seq<real>, ts: seq<real>, Phi: real -> real)
    returns (c1: Result<seq<real>>, c2: Result<seq<real>>)
    ensures c1 == c2
    ensures alpha > 0.0 ==> c1.Ok?
  {
    var m1 := new PolyaPredictive(alpha, base);
    m1.UpdateAll(xs);
    assert m1.atoms == xs;
    c1 := m1.CdfEstGrid(ts, Phi);
    var m2 := new PolyaPredictive(alpha, base);
    m2.UpdateAll(Reverse(xs));
    assert m2.atoms == Reverse(xs);
    c2 := m2.CdfEstGrid(ts, Phi);
    ReverseMultiset(xs);
    PolyaGridPermutation(alpha, base, xs, Reverse(xs), ts, Phi);
  }
}
