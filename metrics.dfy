/** Distances between an estimated and a true CDF on a grid, and the grid itself. */
module Metrics {
  import opened Numerics

  /** max_k |est[k] - tru[k]| over a non-empty grid. */
  function MaxAbsDiff(est: seq<real>, tru: seq<real>): (m: real)
    requires |est| == |tru| > 0
    ensures forall k :: 0 <= k < |est| ==> Abs(est[k] - tru[k]) <= m
    ensures exists k :: 0 <= k < |est| && Abs(est[k] - tru[k]) == m
  {
    var n := |est| - 1;
    var d := Abs(est[n] - tru[n]);
    if n == 0 then d
    else
      var m := MaxAbsDiff(est[..n], tru[..n]);
      assert forall k :: 0 <= k < n ==> est[..n][k] == est[k] && tru[..n][k] == tru[k];
      MaxReal(m, d)
  }

  /** d_infty: the sup-norm distance; numpy's max raises on an empty grid. */
  function DInfty(est: seq<real>, tru: seq<real>): (r: Result<real>)
    requires |est| == |tru|
    ensures r.Err? <==> |est| == 0
    ensures r.Ok? ==> r.value >= 0.0
    ensures r.Ok? ==> forall k :: 0 <= k < |est| ==> Abs(est[k] - tru[k]) <= r.value
    ensures r.Ok? ==> exists k :: 0 <= k < |est| && Abs(est[k] - tru[k]) == r.value
  {
    if |est| == 0 then Err("zero-size array to reduction operation maximum")
    else Ok(MaxAbsDiff(est, tru))
  }

  /** d_infty is symmetric in its two arguments. */
  lemma DInftySymmetric(est: seq<real>, tru: seq<real>)
    requires |est| == |tru|
    ensures DInfty(est, tru) == DInfty(tru, est)
  {
    if |est| > 0 {
      MaxAbsDiffSymmetric(est, tru);
    }
  }

  lemma {:induction false} MaxAbsDiffSymmetric(est: seq<real>, tru: seq<real>)
    requires |est| == |tru| > 0
    ensures MaxAbsDiff(est, tru) == MaxAbsDiff(tru, est)
  {
    var n := |est| - 1;
    assert Abs(est[n] - tru[n]) == Abs(tru[n] - est[n]);
    if n > 0 {
      MaxAbsDiffSymmetric(est[..n], tru[..n]);
    }
  }

  /** d_infty vanishes exactly when the two curves agree at every grid point. */
  lemma DInftyZeroIff(est: seq<real>, tru: seq<real>)
    requires |est| == |tru| > 0
    ensures DInfty(est, tru).value == 0.0 <==> est == tru
  {
    if DInfty(est, tru).value == 0.0 {
      forall k | 0 <= k < |est| ensures est[k] == tru[k] {
        assert Abs(est[k] - tru[k]) <= 0.0;
      }
    }
  }

  /** sum_k (est[k] - tru[k])^2 */
  function SumSqDiff(est: seq<real>, tru: seq<real>): (s: real)
    requires |est| == |tru|
    ensures s >= 0.0
  {
    if est == [] then 0.0
    else
      var n := |est| - 1;
      SumSqDiff(est[..n], tru[..n]) + Sq(est[n] - tru[n])
  }

  /** numpy.mean of the squared differences; NaN on an empty grid. */
  function MeanSquare(est: seq<real>, tru: seq<real>): (r: Est)
    requires |est| == |tru|
    ensures r.Undefined? <==> |est| == 0
    ensures r.Defined? ==> r.value >= 0.0
  {
    if |est| == 0 then Undefined else Defined(SumSqDiff(est, tru) / (|est| as real))
  }

  /** The mean square times the grid size is the sum of squared differences. */
  lemma MeanSquareTimesLength(est: seq<real>, tru: seq<real>)
    requires |est| == |tru| > 0
    ensures MeanSquare(est, tru).value * (|est| as real) == SumSqDiff(est, tru)
  {
  }

  /** d_rmse: the square root of the mean square difference. */
  function DRmse(est: seq<real>, tru: seq<real>, sqrt: real -> real): (r: Est)
    requires |est| == |tru|
    ensures r.Undefined? <==> |est| == 0
    ensures r.Defined? && IsSqrt(sqrt) ==> r.value >= 0.0 && r.value * r.value == MeanSquare(est, tru).value
  {
    match MeanSquare(est, tru)
    case Undefined => Undefined
    case Defined(ms) => Defined(sqrt(ms))
  }

  lemma SquareBelow(d: real, m: real)
    requires Abs(d) <= m
    ensures Sq(d) <= m * m
  {
    assert Sq(d) == Abs(d) * Abs(d);
    assert Abs(d) * Abs(d) <= m * Abs(d);
    assert m * Abs(d) <= m * m;
  }

  lemma {:induction false} SumSqDiffBound(est: seq<real>, tru: seq<real>, b: real)
    requires |est| == |tru|
    requires forall k :: 0 <= k < |est| ==> Sq(est[k] - tru[k]) <= b
    ensures SumSqDiff(est, tru) <= (|est| as real) * b
  {
    if est != [] {
      var n := |est| - 1;
      SumSqDiffBound(est[..n], tru[..n], b);
      BoundStep(SumSqDiff(est[..n], tru[..n]), Sq(est[n] - tru[n]), n, b);
    }
  }

  /** s <= n q and e <= q give s + e <= (n + 1) q. */
  lemma BoundStep(s: real, e: real, n: nat, q: real)
    requires s <= (n as real) * q && e <= q
    ensures s + e <= ((n + 1) as real) * q
  {
  }

  /** The mean square error never exceeds the square of any bound on the differences. */
  lemma MeanSquareBelow(est: seq<real>, tru: seq<real>, m: real)
    requires |est| == |tru| > 0
    requires forall k :: 0 <= k < |est| ==> Abs(est[k] - tru[k]) <= m
    ensures MeanSquare(est, tru).value <= Sq(m)
  {
    forall k | 0 <= k < |est|
      ensures Sq(est[k] - tru[k]) <= m * m
    {
      SquareBelow(est[k] - tru[k], m);
    }
    SumSqDiffBound(est, tru, m * m);
    MeanSquareTimesLength(est, tru);
    MeanBelow(SumSqDiff(est, tru), MeanSquare(est, tru).value, |est| as real, m * m);
  }

  /** In particular it never exceeds the squared sup-norm distance. */
  lemma MeanSquareBelowDInfty(est: seq<real>, tru: seq<real>)
    requires |est| == |tru| > 0
    ensures MeanSquare(est, tru).value <= Sq(DInfty(est, tru).value)
  {
    var d := DInfty(est, tru).value;
    assert forall k :: 0 <= k < |est| ==> Abs(est[k] - tru[k]) <= d;
    MeanSquareBelow(est, tru, d);
  }

  /** A mean ms = s / n of a sum s <= n * b is at most b. */
  lemma MeanBelow(s: real, ms: real, n: real, b: real)
    requires n > 0.0 && ms * n == s && s <= n * b
    ensures ms <= b
  {
    if ms > b {
      MulPositive(ms - b, n);
    }
  }

  lemma MulPositive(x: real, y: real)
    requires x > 0.0 && y > 0.0
    ensures x * y > 0.0
  {
  }

  lemma SquareMonotone(r: real, m: real)
    requires 0.0 <= m < r
    ensures m * m < r * r
  {
    MulPositive(r - m, r + m);
  }

  lemma RootBelow(r: real, m: real, ms: real)
    requires r >= 0.0 && m >= 0.0 && r * r == ms && ms <= Sq(m)
    ensures r <= m
  {
    if r > m {
      SquareMonotone(r, m);
    }
  }

  /** Hence d_rmse <= d_infty. */
  lemma DRmseBelowDInfty(est: seq<real>, tru: seq<real>, sqrt: real -> real)
    requires |est| == |tru| > 0
    requires IsSqrt(sqrt)
    ensures DRmse(est, tru, sqrt).value <= DInfty(est, tru).value
  {
    MeanSquareBelowDInfty(est, tru);
    var r := DRmse(est, tru, sqrt).value;
    var m := DInfty(est, tru).value;
    RootBelow(r, m, MeanSquare(est, tru).value);
  }

  /** numpy.linspace(tmin, tmax, J) with the endpoint included. */
  function MakeGrid(J: int, tmin: real, tmax: real): (r: Result<seq<real>>)
    ensures r.Err? <==> J < 0
    ensures r.Ok? ==> |r.value| == J
    ensures r.Ok? && J >= 1 ==> r.value[0] == tmin
    ensures r.Ok? && J >= 2 ==> r.value[J - 1] == tmax
    ensures r.Ok? && J >= 2 ==> forall k :: 0 <= k < J - 1 ==>
              r.value[k + 1] - r.value[k] == (tmax - tmin) / ((J - 1) as real)
  {
    if J < 0 then Err("Number of samples must be non-negative")
    else if J == 0 then Ok([])
    else if J == 1 then Ok([tmin])
    else
      var step := (tmax - tmin) / ((J - 1) as real);
      var g := seq(J, k requires 0 <= k < J => if k == J - 1 then tmax else tmin + (k as real) * step);
      assert ((J - 1) as real) * step == tmax - tmin;
      assert forall k :: 0 <= k < J - 1 ==> g[k + 1] - g[k] == step;
      Ok(g)
  }

  /** With tmin <= tmax the grid is non-decreasing. */
  lemma MakeGridSorted(J: int, tmin: real, tmax: real, i: nat, j: nat)
    requires J >= 0 && tmin <= tmax && i <= j < J
    ensures MakeGrid(J, tmin, tmax).value[i] <= MakeGrid(J, tmin, tmax).value[j]
  {
    var g := MakeGrid(J, tmin, tmax).value;
    if J >= 2 {
      var step := (tmax - tmin) / ((J - 1) as real);
      assert step >= 0.0;
      var k := i;
      while k < j
        invariant i <= k <= j
        invariant g[i] <= g[k]
      {
        assert g[k + 1] - g[k] == step;
        k := k + 1;
      }
    }
  }
}
