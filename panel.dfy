/** examples/polya_panel.py: Beta draws for the random probability
    P((-inf, t]) under the Polya urn, seen through the binary indicator urn
    "did draw i land at or below t". A prior draw is Beta(alpha p0,
    alpha (1 - p0)) with p0 = G0(t); a posterior draw first runs the indicator
    urn for n steps and then draws from Beta(alpha p0 + K, alpha (1 - p0) + n - K).

    Randomness is explicit: `us` holds the uniforms rng.random() of the urn
    steps, one sequence per repetition, and `vs` the random input handed to the
    Beta sampler `beta(a, b, v)`, which is a parameter of the model. */
module Panel {
  import opened Numerics
  import opened DpPredictive

  /** The sampler draws into [0,1] whenever both shapes are positive. */
  ghost predicate BetaInUnit(beta: (real, real, real) -> real)
  {
    forall a: real, b: real, v: real :: a > 0.0 && b > 0.0 ==> 0.0 <= beta(a, b, v) <= 1.0
  }

  lemma BetaDrawInUnit(beta: (real, real, real) -> real, a: real, b: real, v: real)
    requires BetaInUnit(beta) && a > 0.0 && b > 0.0
    ensures 0.0 <= beta(a, b, v) <= 1.0
  {
  }

  // ---------------------------------------------------------------------
  // Prior
  // ---------------------------------------------------------------------

  /** (a0, b0) = (alpha p0, alpha (1 - p0)): the shapes add up to alpha and
      the prior mean a0 / (a0 + b0) is p0. */
  function PriorParams(alpha: real, p0: real): (ab: (real, real))
    ensures ab.0 + ab.1 == alpha
    ensures alpha != 0.0 ==> ab.0 / (ab.0 + ab.1) == p0
    ensures alpha >= 0.0 && 0.0 <= p0 <= 1.0 ==> ab.0 >= 0.0 && ab.1 >= 0.0
    ensures alpha > 0.0 && 0.0 < p0 < 1.0 ==> ab.0 > 0.0 && ab.1 > 0.0
  {
    var a0 := alpha * p0;
    var b0 := alpha * (1.0 - p0);
    PriorShapeFacts(alpha, p0);
    assert a0 + b0 == alpha;
    assert alpha != 0.0 ==> a0 / (a0 + b0) == a0 / alpha;
    (a0, b0)
  }

  lemma PriorShapeFacts(alpha: real, p0: real)
    ensures alpha * p0 + alpha * (1.0 - p0) == alpha
    ensures alpha != 0.0 ==> (alpha * p0) / alpha == p0
    ensures alpha >= 0.0 && 0.0 <= p0 <= 1.0 ==> alpha * p0 >= 0.0 && alpha * (1.0 - p0) >= 0.0
    ensures alpha > 0.0 && 0.0 < p0 < 1.0 ==> alpha * p0 > 0.0 && alpha * (1.0 - p0) > 0.0
  {
    assert alpha * (1.0 - p0) == alpha - alpha * p0;
    if alpha != 0.0 {
      CancelScale(alpha, p0);
    }
    if alpha >= 0.0 && 0.0 <= p0 <= 1.0 {
      NonNegProduct(alpha, p0);
      NonNegProduct(alpha, 1.0 - p0);
    }
    if alpha > 0.0 && 0.0 < p0 < 1.0 {
      PositiveProduct(alpha, p0);
      PositiveProduct(alpha, 1.0 - p0);
    }
  }

  /** draw_prior_samples: reps draws from the prior Beta law; numpy refuses a
      negative size. */
  function DrawPriorSamples(alpha: real, p0: real, reps: int, vs: seq<real>,
                            beta: (real, real, real) -> real): (r: Result<seq<real>>)
    requires |vs| == MaxInt(reps, 0)
    ensures r.Ok? <==> reps >= 0
    ensures r.Ok? ==> |r.value| == reps
    ensures r.Ok? ==> forall k :: 0 <= k < reps ==>
              r.value[k] == beta(PriorParams(alpha, p0).0, PriorParams(alpha, p0).1, vs[k])
    ensures r.Ok? && BetaInUnit(beta) && alpha > 0.0 && 0.0 < p0 < 1.0 ==>
              forall k :: 0 <= k < reps ==> 0.0 <= r.value[k] <= 1.0
  {
    if reps < 0 then Err("negative dimensions are not allowed")
    else
      var ab := PriorParams(alpha, p0);
      var draws := seq(reps, k requires 0 <= k < reps => beta(ab.0, ab.1, vs[k]));
      assert BetaInUnit(beta) && ab.0 > 0.0 && ab.1 > 0.0 ==> forall k :: 0 <= k < reps ==> 0.0 <= draws[k] <= 1.0 by {
        if BetaInUnit(beta) && ab.0 > 0.0 && ab.1 > 0.0 {
          forall k | 0 <= k < reps {
            BetaDrawInUnit(beta, ab.0, ab.1, vs[k]);
          }
        }
      }
      Ok(draws)
  }

  // ---------------------------------------------------------------------
  // The indicator urn
  // ---------------------------------------------------------------------

  /** p_i = (alpha p0 + K) / (alpha + i - 1): the chance that step i lands at
      or below t after K of the first i - 1 steps did. */
  function UrnProb(alpha: real, p0: real, K: nat, i: nat): (p: real)
    requires i >= 1 && alpha + ((i - 1) as real) != 0.0
    ensures alpha > 0.0 && 0.0 <= p0 <= 1.0 && K <= i - 1 ==> 0.0 <= p <= 1.0
  {
    var num := alpha * p0 + (K as real);
    var den := alpha + ((i - 1) as real);
    if alpha > 0.0 && 0.0 <= p0 <= 1.0 && K <= i - 1 then
      ScaleMonotone(alpha, p0, 1.0);
      NonNegProduct(alpha, p0);
      FractionInUnit(num, den);
      num / den
    else
      num / den
  }

  /** The indicator urn is the Polya predictive read at t: any i - 1 atoms of
      which K lie at or below t give p_i as their predictive CDF at t. */
  lemma UrnProbIsPredictive(alpha: real, p0: real, atoms: seq<real>, t: real)
    requires alpha + (|atoms| as real) != 0.0
    ensures UrnProb(alpha, p0, CountLeq(atoms, t), |atoms| + 1) == PolyaCdf(alpha, p0, atoms, t)
  {
    assert ((|atoms| + 1 - 1) as real) == |atoms| as real;
  }

  /** K after the urn has consumed the uniforms us, one per step; a step whose
      denominator alpha + i - 1 is zero raises. */
  function UrnCount(alpha: real, p0: real, us: seq<real>): (r: Result<nat>)
    ensures r.Ok? <==> DenomsNonZero(alpha, |us| - 1)
    ensures r.Ok? ==> r.value <= |us|
    decreases |us|
  {
    if us == [] then Ok(0)
    else
      var i := |us|;
      var prev := UrnCount(alpha, p0, us[..i - 1]);
      if prev.Err? then prev
      else if alpha + ((i - 1) as real) == 0.0 then
        assert Denom(alpha, i - 1) == 0.0;
        Err("float division by zero")
      else
        DenomsNonZeroExtend(alpha, i - 2);
        Ok(prev.value + Indicator(us[i - 1] < UrnProb(alpha, p0, prev.value, i)))
  }

  /** Each step adds 0 or 1 to K: 1 exactly when its uniform falls below p_i. */
  lemma {:induction false} UrnCountStep(alpha: real, p0: real, us: seq<real>, u: real)
    requires DenomsNonZero(alpha, |us|)
    ensures UrnCount(alpha, p0, us + [u]).Ok? && UrnCount(alpha, p0, us).Ok?
    ensures UrnCount(alpha, p0, us + [u]).value - UrnCount(alpha, p0, us).value
            == Indicator(u < UrnProb(alpha, p0, UrnCount(alpha, p0, us).value, |us| + 1))
  {
    assert (us + [u])[..|us|] == us;
    assert Denom(alpha, |us|) != 0.0;
  }

  /** Along a positive-alpha run every p_i lies in [0,1]. */
  lemma UrnProbsInUnit(alpha: real, p0: real, us: seq<real>)
    requires alpha > 0.0 && 0.0 <= p0 <= 1.0
    ensures UrnCount(alpha, p0, us).Ok?
    ensures 0.0 <= UrnProb(alpha, p0, UrnCount(alpha, p0, us).value, |us| + 1) <= 1.0
  {
    DenomsNonZeroPositive(alpha, |us| - 1);
  }

  /** The inner loop of draw_posterior_samples: K over steps i = 1 .. n. */
  method PosteriorCount(alpha: real, p0: real, n: int, us: seq<real>) returns (r: Result<nat>)
    requires |us| == MaxInt(n, 0)
    ensures r == UrnCount(alpha, p0, us)
    ensures r.Ok? ==> r.value <= MaxInt(n, 0)
  {
    var K: nat := 0;
    var i := 1;
    while i <= n
      invariant 1 <= i <= |us| + 1
      invariant UrnCount(alpha, p0, us[..i - 1]) == Ok(K)
    {
      if alpha + ((i - 1) as real) == 0.0 {
        UrnCountErrExtends(alpha, p0, us, i);
        return Err("float division by zero");
      }
      var p := UrnProb(alpha, p0, K, i);
      assert us[..i][..i - 1] == us[..i - 1];
      K := K + Indicator(us[i - 1] < p);
      i := i + 1;
    }
    assert us[..i - 1] == us;
    return Ok(K);
  }

  /** A zero denominator at step i makes the whole run fail with the same error. */
  lemma {:induction false} UrnCountErrExtends(alpha: real, p0: real, us: seq<real>, i: nat)
    requires 1 <= i <= |us| && alpha + ((i - 1) as real) == 0.0
    requires UrnCount(alpha, p0, us[..i - 1]).Ok?
    ensures UrnCount(alpha, p0, us) == Err("float division by zero")
    decreases |us|
  {
    if |us| == i {
      assert us[..i - 1] == us[..|us| - 1];
    } else {
      var front := us[..|us| - 1];
      assert front[..i - 1] == us[..i - 1];
      UrnCountErrExtends(alpha, p0, front, i);
    }
  }

  // ---------------------------------------------------------------------
  // Posterior
  // ---------------------------------------------------------------------

  /** (a_post, b_post) = (alpha p0 + K, alpha (1 - p0) + (n - K)). */
  function PosteriorParams(alpha: real, p0: real, n: int, K: nat): (ab: (real, real))
    ensures ab.0 + ab.1 == alpha + (n as real)
    ensures alpha >= 0.0 && 0.0 <= p0 <= 1.0 && K <= n ==> ab.0 >= 0.0 && ab.1 >= 0.0
    ensures alpha > 0.0 && 0.0 < p0 < 1.0 && K <= n ==> ab.0 > 0.0 && ab.1 > 0.0
  {
    var ab0 := PriorParams(alpha, p0);
    (ab0.0 + (K as real), ab0.1 + ((n - K) as real))
  }

  /** The posterior shapes are the prior shapes plus the K hits and the n - K misses. */
  lemma PosteriorUpdatesPrior(alpha: real, p0: real, n: int, K: nat)
    ensures PosteriorParams(alpha, p0, n, K).0 == PriorParams(alpha, p0).0 + (K as real)
    ensures PosteriorParams(alpha, p0, n, K).1 == PriorParams(alpha, p0).1 + ((n - K) as real)
  {
  }

  lemma PositiveProduct(x: real, y: real)
    requires x > 0.0 && y > 0.0
    ensures x * y > 0.0
  {
  }

  /** The posterior mean a / (a + b) is the predictive p_{n+1} of the next step. */
  lemma PosteriorMeanIsNextProb(alpha: real, p0: real, n: nat, K: nat)
    requires alpha + (n as real) != 0.0
    ensures PosteriorParams(alpha, p0, n, K).0 / (PosteriorParams(alpha, p0, n, K).0 + PosteriorParams(alpha, p0, n, K).1)
            == UrnProb(alpha, p0, K, n + 1)
  {
    assert ((n + 1 - 1) as real) == n as real;
  }

  /** One posterior draw: run the urn on us, then sample Beta(a_post, b_post) with v. */
  function PosteriorDraw(alpha: real, p0: real, n: int, us: seq<real>, v: real,
                         beta: (real, real, real) -> real): (d: real)
    requires |us| == MaxInt(n, 0) && DenomsNonZero(alpha, n - 1)
    ensures BetaInUnit(beta) && alpha > 0.0 && 0.0 < p0 < 1.0 && n >= 0 ==> 0.0 <= d <= 1.0
  {
    var K := UrnCount(alpha, p0, us).value;
    var ab := PosteriorParams(alpha, p0, n, K);
    beta(ab.0, ab.1, v)
  }

  /** draw_posterior_samples: fills draws[r] rep by rep. np.empty refuses a
      negative size, and the first repetition raises on a zero denominator. */
  method DrawPosteriorSamples(alpha: real, p0: real, n: int, reps: int, us: seq<seq<real>>, vs: seq<real>,
                              beta: (real, real, real) -> real)
    returns (r: Result<array<real>>)
    requires |us| == MaxInt(reps, 0) && |vs| == MaxInt(reps, 0)
    requires forall k :: 0 <= k < |us| ==> |us[k]| == MaxInt(n, 0)
    ensures r.Ok? <==> reps >= 0 && (reps == 0 || DenomsNonZero(alpha, n - 1))
    ensures r.Ok? ==> fresh(r.value) && r.value.Length == reps
    ensures r.Ok? ==> forall k :: 0 <= k < reps ==>
              r.value[k] == PosteriorDraw(alpha, p0, n, us[k], vs[k], beta)
  {
    if reps < 0 {
      return Err("negative dimensions are not allowed");
    }
    var draws := new real[reps];
    var k := 0;
    while k < reps
      invariant 0 <= k <= reps
      invariant k > 0 ==> DenomsNonZero(alpha, n - 1)
      invariant forall q :: 0 <= q < k ==> draws[q] == PosteriorDraw(alpha, p0, n, us[q], vs[q], beta)
    {
      var K := PosteriorCount(alpha, p0, n, us[k]);
      if K.Err? {
        return Err(K.msg);
      }
      var ab := PosteriorParams(alpha, p0, n, K.value);
      draws[k] := beta(ab.0, ab.1, vs[k]);
      k := k + 1;
    }
    return Ok(draws);
  }
}
