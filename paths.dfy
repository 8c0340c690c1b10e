/** log_predictive_paths.run_once: one urn stream x_1 .. x_n, then the path
    m |-> P_m(t) of the predictive CDF for a few thresholds t, logged as rows
    (m, t, P_m(t)) ordered by m and then by t.

    The code as written evaluates P_m(t) = (alpha t + K_m(t)) / (alpha + m),
    with t itself in place of G0(t). `RunOnceWith` is the shared loop, taking
    the value g0(t) used for G0(t) as a parameter: `RunOnce` is the code as
    written (g0(t) = t) and `RunOnceCorrected` uses the base CDF. */
module Paths {
  import opened Numerics
  import opened BaseMeasure
  import opened DpPredictive
  import Urn

  /** A row (m, t, Pm). */
  datatype PathRow = PathRow(m: nat, t: real, pm: real)

  /** The rows of step m: (m, t, P_m(t)) for each t of ts, in order, where
      P_m is the predictive after xs[..m] with g0(t) standing for G0(t). */
  function PathBlock(alpha: real, g0: real -> real, xs: seq<real>, m: nat, ts: seq<real>): (rows: seq<PathRow>)
    requires m <= |xs| && (ts == [] || Denom(alpha, m) != 0.0)
    ensures |rows| == |ts|
    ensures forall j :: 0 <= j < |ts| ==>
              rows[j] == PathRow(m, ts[j], PolyaCdf(alpha, g0(ts[j]), xs[..m], ts[j]))
  {
    seq(|ts|, j requires 0 <= j < |ts| => PathRow(m, ts[j], PolyaCdf(alpha, g0(ts[j]), xs[..m], ts[j])))
  }

  /** The division by alpha + m never meets zero for m = 1 .. n (or there is
      no threshold, and no division happens). */
  predicate PathsDefined(alpha: real, n: int, ts: seq<real>)
  {
    ts == [] || forall m :: 1 <= m <= n ==> Denom(alpha, m) != 0.0
  }

  /** The blocks of steps 1 .. s. */
  function PathBlocks(alpha: real, g0: real -> real, xs: seq<real>, s: nat, ts: seq<real>)
    : (bs: seq<seq<PathRow>>)
    requires s <= |xs| && PathsDefined(alpha, s, ts)
    ensures |bs| == s
    ensures forall b :: 0 <= b < s ==> bs[b] == PathBlock(alpha, g0, xs, b + 1, ts)
  {
    if s == 0 then [] else PathBlocks(alpha, g0, xs, s - 1, ts) + [PathBlock(alpha, g0, xs, s, ts)]
  }

  /** run_once(n, alpha, ts, seed, base) with P_m(t) evaluated with g0(t)
      for G0(t). x0 is the first variate of the local generator; coins[k]
      drives the urn draw model.Pn(k + 1, xs). */
  method RunOnceWith(n: int, alpha: real, ts: seq<real>, base: string, x0: real, coins: seq<Urn.Coin>,
                     g0: real -> real)
    returns (r: Result<(seq<real>, seq<PathRow>)>)
    requires |coins| == MaxInt(n - 1, 0) && Urn.CoinsFit(coins, 1)
    ensures r.Ok? <==> Urn.Extend(Urn.PolyaSequenceModel(alpha, base), [x0], coins).Ok? && PathsDefined(alpha, n, ts)
    ensures r.Ok? ==> r.value.0 == Urn.Extend(Urn.PolyaSequenceModel(alpha, base), [x0], coins).value
    ensures r.Ok? ==> |r.value.0| == MaxInt(n, 1) && r.value.0[0] == x0
    ensures r.Ok? ==> r.value.1 == Flatten(PathBlocks(alpha, g0, r.value.0, MaxInt(n, 0), ts))
  {
    var model := Urn.PolyaSequenceModel(alpha, base);
    var xs := Urn.ContinueUrnOnce([x0], model, n, coins);
    if xs.Err? {
      return Err(xs.msg);
    }
    var rows := PathRows(alpha, g0, xs.value, n, ts);
    if rows.Err? {
      return Err(rows.msg);
    }
    return Ok((xs.value, rows.value));
  }

  /** run_once as written: P_m(t) = (alpha t + K_m(t)) / (alpha + m). */
  method RunOnce(n: int, alpha: real, ts: seq<real>, base: string, x0: real, coins: seq<Urn.Coin>)
    returns (r: Result<(seq<real>, seq<PathRow>)>)
    requires |coins| == MaxInt(n - 1, 0) && Urn.CoinsFit(coins, 1)
    ensures r.Ok? <==> Urn.Extend(Urn.PolyaSequenceModel(alpha, base), [x0], coins).Ok? && PathsDefined(alpha, n, ts)
    ensures r.Ok? ==> |r.value.0| == MaxInt(n, 1) && r.value.0[0] == x0
    ensures r.Ok? ==> r.value.1 == Flatten(PathBlocks(alpha, IdentityG0(), r.value.0, MaxInt(n, 0), ts))
  {
    r := RunOnceWith(n, alpha, ts, base, x0, coins, IdentityG0());
  }

  /** run_once with the base CDF: P_m(t) = (alpha G0(t) + K_m(t)) / (alpha + m). */
  method RunOnceCorrected(n: int, alpha: real, ts: seq<real>, base: BaseKind, x0: real, coins: seq<Urn.Coin>,
                          Phi: real -> real)
    returns (r: Result<(seq<real>, seq<PathRow>)>)
    requires |coins| == MaxInt(n - 1, 0) && Urn.CoinsFit(coins, 1)
    ensures alpha > 0.0 ==> r.Ok?
    ensures r.Ok? <==> Urn.Extend(Urn.PolyaSequenceModel(alpha, BaseName(base)), [x0], coins).Ok? && PathsDefined(alpha, n, ts)
    ensures r.Ok? ==> |r.value.0| == MaxInt(n, 1) && r.value.0[0] == x0
    ensures r.Ok? ==> r.value.1 == Flatten(PathBlocks(alpha, BaseG0(base, Phi), r.value.0, MaxInt(n, 0), ts))
  {
    if alpha > 0.0 {
      Urn.ExtendOk(Urn.PolyaSequenceModel(alpha, BaseName(base)), [x0], coins);
    }
    r := RunOnceWith(n, alpha, ts, BaseName(base), x0, coins, BaseG0(base, Phi));
  }

  /** The value the code as written uses for G0(t): t itself. */
  function IdentityG0(): (g: real -> real)
    ensures forall t :: g(t) == t
  {
    t => t
  }

  /** G0(t) of the selected base. */
  function BaseG0(base: BaseKind, Phi: real -> real): (g: real -> real)
    ensures forall t :: g(t) == G0Cdf(base, t, Phi)
  {
    t => G0Cdf(base, t, Phi)
  }

  /** The nested loops of run_once over m = 1 .. n. */
  method PathRows(alpha: real, g0: real -> real, xs: seq<real>, n: int, ts: seq<real>)
    returns (r: Result<seq<PathRow>>)
    requires MaxInt(n, 0) <= |xs|
    ensures r.Ok? <==> PathsDefined(alpha, n, ts)
    ensures r.Ok? ==> r.value == Flatten(PathBlocks(alpha, g0, xs, MaxInt(n, 0), ts))
  {
    r := StepsRows(alpha, g0, xs, MaxInt(n, 0), ts);
  }

  /** The outer loop over m = 1 .. n, with n already clipped at zero. */
  method StepsRows(alpha: real, g0: real -> real, xs: seq<real>, n: nat, ts: seq<real>)
    returns (r: Result<seq<PathRow>>)
    requires n <= |xs|
    ensures r.Ok? <==> PathsDefined(alpha, n, ts)
    ensures r.Ok? ==> r.value == Flatten(PathBlocks(alpha, g0, xs, n, ts))
  {
    var rows: seq<PathRow> := [];
    var m := 1;
    while m <= n
      invariant 1 <= m <= n + 1
      invariant PathsDefined(alpha, m - 1, ts)
      invariant rows == Flatten(PathBlocks(alpha, g0, xs, m - 1, ts))
    {
      var block := StepRows(alpha, g0, xs, m, ts);
      if block.Err? {
        return Err(block.msg);
      }
      PathBlocksSnoc(alpha, g0, xs, m, ts);
      rows := rows + block.value;
      m := m + 1;
    }
    return Ok(rows);
  }

  /** One pass of the outer loop: Km[t] for every t, then one row per t. */
  method StepRows(alpha: real, g0: real -> real, xs: seq<real>, m: nat, ts: seq<real>)
    returns (r: Result<seq<PathRow>>)
    requires 1 <= m <= |xs|
    ensures r.Err? <==> ts != [] && Denom(alpha, m) == 0.0
    ensures r.Ok? ==> r.value == PathBlock(alpha, g0, xs, m, ts)
  {
    var Km := CountAtoms(xs, m, ts);
    var block: seq<PathRow> := [];
    var j := 0;
    while j < |ts|
      invariant 0 <= j <= |ts| && |block| == j
      invariant j > 0 ==> Denom(alpha, m) != 0.0
      invariant forall q :: 0 <= q < j ==> block[q] == PathRow(m, ts[q], PolyaCdf(alpha, g0(ts[q]), xs[..m], ts[q]))
    {
      var t := ts[j];
      assert t in ts;
      if alpha + (m as real) == 0.0 {
        return Err("float division by zero");
      }
      var pm := (alpha * g0(t) + (Km[t] as real)) / (alpha + (m as real));
      block := block + [PathRow(m, t, pm)];
      j := j + 1;
    }
    return Ok(block);
  }

  /** The first inner loop: Km[t] = #{k < m : xs[k] <= t} for each t of ts. */
  method CountAtoms(xs: seq<real>, m: nat, ts: seq<real>) returns (Km: map<real, nat>)
    requires m <= |xs|
    ensures forall t :: t in Km <==> t in ts
    ensures forall t :: t in Km ==> Km[t] == CountLeq(xs[..m], t) <= m
  {
    Km := map[];
    var j := 0;
    while j < |ts|
      invariant 0 <= j <= |ts|
      invariant forall t :: t in Km <==> t in ts[..j]
      invariant forall t :: t in Km ==> Km[t] == CountLeq(xs[..m], t)
    {
      PrefixSnoc(ts, j);
      Km := Km[ts[j] := CountLeq(xs[..m], ts[j])];
      j := j + 1;
    }
    assert ts[..j] == ts;
  }

  /** The table after step s is the table after step s - 1 followed by the
      rows of step s. */
  lemma PathBlocksSnoc(alpha: real, g0: real -> real, xs: seq<real>, s: nat, ts: seq<real>)
    requires 1 <= s <= |xs| && PathsDefined(alpha, s, ts)
    ensures PathsDefined(alpha, s - 1, ts)
    ensures Flatten(PathBlocks(alpha, g0, xs, s, ts))
         == Flatten(PathBlocks(alpha, g0, xs, s - 1, ts)) + PathBlock(alpha, g0, xs, s, ts)
  {
    var bs := PathBlocks(alpha, g0, xs, s, ts);
    assert bs[..s - 1] == PathBlocks(alpha, g0, xs, s - 1, ts);
  }

  /** Every block holds one row per threshold. */
  lemma PathBlockSizes(alpha: real, g0: real -> real, xs: seq<real>, s: nat, ts: seq<real>)
    requires s <= |xs| && PathsDefined(alpha, s, ts)
    ensures var bs := PathBlocks(alpha, g0, xs, s, ts);
            forall i :: 0 <= i < |bs| ==> |bs[i]| == |ts|
  {
  }

  /** The table has n |ts| rows. */
  lemma PathRowsLength(alpha: real, g0: real -> real, xs: seq<real>, s: nat, ts: seq<real>)
    requires s <= |xs| && PathsDefined(alpha, s, ts)
    ensures |Flatten(PathBlocks(alpha, g0, xs, s, ts))| == s * |ts|
  {
    PathBlockSizes(alpha, g0, xs, s, ts);
    FlattenUniformLength(PathBlocks(alpha, g0, xs, s, ts), |ts|);
  }

  /** The table is ordered by m and then by t: row b |ts| + j is
      (b + 1, ts[j], P_{b+1}(ts[j])), from the first b + 1 atoms. */
  lemma PathRowEntry(alpha: real, g0: real -> real, xs: seq<real>, s: nat, ts: seq<real>, b: nat, j: nat)
    requires s <= |xs| && PathsDefined(alpha, s, ts)
    requires b < s && j < |ts|
    ensures b * |ts| + j < |Flatten(PathBlocks(alpha, g0, xs, s, ts))| && Denom(alpha, b + 1) != 0.0
    ensures RowAt(Flatten(PathBlocks(alpha, g0, xs, s, ts)), |ts|, b, j)
              == PathRow(b + 1, ts[j], PolyaCdf(alpha, g0(ts[j]), xs[..b + 1], ts[j]))
  {
    var bs := PathBlocks(alpha, g0, xs, s, ts);
    PathBlockSizes(alpha, g0, xs, s, ts);
    FlattenUniformAt(bs, |ts|, b, j);
    assert bs[b] == PathBlock(alpha, g0, xs, b + 1, ts);
  }

  /** K_m(t) <= m, and one more atom raises it by 0 or 1. */
  lemma KmBounds(xs: seq<real>, m: nat, t: real)
    requires 1 <= m < |xs|
    ensures CountLeq(xs[..m], t) <= m
    ensures CountLeq(xs[..m], t) <= CountLeq(xs[..m + 1], t) <= CountLeq(xs[..m], t) + 1
  {
    CountLeqPrefixMonotone(xs, m, m + 1, t);
  }

  /** As written, with alpha > 0 every logged P_m(t) for t in [0,1] lies in
      [0,1], and P_m is non-decreasing in t. */
  lemma IdentityPathInUnit(alpha: real, prefix: seq<real>, s: real, t: real)
    requires alpha > 0.0 && s <= t
    ensures 0.0 <= t <= 1.0 ==> 0.0 <= PolyaCdf(alpha, IdentityG0()(t), prefix, t) <= 1.0
    ensures PolyaCdf(alpha, IdentityG0()(s), prefix, s) <= PolyaCdf(alpha, IdentityG0()(t), prefix, t)
  {
    PolyaCdfMonotone(alpha, s, t, prefix, s, t);
  }

  /** As written, a threshold below 0 gives a "CDF" value below 0: with
      alpha = 5, the stream [0.3] and t = -1, P_1(-1) = -5/6, while G0(-1)
      for the uniform base is 0 and the predictive is 0. */
  lemma IdentityPathLeavesUnit(Phi: real -> real)
    ensures PathBlock(5.0, IdentityG0(), [0.3], 1, [-1.0])[0].pm == -5.0 / 6.0
    ensures PathBlock(5.0, BaseG0(Uniform, Phi), [0.3], 1, [-1.0])[0].pm == 0.0
  {
    assert [0.3][..1] == [0.3];
    assert CountLeq([0.3], -1.0) == 0;
  }

  /** With the base CDF, for alpha > 0 every P_m(t) lies in [0,1] and is
      non-decreasing in t, for every threshold. */
  lemma CorrectedPathInUnit(alpha: real, base: BaseKind, Phi: real -> real, prefix: seq<real>, s: real, t: real)
    requires alpha > 0.0 && (base == Normal ==> IsCdf(Phi)) && s <= t
    ensures 0.0 <= PolyaCdf(alpha, BaseG0(base, Phi)(t), prefix, t) <= 1.0
    ensures PolyaCdf(alpha, BaseG0(base, Phi)(s), prefix, s) <= PolyaCdf(alpha, BaseG0(base, Phi)(t), prefix, t)
  {
    G0CdfRange(base, t, Phi);
    G0CdfMonotone(base, s, t, Phi);
    PolyaCdfMonotone(alpha, G0Cdf(base, s, Phi), G0Cdf(base, t, Phi), prefix, s, t);
  }
}
