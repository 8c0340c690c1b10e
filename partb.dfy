/** The Part B log-convergence driver: stream x_0 .. x_{n-1} from the truth
    and, before absorbing x_i (i >= 1), log the sup-norm and root mean
    square distances of the Polya predictive to the truth on a grid and the
    predictive's value P_i(t) at each requested threshold. The stream is an
    input (it stands for truth.sample(n, seed)); the CSV writes are not
    modelled. */
module PartB {
  import opened Numerics
  import opened BaseMeasure
  import opened DpPredictive
  import opened Dgps
  import opened Metrics
  import opened Methods
  import Simulation

  /** The evaluation range. The uniform base always uses [0,1], whatever
      --tmin/--tmax say; the normal base uses --tmin/--tmax. The (-4, 4)
      the normal branch assigns first is never read. */
  function GridRange(base: BaseKind, tminArg: real, tmaxArg: real): (r: (real, real))
    ensures base == Uniform ==> r == (0.0, 1.0)
    ensures base == Normal ==> r == (tminArg, tmaxArg)
  {
    var local := if base == Uniform then (0.0, 1.0) else (-4.0, 4.0);
    if base == Normal then (tminArg, tmaxArg) else local
  }

  /** With the uniform base every grid point lies in [0,1]. */
  lemma UniformGridInUnit(J: int, tminArg: real, tmaxArg: real)
    requires J >= 0
    ensures var r := GridRange(Uniform, tminArg, tmaxArg);
            forall k :: 0 <= k < J ==> 0.0 <= MakeGrid(J, r.0, r.1).value[k] <= 1.0
  {
    var g := MakeGrid(J, 0.0, 1.0).value;
    forall k | 0 <= k < J
      ensures 0.0 <= g[k] <= 1.0
    {
      MakeGridSorted(J, 0.0, 1.0, 0, k);
      if J >= 2 {
        MakeGridSorted(J, 0.0, 1.0, k, J - 1);
      }
    }
  }

  /** The truth: Uniform(0,1) for the uniform base, Normal(0,1) otherwise. */
  function TruthOf(base: BaseKind): (tr: Truth)
    ensures ValidTruth(tr)
    ensures forall t, Phi :: CdfTruth(tr, t, Phi) == G0Cdf(base, t, Phi)
  {
    var tr := Simulation.SelectTruth(BaseName(base));
    assert forall t, Phi :: CdfTruth(tr, t, Phi) == G0Cdf(base, t, Phi) by {
      forall t, Phi ensures CdfTruth(tr, t, Phi) == G0Cdf(base, t, Phi) {
        Simulation.TruthMatchesBase(BaseName(base), t, Phi);
      }
    }
    tr
  }

  /** A rec_dist row (i, d_infty, d_rmse). */
  datatype DistRow = DistRow(i: nat, dInfty: real, dRmse: real)

  /** A rec_Pm row (m, t, Pm). */
  datatype PmRow = PmRow(m: nat, t: real, pm: real)

  /** The distance row logged at step i, from the predictive that has
      absorbed xs[..i]. */
  function DistAt(alpha: real, base: BaseKind, xs: seq<real>, i: nat, grid: seq<real>, cTrue: seq<real>,
                  Phi: real -> real, sqrt: real -> real): (row: DistRow)
    requires i <= |xs| && Denom(alpha, i) != 0.0 && |cTrue| == |grid| > 0
    ensures row.i == i && row.dInfty >= 0.0
  {
    var est := PolyaGrid(alpha, base, xs[..i], grid, Phi).value;
    DistRow(i, DInfty(est, cTrue).value, DRmse(est, cTrue, sqrt).value)
  }

  /** The row main would log at step i; a step it never reaches (a zero
      alpha + i, an empty grid) holds a placeholder. */
  function DistRowFn(alpha: real, base: BaseKind, xs: seq<real>, grid: seq<real>, cTrue: seq<real>,
                     Phi: real -> real, sqrt: real -> real): nat -> DistRow
  {
    (i: nat) =>
      if i <= |xs| && Denom(alpha, i) != 0.0 && |cTrue| == |grid| > 0
      then DistAt(alpha, base, xs, i, grid, cTrue, Phi, sqrt)
      else DistRow(i, 0.0, 0.0)
  }

  /** F gives the distance row of every step main can log. */
  ghost predicate RowsAgree(F: nat -> DistRow, alpha: real, base: BaseKind, xs: seq<real>, grid: seq<real>,
                            cTrue: seq<real>, Phi: real -> real, sqrt: real -> real)
  {
    forall i: nat {:trigger DistAt(alpha, base, xs, i, grid, cTrue, Phi, sqrt)} ::
      i <= |xs| && Denom(alpha, i) != 0.0 && |cTrue| == |grid| > 0 ==>
        F(i) == DistAt(alpha, base, xs, i, grid, cTrue, Phi, sqrt)
  }

  /** The distance rows of steps 1 .. s. */
  function DistRows(alpha: real, base: BaseKind, xs: seq<real>, s: nat, grid: seq<real>, cTrue: seq<real>,
                    Phi: real -> real, sqrt: real -> real): (rows: seq<DistRow>)
    ensures |rows| == s
  {
    Tabulate(s, DistRowFn(alpha, base, xs, grid, cTrue, Phi, sqrt))
  }

  /** rec_dist is ordered by step: row k is the distance row of step k + 1,
      taken after the first k + 1 observations. */
  lemma DistRowsEntry(alpha: real, base: BaseKind, xs: seq<real>, s: nat, grid: seq<real>, cTrue: seq<real>,
                      Phi: real -> real, sqrt: real -> real, k: nat)
    requires k < s && k + 1 <= |xs| && Denom(alpha, k + 1) != 0.0 && |cTrue| == |grid| > 0
    ensures DistRows(alpha, base, xs, s, grid, cTrue, Phi, sqrt)[k] == DistAt(alpha, base, xs, k + 1, grid, cTrue, Phi, sqrt)
  {
    TabulateAt(s, DistRowFn(alpha, base, xs, grid, cTrue, Phi, sqrt), k);
  }

  /** The rec_Pm rows logged at step i = |prefix|, one per threshold. */
  function PmBlock(alpha: real, base: BaseKind, prefix: seq<real>, ts: seq<real>, Phi: real -> real)
    : (rows: seq<PmRow>)
    requires Denom(alpha, |prefix|) != 0.0
    ensures |rows| == |ts|
    ensures forall j :: 0 <= j < |ts| ==>
              rows[j] == PmRow(|prefix|, ts[j], PolyaCdf(alpha, G0Cdf(base, ts[j], Phi), prefix, ts[j]))
  {
    seq(|ts|, j requires 0 <= j < |ts| => PmRow(|prefix|, ts[j], PolyaCdf(alpha, G0Cdf(base, ts[j], Phi), prefix, ts[j])))
  }

  /** The blocks of steps 1 .. s. */
  function PmBlocks(alpha: real, base: BaseKind, xs: seq<real>, s: nat, ts: seq<real>, Phi: real -> real)
    : (bs: seq<seq<PmRow>>)
    requires s <= |xs| && forall i :: 1 <= i <= s ==> Denom(alpha, i) != 0.0
    ensures |bs| == s
    ensures forall b :: 0 <= b < s ==> bs[b] == PmBlock(alpha, base, xs[..b + 1], ts, Phi)
  {
    if s == 0 then [] else PmBlocks(alpha, base, xs, s - 1, ts, Phi) + [PmBlock(alpha, base, xs[..s], ts, Phi)]
  }

  /** The inputs for which the loop completes: a grid size numpy accepts,
      a non-empty grid once a distance is taken, no zero denominator. */
  predicate PartBOk(alpha: real, n: nat, J: int)
  {
    J >= 0 && (n >= 2 ==> J >= 1) && forall i :: 1 <= i < n ==> Denom(alpha, i) != 0.0
  }

  /** The inner loop over the thresholds: cdf_est of the current state. */
  method PmStep(pred: PolyaPredictive, ts: seq<real>, Phi: real -> real) returns (block: seq<PmRow>)
    requires Denom(pred.alpha, |pred.atoms|) != 0.0
    ensures block == PmBlock(pred.alpha, pred.base, pred.atoms, ts, Phi)
  {
    block := [];
    var j := 0;
    while j < |ts|
      invariant 0 <= j <= |ts| && |block| == j
      invariant forall q :: 0 <= q < j ==> block[q] == PmBlock(pred.alpha, pred.base, pred.atoms, ts, Phi)[q]
    {
      var pm := pred.CdfEst(ts[j], Phi).value;
      block := block + [PmRow(|pred.atoms|, ts[j], pm)];
      j := j + 1;
    }
  }

  /** main, for a parsed command line and the sample xs: build the grid
      and the truth on it, then run the loop. */
  method RunPartB(n: nat, alpha: real, ts: seq<real>, base: BaseKind, J: int, tminArg: real, tmaxArg: real,
                  xs: seq<real>, Phi: real -> real, sqrt: real -> real)
    returns (r: Result<(seq<DistRow>, seq<PmRow>)>)
    requires |xs| == n
    ensures r.Ok? <==> PartBOk(alpha, n, J)
    ensures r.Ok? ==>
              var range := GridRange(base, tminArg, tmaxArg);
              var grid := MakeGrid(J, range.0, range.1).value;
              var cTrue := CdfTruthGrid(TruthOf(base), grid, Phi);
              && (n >= 2 ==> grid != [])
              && r.value.0 == DistRows(alpha, base, xs, MaxInt(n - 1, 0), grid, cTrue, Phi, sqrt)
              && r.value.1 == Flatten(PmBlocks(alpha, base, xs, MaxInt(n - 1, 0), ts, Phi))
  {
    var truth := TruthOf(base);
    var pred := new PolyaPredictive(alpha, base);
    var range := GridRange(base, tminArg, tmaxArg);
    var g := MakeGrid(J, range.0, range.1);
    if g.Err? {
      return Err(g.msg);
    }
    var grid := g.value;
    var cTrue := CdfTruthGrid(truth, grid, Phi);
    r := LogStream(pred, xs, ts, grid, cTrue, Phi, sqrt, DistRowFn(alpha, base, xs, grid, cTrue, Phi, sqrt));
  }

  /** The steps of the stream complete: a non-empty grid once a distance
      is taken, and no zero denominator alpha + i. */
  predicate StreamLogs(alpha: real, n: nat, grid: seq<real>)
  {
    (n >= 2 ==> grid != []) && forall i :: 1 <= i < n ==> Denom(alpha, i) != 0.0
  }

  /** main's loop over the stream: log, then absorb x_i. */
  method LogStream(pred: PolyaPredictive, xs: seq<real>, ts: seq<real>, grid: seq<real>, cTrue: seq<real>,
                   Phi: real -> real, sqrt: real -> real, ghost F: nat -> DistRow)
    returns (r: Result<(seq<DistRow>, seq<PmRow>)>)
    modifies pred
    requires pred.atoms == [] && |cTrue| == |grid|
    requires RowsAgree(F, pred.alpha, pred.base, xs, grid, cTrue, Phi, sqrt)
    ensures r.Ok? <==> StreamLogs(pred.alpha, |xs|, grid)
    ensures r.Ok? && |xs| >= 2 ==> grid != []
    ensures r.Ok? ==> r.value.0 == Tabulate(MaxInt(|xs| - 1, 0), F)
    ensures r.Ok? ==> r.value.1 == Flatten(PmBlocks(pred.alpha, pred.base, xs, MaxInt(|xs| - 1, 0), ts, Phi))
  {
    var recDist: seq<DistRow> := [];
    var recPm: seq<PmRow> := [];
    var i := 0;
    while i < |xs|
      invariant 0 <= i <= |xs|
      invariant pred.atoms == xs[..i]
      invariant forall k :: 1 <= k < i ==> Denom(pred.alpha, k) != 0.0
      invariant i >= 2 ==> grid != []
      invariant recDist == Tabulate(MaxInt(i - 1, 0), F)
      invariant recPm == Flatten(PmBlocks(pred.alpha, pred.base, xs, MaxInt(i - 1, 0), ts, Phi))
    {
      if i > 0 {
        var logged := LogStep(pred, xs, i, ts, grid, cTrue, recDist, recPm, Phi, sqrt, F);
        if logged.Err? {
          return Err(logged.msg);
        }
        recDist, recPm := logged.value.0, logged.value.1;
      }
      PrefixSnoc(xs, i);
      pred.Update(xs[i]);
      i := i + 1;
    }
    return Ok((recDist, recPm));
  }

  /** The body of main's loop for i >= 1, before the update: append the
      distance row of step i and the rec_Pm block of step i. */
  method LogStep(pred: PolyaPredictive, xs: seq<real>, i: nat, ts: seq<real>, grid: seq<real>, cTrue: seq<real>,
                 recDist: seq<DistRow>, recPm: seq<PmRow>, Phi: real -> real, sqrt: real -> real, ghost F: nat -> DistRow)
    returns (r: Result<(seq<DistRow>, seq<PmRow>)>)
    requires 1 <= i < |xs| && pred.atoms == xs[..i] && |cTrue| == |grid|
    requires forall k :: 1 <= k < i ==> Denom(pred.alpha, k) != 0.0
    requires i >= 2 ==> grid != []
    requires RowsAgree(F, pred.alpha, pred.base, xs, grid, cTrue, Phi, sqrt) && recDist == Tabulate(i - 1, F)
    requires recPm == Flatten(PmBlocks(pred.alpha, pred.base, xs, i - 1, ts, Phi))
    ensures r.Err? <==> grid == [] || Denom(pred.alpha, i) == 0.0
    ensures r.Ok? ==> grid != [] && r.value.0 == Tabulate(i, F)
    ensures r.Ok? ==> r.value.1 == Flatten(PmBlocks(pred.alpha, pred.base, xs, i, ts, Phi))
  {
    var row := DistStep(pred, xs, i, grid, cTrue, Phi, sqrt);
    if row.Err? {
      return Err(row.msg);
    }
    var block := PmStep(pred, ts, Phi);
    PmBlocksSnoc(pred.alpha, pred.base, xs, i, ts, Phi);
    return Ok((recDist + [row.value], recPm + block));
  }

  /** The distance half of a step: cdf_est on the grid, then d_infty
      (which raises on an empty grid) and d_rmse. */
  method DistStep(pred: PolyaPredictive, xs: seq<real>, i: nat, grid: seq<real>, cTrue: seq<real>,
                  Phi: real -> real, sqrt: real -> real)
    returns (r: Result<DistRow>)
    requires i <= |xs| && pred.atoms == xs[..i] && |cTrue| == |grid|
    ensures r.Err? <==> grid == [] || Denom(pred.alpha, i) == 0.0
    ensures r.Ok? ==> r.value == DistAt(pred.alpha, pred.base, xs, i, grid, cTrue, Phi, sqrt)
  {
    var est := pred.CdfEstGrid(grid, Phi);
    if est.Err? {
      assert Denom(pred.alpha, |pred.atoms|) == 0.0;
      return Err(est.msg);
    }
    var d := DInfty(est.value, cTrue);
    if d.Err? {
      return Err(d.msg);
    }
    return Ok(DistRow(i, d.value, DRmse(est.value, cTrue, sqrt).value));
  }

  /** The table after step s is the table after step s - 1 followed by the
      block of step s. */
  lemma PmBlocksSnoc(alpha: real, base: BaseKind, xs: seq<real>, s: nat, ts: seq<real>, Phi: real -> real)
    requires 1 <= s <= |xs| && forall i :: 1 <= i <= s ==> Denom(alpha, i) != 0.0
    ensures Flatten(PmBlocks(alpha, base, xs, s, ts, Phi))
         == Flatten(PmBlocks(alpha, base, xs, s - 1, ts, Phi)) + PmBlock(alpha, base, xs[..s], ts, Phi)
  {
    var bs := PmBlocks(alpha, base, xs, s, ts, Phi);
    assert bs[..s - 1] == PmBlocks(alpha, base, xs, s - 1, ts, Phi);
  }

  /** Every block holds one row per threshold. */
  lemma PmBlockSizes(alpha: real, base: BaseKind, xs: seq<real>, s: nat, ts: seq<real>, Phi: real -> real)
    requires s <= |xs| && forall i :: 1 <= i <= s ==> Denom(alpha, i) != 0.0
    ensures var bs := PmBlocks(alpha, base, xs, s, ts, Phi);
            forall i :: 0 <= i < |bs| ==> |bs[i]| == |ts|
  {
  }

  /** rec_Pm is ordered by step and then by threshold: row b |ts| + j is
      (b + 1, ts[j], P_{b+1}(ts[j])), the predictive after the first b + 1
      observations. */
  lemma PmRowEntry(alpha: real, base: BaseKind, xs: seq<real>, s: nat, ts: seq<real>, Phi: real -> real, b: nat, j: nat)
    requires s <= |xs| && forall i :: 1 <= i <= s ==> Denom(alpha, i) != 0.0
    requires b < s && j < |ts|
    ensures b * |ts| + j < |Flatten(PmBlocks(alpha, base, xs, s, ts, Phi))| && Denom(alpha, b + 1) != 0.0
    ensures RowAt(Flatten(PmBlocks(alpha, base, xs, s, ts, Phi)), |ts|, b, j)
              == PmRow(b + 1, ts[j], PolyaCdf(alpha, G0Cdf(base, ts[j], Phi), xs[..b + 1], ts[j]))
  {
    var bs := PmBlocks(alpha, base, xs, s, ts, Phi);
    PmBlockSizes(alpha, base, xs, s, ts, Phi);
    FlattenUniformAt(bs, |ts|, b, j);
    assert bs[b] == PmBlock(alpha, base, xs[..b + 1], ts, Phi);
  }

  /** After s steps rec_Pm has s |ts| rows. */
  lemma PmRowsLayout(alpha: real, base: BaseKind, xs: seq<real>, s: nat, ts: seq<real>, Phi: real -> real)
    requires s <= |xs| && forall i :: 1 <= i <= s ==> Denom(alpha, i) != 0.0
    ensures |Flatten(PmBlocks(alpha, base, xs, s, ts, Phi))| == s * |ts|
  {
    PmBlockSizes(alpha, base, xs, s, ts, Phi);
    FlattenUniformLength(PmBlocks(alpha, base, xs, s, ts, Phi), |ts|);
  }

  /** With a positive concentration every logged P_i(t) lies in [0,1]. */
  lemma PmRowsInUnit(alpha: real, base: BaseKind, prefix: seq<real>, ts: seq<real>, Phi: real -> real)
    requires alpha > 0.0 && (base == Normal ==> IsCdf(Phi))
    ensures forall j :: 0 <= j < |ts| ==> 0.0 <= PmBlock(alpha, base, prefix, ts, Phi)[j].pm <= 1.0
  {
    forall j | 0 <= j < |ts|
      ensures 0.0 <= PmBlock(alpha, base, prefix, ts, Phi)[j].pm <= 1.0
    {
      G0CdfRange(base, ts[j], Phi);
    }
  }

  /** Every logged distance row satisfies 0 <= d_rmse <= d_infty <= 1. */
  lemma DistRowBounds(alpha: real, base: BaseKind, xs: seq<real>, i: nat, grid: seq<real>,
                      Phi: real -> real, sqrt: real -> real)
    requires alpha > 0.0 && i <= |xs| && grid != [] && (base == Normal ==> IsCdf(Phi)) && IsSqrt(sqrt)
    ensures var row := DistAt(alpha, base, xs, i, grid, CdfTruthGrid(TruthOf(base), grid, Phi), Phi, sqrt);
            0.0 <= row.dRmse <= row.dInfty <= 1.0
  {
    var cTrue := CdfTruthGrid(TruthOf(base), grid, Phi);
    forall k | 0 <= k < |grid|
      ensures 0.0 <= cTrue[k] <= 1.0
    {
      G0CdfRange(base, grid[k], Phi);
    }
    Simulation.GridDistanceBounds(alpha, base, xs[..i], grid, cTrue, Phi, sqrt);
  }
}
