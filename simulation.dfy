/** run_stream: stream x_0 .. x_{n-1} from the truth, and before absorbing
    x_i evaluate the Polya predictive at x_i (the PIT) and, at thinned steps,
    its sup-norm and root-mean-square distances to the truth on a grid; then
    update the predictive with x_i. The stream itself is an input (it stands
    for truth.sample(n, seed)); the parquet write is not modelled. */
module Simulation {
  import opened Numerics
  import opened BaseMeasure
  import opened DpPredictive
  import opened Dgps
  import opened Metrics
  import opened Methods

  /** The "base" entry of the method parameters, which may be absent. */
  datatype BaseParam = Given(name: string) | Absent

  /** params.get("base", "uniform") */
  function BaseOf(p: BaseParam): (name: string)
    ensures p.Absent? ==> name == "uniform"
    ensures p.Given? ==> name == p.name
  {
    match p
    case Given(name) => name
    case Absent => "uniform"
  }

  /** The truth the stream is drawn from: Uniform(0,1) for the base
      "uniform", the standard normal for every other name. */
  function SelectTruth(baseName: string): (tr: Truth)
    ensures ValidTruth(tr)
    ensures tr.UniformTruth? <==> baseName == "uniform"
    ensures tr == DefaultUniform || tr == DefaultNormal
  {
    if baseName == "uniform" then DefaultUniform else DefaultNormal
  }

  /** The truth matches the base measure of the predictive: whenever the
      method accepts the base name, the truth's CDF is G0. */
  lemma TruthMatchesBase(baseName: string, t: real, Phi: real -> real)
    requires ParseBase(baseName).Ok?
    ensures CdfTruth(SelectTruth(baseName), t, Phi) == G0Cdf(ParseBase(baseName).value, t, Phi)
  {
    if baseName == "uniform" {
      DefaultUniformIsBase(t, Phi);
    } else {
      DefaultNormalIsBase(t, Phi);
    }
  }

  /** The oracle CDF on a grid lies in [0,1] (for the normal truth, when Phi
      is a distribution function). */
  lemma TruthGridInUnit(baseName: string, ts: seq<real>, Phi: real -> real)
    requires baseName != "uniform" ==> IsCdf(Phi)
    ensures forall k :: 0 <= k < |ts| ==> 0.0 <= CdfTruthGrid(SelectTruth(baseName), ts, Phi)[k] <= 1.0
  {
    var cs := CdfTruthGrid(SelectTruth(baseName), ts, Phi);
    forall k | 0 <= k < |ts|
      ensures 0.0 <= cs[k] <= 1.0
    {
      if baseName != "uniform" {
        assert cs[k] == Phi(ts[k]);
      }
    }
  }

  /** _build_method: "polya_dp" builds a Polya predictive from the method
      parameters; any other name is a ValueError. The predictive accepts the
      base names "uniform" and "normal" only. */
  method BuildMethod(name: string, alpha: real, baseName: string) returns (r: Result<(PolyaPredictive, string)>)
    ensures r.Ok? <==> name == "polya_dp" && ParseBase(baseName).Ok?
    ensures r.Ok? ==> fresh(r.value.0) && r.value.1 == "polya_dp"
    ensures r.Ok? ==> r.value.0.alpha == alpha && r.value.0.base == ParseBase(baseName).value && r.value.0.atoms == []
  {
    if name != "polya_dp" {
      return Err("Unknown method: " + name);
    }
    var b := ParseBase(baseName);
    if b.Err? {
      return Err(b.msg);
    }
    var p := new PolyaPredictive(alpha, b.value);
    return Ok((p, "polya_dp"));
  }

  /** One output record (i, method, x_i, pit, d_infty, d_rmse, seed, n);
      NaN entries are Undefined. */
  datatype Record = Record(i: nat, methodName: string, x: real, pit: Est, dInfty: Est, dRmse: Est, seed: int, n: nat)

  /** Distances are recorded at every multiple of record_every and at the
      last step. Python's i % k is zero exactly when Dafny's is, for either
      sign of k; for k = 0 Python raises, which `StreamOk` accounts for. */
  predicate Thinned(i: nat, recordEvery: int, n: nat)
  {
    (recordEvery != 0 && i % recordEvery == 0) || i == n - 1
  }

  /** The inputs for which run_stream completes: a known method and base, a
      non-negative grid size, a non-zero thinning step and a non-empty grid
      once there is a step i >= 1, and no zero denominator alpha + i. */
  predicate StreamOk(name: string, baseName: string, alpha: real, n: nat, J: int, recordEvery: int)
  {
    && name == "polya_dp"
    && ParseBase(baseName).Ok?
    && J >= 0
    && (n >= 2 ==> recordEvery != 0 && J >= 1)
    && forall i :: 1 <= i < n ==> Denom(alpha, i) != 0.0
  }

  /** Record i of a completed run, from the stream and the grid alone: the
      predictive it consults has absorbed exactly xs[..i]. */
  function ExpectedRecord(i: nat, xs: seq<real>, seed: int, alpha: real, base: BaseKind,
                          grid: seq<real>, cTrue: seq<real>, recordEvery: int,
                          Phi: real -> real, sqrt: real -> real): (rec: Record)
    requires i < |xs| && |cTrue| == |grid|
    requires i >= 1 ==> Denom(alpha, i) != 0.0
    requires i >= 1 && Thinned(i, recordEvery, |xs|) ==> grid != []
    ensures rec.i == i && rec.methodName == "polya_dp" && rec.x == xs[i] && rec.seed == seed && rec.n == |xs|
    ensures rec.pit.Defined? <==> i >= 1
    ensures rec.dInfty.Defined? <==> i >= 1 && Thinned(i, recordEvery, |xs|)
    ensures rec.dRmse.Defined? <==> rec.dInfty.Defined?
    ensures rec.pit.Defined? ==> rec.pit.value == PolyaCdf(alpha, G0Cdf(base, xs[i], Phi), xs[..i], xs[i])
    ensures rec.dInfty.Defined? ==>
              rec.dInfty == Defined(DInfty(PolyaGrid(alpha, base, xs[..i], grid, Phi).value, cTrue).value)
              && rec.dRmse == DRmse(PolyaGrid(alpha, base, xs[..i], grid, Phi).value, cTrue, sqrt)
  {
    if i == 0 then Record(0, "polya_dp", xs[0], Undefined, Undefined, Undefined, seed, |xs|)
    else
      var pit := PolyaCdf(alpha, G0Cdf(base, xs[i], Phi), xs[..i], xs[i]);
      if Thinned(i, recordEvery, |xs|) then
        var est := PolyaGrid(alpha, base, xs[..i], grid, Phi).value;
        Record(i, "polya_dp", xs[i], Defined(pit), Defined(DInfty(est, cTrue).value),
               DRmse(est, cTrue, sqrt), seed, |xs|)
      else
        Record(i, "polya_dp", xs[i], Defined(pit), Undefined, Undefined, seed, |xs|)
  }

  /** Loop invariant of run_stream after i steps. */
  predicate StepsDone(i: nat, n: nat, alpha: real, recordEvery: int, grid: seq<real>)
  {
    && (forall k :: 1 <= k < i ==> Denom(alpha, k) != 0.0)
    && (i >= 2 ==> recordEvery != 0)
    && (forall k :: 1 <= k < i && Thinned(k, recordEvery, n) ==> grid != [])
  }

  /** run_stream, with the sample x = truth.sample(n, seed) given as xs. */
  method RunStream(name: string, n: nat, J: int, tmin: real, tmax: real, recordEvery: int, seed: int,
                   alpha: real, base: BaseParam, xs: seq<real>, Phi: real -> real, sqrt: real -> real)
    returns (r: Result<seq<Record>>)
    requires |xs| == n
    ensures r.Ok? <==> StreamOk(name, BaseOf(base), alpha, n, J, recordEvery)
    ensures r.Ok? ==> |r.value| == n
    ensures r.Ok? ==>
              var grid := MakeGrid(J, tmin, tmax).value;
              var cTrue := CdfTruthGrid(SelectTruth(BaseOf(base)), grid, Phi);
              forall i :: 0 <= i < n ==>
                r.value[i] == ExpectedRecord(i, xs, seed, alpha, ParseBase(BaseOf(base)).value,
                                             grid, cTrue, recordEvery, Phi, sqrt)
  {
    var baseName := BaseOf(base);
    var truth := SelectTruth(baseName);
    var g := MakeGrid(J, tmin, tmax);
    if g.Err? {
      return Err(g.msg);
    }
    var grid := g.value;
    var cTrue := CdfTruthGrid(truth, grid, Phi);
    var built := BuildMethod(name, alpha, baseName);
    if built.Err? {
      return Err(built.msg);
    }
    var state := built.value.0;
    var mname := built.value.1;
    r := RecordStream(state, xs, seed, grid, cTrue, recordEvery, mname, Phi, sqrt,
                      RecordFn(xs, seed, alpha, state.base, grid, cTrue, recordEvery, Phi, sqrt));
    assert n >= 2 ==> Thinned(n - 1, recordEvery, n);
  }

  /** Record k of the run where step k is reached; a placeholder elsewhere. */
  function RecordFn(xs: seq<real>, seed: int, alpha: real, base: BaseKind, grid: seq<real>, cTrue: seq<real>,
                    recordEvery: int, Phi: real -> real, sqrt: real -> real): nat -> Record
  {
    (k: nat) =>
      if k < |xs| && |cTrue| == |grid| && (k >= 1 ==> Denom(alpha, k) != 0.0)
         && (k >= 1 && Thinned(k, recordEvery, |xs|) ==> grid != [])
      then ExpectedRecord(k, xs, seed, alpha, base, grid, cTrue, recordEvery, Phi, sqrt)
      else Record(k, "", 0.0, Undefined, Undefined, Undefined, seed, |xs|)
  }

  /** F gives record k at every step run_stream can reach. */
  ghost predicate RecordsAgree(F: nat -> Record, xs: seq<real>, seed: int, alpha: real, base: BaseKind,
                               grid: seq<real>, cTrue: seq<real>, recordEvery: int, Phi: real -> real, sqrt: real -> real)
  {
    forall k: nat {:trigger ExpectedRecord(k, xs, seed, alpha, base, grid, cTrue, recordEvery, Phi, sqrt)} ::
      k < |xs| && |cTrue| == |grid| && (k >= 1 ==> Denom(alpha, k) != 0.0)
      && (k >= 1 && Thinned(k, recordEvery, |xs|) ==> grid != []) ==>
        F(k) == ExpectedRecord(k, xs, seed, alpha, base, grid, cTrue, recordEvery, Phi, sqrt)
  }

  /** run_stream's loop: evaluate x_i before absorbing it. */
  method RecordStream(state: PolyaPredictive, xs: seq<real>, seed: int, grid: seq<real>, cTrue: seq<real>,
                      recordEvery: int, mname: string, Phi: real -> real, sqrt: real -> real, ghost F: nat -> Record)
    returns (r: Result<seq<Record>>)
    modifies state
    requires state.atoms == [] && |cTrue| == |grid| && mname == "polya_dp"
    requires RecordsAgree(F, xs, seed, state.alpha, state.base, grid, cTrue, recordEvery, Phi, sqrt)
    ensures r.Ok? <==> StepsDone(|xs|, |xs|, state.alpha, recordEvery, grid)
    ensures r.Ok? ==> |r.value| == |xs| && forall k :: 0 <= k < |xs| ==> r.value[k] == F(k)
  {
    var recs: seq<Record> := [];
    var i := 0;
    while i < |xs|
      invariant 0 <= i <= |xs| && |recs| == i
      invariant state.atoms == xs[..i]
      invariant StepsDone(i, |xs|, state.alpha, recordEvery, grid)
      invariant forall k :: 0 <= k < i ==> recs[k] == F(k)
    {
      var logged := AppendRecord(state, i, xs, seed, grid, cTrue, recordEvery, mname, Phi, sqrt, recs, F);
      if logged.Err? {
        return Err(logged.msg);
      }
      recs := logged.value;
      PrefixSnoc(xs, i);
      state.Update(xs[i]);
      i := i + 1;
    }
    return Ok(recs);
  }

  /** One pass of run_stream's loop body before the update: the records so
      far followed by the record for x_i. */
  method AppendRecord(state: PolyaPredictive, i: nat, xs: seq<real>, seed: int, grid: seq<real>, cTrue: seq<real>,
                      recordEvery: int, mname: string, Phi: real -> real, sqrt: real -> real,
                      recs: seq<Record>, ghost F: nat -> Record)
    returns (r: Result<seq<Record>>)
    requires i < |xs| && |cTrue| == |grid| && state.atoms == xs[..i] && mname == "polya_dp"
    requires RecordsAgree(F, xs, seed, state.alpha, state.base, grid, cTrue, recordEvery, Phi, sqrt)
    requires |recs| == i && forall k :: 0 <= k < i ==> recs[k] == F(k)
    ensures r.Err? <==> StepFails(i, |xs|, state.alpha, recordEvery, grid)
    ensures r.Ok? ==> |r.value| == i + 1 && forall k :: 0 <= k <= i ==> r.value[k] == F(k)
  {
    var rec := EvaluateStep(state, i, xs, seed, grid, cTrue, recordEvery, mname, Phi, sqrt);
    if rec.Err? {
      return Err(rec.msg);
    }
    return Ok(recs + [rec.value]);
  }

  /** The ways step i >= 1 raises: a zero denominator alpha + i, a zero
      thinning step, or d_infty over an empty grid. */
  predicate StepFails(i: nat, n: nat, alpha: real, recordEvery: int, grid: seq<real>)
  {
    i >= 1 && (Denom(alpha, i) == 0.0 || recordEvery == 0 || (Thinned(i, recordEvery, n) && grid == []))
  }

  /** The body of the run_stream loop up to the update: the record for x_i,
      from a predictive that has absorbed exactly xs[..i]. */
  method EvaluateStep(state: PolyaPredictive, i: nat, xs: seq<real>, seed: int, grid: seq<real>,
                      cTrue: seq<real>, recordEvery: int, mname: string, Phi: real -> real, sqrt: real -> real)
    returns (r: Result<Record>)
    requires i < |xs| && |cTrue| == |grid| && state.atoms == xs[..i] && mname == "polya_dp"
    ensures r.Err? <==> StepFails(i, |xs|, state.alpha, recordEvery, grid)
    ensures r.Ok? ==> r.value == ExpectedRecord(i, xs, seed, state.alpha, state.base, grid, cTrue, recordEvery, Phi, sqrt)
  {
    var xi := xs[i];
    var pit, dInf, dR := Undefined, Undefined, Undefined;
    if i > 0 {
      var p := state.CdfEst(xi, Phi);
      if p.Err? {
        assert Denom(state.alpha, i) == 0.0;
        return Err(p.msg);
      }
      pit := Defined(p.value);
      if recordEvery == 0 {
        return Err("integer modulo by zero");
      }
      if i % recordEvery == 0 || i == |xs| - 1 {
        var est := state.CdfEstGrid(grid, Phi).value;
        var d := DInfty(est, cTrue);
        if d.Err? {
          return Err(d.msg);
        }
        dInf := Defined(d.value);
        dR := DRmse(est, cTrue, sqrt);
      }
    }
    return Ok(Record(i, mname, xi, pit, dInf, dR, seed, |xs|));
  }

  /** Evaluate before update: record i depends on the stream only through
      x_0 .. x_i (and its length), never on observations still to come. */
  lemma RecordIsCausal(i: nat, xs: seq<real>, ys: seq<real>, seed: int, alpha: real, base: BaseKind,
                       grid: seq<real>, cTrue: seq<real>, recordEvery: int, Phi: real -> real, sqrt: real -> real)
    requires i < |xs| == |ys| && xs[..i + 1] == ys[..i + 1] && |cTrue| == |grid|
    requires i >= 1 ==> Denom(alpha, i) != 0.0
    requires i >= 1 && Thinned(i, recordEvery, |xs|) ==> grid != []
    ensures ExpectedRecord(i, xs, seed, alpha, base, grid, cTrue, recordEvery, Phi, sqrt)
         == ExpectedRecord(i, ys, seed, alpha, base, grid, cTrue, recordEvery, Phi, sqrt)
  {
    assert xs[i] == xs[..i + 1][i] == ys[..i + 1][i] == ys[i];
    assert xs[..i] == xs[..i + 1][..i] == ys[..i + 1][..i] == ys[..i];
  }

  /** On a grid, a predictive with positive concentration and a truth with
      values in [0,1] are at sup-norm distance at most 1, and the root mean
      square distance lies between 0 and the sup-norm distance. */
  lemma GridDistanceBounds(alpha: real, base: BaseKind, prefix: seq<real>, grid: seq<real>, cTrue: seq<real>,
                           Phi: real -> real, sqrt: real -> real)
    requires alpha > 0.0 && |cTrue| == |grid| > 0
    requires base == Normal ==> IsCdf(Phi)
    requires IsSqrt(sqrt)
    requires forall k :: 0 <= k < |cTrue| ==> 0.0 <= cTrue[k] <= 1.0
    ensures var est := PolyaGrid(alpha, base, prefix, grid, Phi).value;
            0.0 <= DRmse(est, cTrue, sqrt).value <= DInfty(est, cTrue).value <= 1.0
  {
    var est := PolyaGrid(alpha, base, prefix, grid, Phi).value;
    forall k | 0 <= k < |grid|
      ensures Abs(est[k] - cTrue[k]) <= 1.0
    {
      G0CdfRange(base, grid[k], Phi);
    }
    DRmseBelowDInfty(est, cTrue, sqrt);
  }

  /** With a positive concentration and a distribution-valued truth, every
      PIT value lies in [0,1], and every recorded d_infty is at most 1 and
      bounds the recorded d_rmse from above. */
  lemma RecordBounds(i: nat, xs: seq<real>, seed: int, alpha: real, base: BaseKind,
                     grid: seq<real>, cTrue: seq<real>, recordEvery: int, Phi: real -> real, sqrt: real -> real)
    requires i < |xs| && |cTrue| == |grid| && alpha > 0.0
    requires i >= 1 && Thinned(i, recordEvery, |xs|) ==> grid != []
    requires base == Normal ==> IsCdf(Phi)
    requires IsSqrt(sqrt)
    requires forall k :: 0 <= k < |cTrue| ==> 0.0 <= cTrue[k] <= 1.0
    ensures var rec := ExpectedRecord(i, xs, seed, alpha, base, grid, cTrue, recordEvery, Phi, sqrt);
            && (rec.pit.Defined? ==> 0.0 <= rec.pit.value <= 1.0)
            && (rec.dInfty.Defined? ==> 0.0 <= rec.dRmse.value <= rec.dInfty.value <= 1.0)
  {
    if i >= 1 {
      G0CdfRange(base, xs[i], Phi);
      if Thinned(i, recordEvery, |xs|) {
        GridDistanceBounds(alpha, base, xs[..i], grid, cTrue, Phi, sqrt);
      }
    }
  }
}
