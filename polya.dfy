/** The Blackwell-MacQueen Polya urn with base G0 in {Uniform(0,1), Normal(0,1)}.
    The generator is replaced by one explicit `Coin` per draw: the uniform `u`
    compared with the fresh-draw weight, the index `j` of the copied atom and
    the base generator's output `z`. Each draw is then a deterministic function
    of the history and its coin. */
module Urn {
  import opened Numerics
  import opened BaseMeasure

  /** The random inputs of one draw: u = rng.random(), j = rng.integers(0, m),
      z = the base generator's variate. */
  datatype Coin = Coin(u: real, j: nat, z: real)

  /** A coin as the generator can produce it when m atoms are in the urn. */
  predicate CoinOk(c: Coin, m: nat)
  {
    0.0 <= c.u < 1.0 && (m > 0 ==> c.j < m)
  }

  /** coins[k] is used for the draw that sees `start + k` atoms. */
  predicate CoinsFit(coins: seq<Coin>, start: nat)
  {
    forall k :: 0 <= k < |coins| ==> CoinOk(coins[k], start + k)
  }

  /** Base variates of a uniform generator lie in [0,1). */
  predicate UnitBaseDraws(coins: seq<Coin>)
  {
    forall k :: 0 <= k < |coins| ==> 0.0 <= coins[k].z < 1.0
  }

  /** PolyaSequenceModel(alpha, base); the generator itself is the coin stream. */
  datatype PolyaSequenceModel = PolyaSequenceModel(alpha: real, base: string)

  /** P0: a draw from the base measure, ValueError for an unknown base. */
  function P0(model: PolyaSequenceModel, c: Coin): (r: Result<real>)
    ensures r.Ok? <==> ParseBase(model.base).Ok?
    ensures r.Ok? ==> r.value == c.z
  {
    match ParseBase(model.base)
    case Err(_) => Err("unknown base=" + model.base)
    case Ok(_) => Ok(c.z)
  }

  /** Pn(n, history): a fresh base draw with probability alpha/(alpha+n),
      otherwise a copy of history[j]. ValueError unless n == len(history);
      a zero denominator alpha + n raises ZeroDivisionError. */
  function Pn(model: PolyaSequenceModel, n: int, history: seq<real>, c: Coin): (r: Result<real>)
    requires CoinOk(c, |history|)
    ensures n != |history| ==> r.Err?
    ensures r.Ok? ==> r.value == c.z || (c.j < |history| && r.value == history[c.j])
    ensures n == |history| && model.alpha + (n as real) == 0.0 ==> r.Err?
    ensures (n == |history| && model.alpha + (n as real) != 0.0 && c.u < model.alpha / (model.alpha + (n as real)))
              ==> r == P0(model, c)
    ensures (n == |history| > 0 && model.alpha + (n as real) != 0.0 && c.u >= model.alpha / (model.alpha + (n as real)))
              ==> r == Ok(history[c.j])
  {
    if n != |history| then Err("n must equal len(history)")
    else if model.alpha + (n as real) == 0.0 then Err("float division by zero")
    else
      var wBase := model.alpha / (model.alpha + (n as real));
      if c.u < wBase then P0(model, c)
      else if n == 0 then Err("high <= 0")
      else Ok(history[c.j])
  }

  /** With a known base and a positive concentration every draw succeeds; in
      particular an empty urn always draws from the base (its weight is 1). */
  lemma PnOk(model: PolyaSequenceModel, history: seq<real>, c: Coin)
    requires CoinOk(c, |history|)
    requires ParseBase(model.base).Ok? && model.alpha > 0.0
    ensures Pn(model, |history|, history, c).Ok?
    ensures history == [] ==> Pn(model, |history|, history, c) == Ok(c.z)
  {
    if history == [] {
      assert model.alpha / (model.alpha + 0.0) == 1.0;
    }
  }

  /** The urn run forward from `x`, one draw per coin: the list the loops of
      build_prefix and continue_urn_once append to. */
  function Extend(model: PolyaSequenceModel, x: seq<real>, coins: seq<Coin>): Result<seq<real>>
    requires CoinsFit(coins, |x|)
    decreases |coins|
  {
    if coins == [] then Ok(x)
    else
      match Pn(model, |x|, x, coins[0])
      case Err(e) => Err(e)
      case Ok(v) =>
        assert CoinsFit(coins[1..], |x + [v]|) by {
          forall k | 0 <= k < |coins[1..]| ensures CoinOk(coins[1..][k], |x + [v]| + k) {
            assert coins[1..][k] == coins[k + 1];
          }
        }
        Extend(model, x + [v], coins[1..])
  }

  /** A whole sequence: one base draw (coins[0].z), then the urn on the rest. */
  function UrnSequence(model: PolyaSequenceModel, coins: seq<Coin>): Result<seq<real>>
    requires |coins| >= 1 && CoinsFit(coins[1..], 1)
  {
    match P0(model, coins[0])
    case Err(e) => Err(e)
    case Ok(v) => Extend(model, [v], coins[1..])
  }

  /** The urn appends exactly one atom per coin and never rewrites the atoms
      it started from. */
  lemma {:induction false} ExtendShape(model: PolyaSequenceModel, x: seq<real>, coins: seq<Coin>)
    requires CoinsFit(coins, |x|)
    ensures Extend(model, x, coins).Ok? ==>
              |Extend(model, x, coins).value| == |x| + |coins| && Extend(model, x, coins).value[..|x|] == x
    decreases |coins|
  {
    if coins != [] {
      var d := Pn(model, |x|, x, coins[0]);
      if d.Ok? {
        ExtendShape(model, x + [d.value], coins[1..]);
        var r := Extend(model, x, coins);
        if r.Ok? {
          assert r.value[..|x|] == (r.value[..|x| + 1])[..|x|];
        }
      }
    }
  }

  /** Atom i of r, for i >= start, is the base variate of its coin or a copy of
      the earlier atom the coin's index points at. */
  predicate FromBaseOrCopy(r: seq<real>, start: nat, coins: seq<Coin>)
  {
    && |r| == start + |coins|
    && forall k :: 0 <= k < |coins| ==> DrawnFrom(r, start + k, coins[k])
  }

  predicate DrawnFrom(r: seq<real>, i: nat, c: Coin)
    requires i < |r|
  {
    r[i] == c.z || (c.j < i && r[i] == r[c.j])
  }

  /** Every appended atom is its coin's base variate or a copy of an earlier
      atom (the one the coin's index points at). */
  lemma {:induction false} ExtendProvenance(model: PolyaSequenceModel, x: seq<real>, coins: seq<Coin>)
    requires CoinsFit(coins, |x|)
    ensures Extend(model, x, coins).Ok? ==> FromBaseOrCopy(Extend(model, x, coins).value, |x|, coins)
    decreases |coins|
  {
    ExtendShape(model, x, coins);
    if coins != [] {
      var d := Pn(model, |x|, x, coins[0]);
      if d.Ok? {
        var x' := x + [d.value];
        ExtendProvenance(model, x', coins[1..]);
        ExtendShape(model, x', coins[1..]);
        var r := Extend(model, x, coins);
        if r.Ok? {
          var rv := r.value;
          assert rv[..|x'|] == x';
          forall k | 0 <= k < |coins|
            ensures DrawnFrom(rv, |x| + k, coins[k])
          {
            var i := |x| + k;
            if k == 0 {
              assert rv[i] == x'[i] == d.value;
              if d.value != coins[0].z {
                assert coins[0].j < |x| && d.value == x[coins[0].j];
                assert rv[coins[0].j] == x'[coins[0].j];
              }
            } else {
              assert coins[1..][k - 1] == coins[k];
              assert DrawnFrom(rv, |x'| + (k - 1), coins[1..][k - 1]);
            }
          }
        }
      }
    }
  }

  /** With a known base and alpha > 0 the urn never raises. */
  lemma {:induction false} ExtendOk(model: PolyaSequenceModel, x: seq<real>, coins: seq<Coin>)
    requires CoinsFit(coins, |x|)
    requires ParseBase(model.base).Ok? && model.alpha > 0.0
    ensures Extend(model, x, coins).Ok?
    decreases |coins|
  {
    if coins != [] {
      PnOk(model, x, coins[0]);
      var v := Pn(model, |x|, x, coins[0]).value;
      assert CoinsFit(coins[1..], |x + [v]|) by {
        forall k | 0 <= k < |coins[1..]| ensures CoinOk(coins[1..][k], |x + [v]| + k) {
          assert coins[1..][k] == coins[k + 1];
        }
      }
      ExtendOk(model, x + [v], coins[1..]);
    }
  }

  /** Uniform base: if the starting atoms lie in [0,1] and the base variates
      in [0,1), so does every atom of the extended list. */
  lemma UnitSupport(model: PolyaSequenceModel, x: seq<real>, coins: seq<Coin>)
    requires CoinsFit(coins, |x|) && UnitBaseDraws(coins)
    requires forall k :: 0 <= k < |x| ==> 0.0 <= x[k] <= 1.0
    ensures Extend(model, x, coins).Ok? ==>
              forall k :: 0 <= k < |Extend(model, x, coins).value| ==> 0.0 <= Extend(model, x, coins).value[k] <= 1.0
  {
    ExtendProvenance(model, x, coins);
    ExtendShape(model, x, coins);
    var r := Extend(model, x, coins);
    if r.Ok? {
      var rv := r.value;
      var i := 0;
      while i < |rv|
        invariant 0 <= i <= |rv|
        invariant forall k :: 0 <= k < i ==> 0.0 <= rv[k] <= 1.0
      {
        if i < |x| {
          assert rv[i] == rv[..|x|][i] == x[i];
        } else {
          assert DrawnFrom(rv, |x| + (i - |x|), coins[i - |x|]);
          assert 0.0 <= coins[i - |x|].z < 1.0;
        }
        i := i + 1;
      }
    }
  }

  /** build_prefix(n_obs): x = [P0()], then Pn(m, x) for m = 1 .. n_obs-1.
      coins[0] feeds the base draw, coins[m] the m-th urn step. */
  method BuildPrefix(nObs: int, model: PolyaSequenceModel, coins: seq<Coin>) returns (r: Result<seq<real>>)
    requires |coins| == MaxInt(nObs, 1) && CoinsFit(coins[1..], 1)
    ensures r == UrnSequence(model, coins)
    ensures ParseBase(model.base).Err? ==> r.Err?
    ensures ParseBase(model.base).Ok? && model.alpha > 0.0 ==> r.Ok?
    ensures r.Ok? ==> |r.value| == MaxInt(nObs, 1) && r.value[0] == coins[0].z
  {
    var first := P0(model, coins[0]);
    if first.Err? {
      return Err(first.msg);
    }
    var x := [first.value];
    ghost var tail := coins[1..];
    var m := 1;
    while m < nObs
      invariant 1 <= m <= |coins| && |x| == m
      invariant CoinsFit(coins[m..], m)
      invariant Extend(model, [first.value], tail) == Extend(model, x, coins[m..])
    {
      assert coins[m..][0] == coins[m];
      var v := Pn(model, m, x, coins[m]);
      if v.Err? {
        return Err(v.msg);
      }
      assert coins[m..][1..] == coins[m + 1..];
      x := x + [v.value];
      m := m + 1;
    }
    assert coins[m..] == [];
    r := Ok(x);
    ExtendShape(model, [first.value], tail);
    if ParseBase(model.base).Ok? && model.alpha > 0.0 {
      ExtendOk(model, [first.value], tail);
    }
  }

  /** continue_urn_once(prefix, M): a copy of prefix extended by Pn draws up
      to length M; the caller's list is a value here and is never changed. */
  method ContinueUrnOnce(prefix: seq<real>, model: PolyaSequenceModel, M: int, coins: seq<Coin>)
    returns (r: Result<seq<real>>)
    requires |coins| == MaxInt(M - |prefix|, 0) && CoinsFit(coins, |prefix|)
    ensures r == Extend(model, prefix, coins)
    ensures ParseBase(model.base).Ok? && model.alpha > 0.0 ==> r.Ok?
    ensures r.Ok? ==> |r.value| == MaxInt(M, |prefix|) && r.value[..|prefix|] == prefix
  {
    var x := prefix;
    var n := |x|;
    var m := n;
    while m < M
      invariant n <= m <= MaxInt(M, n) && |x| == m
      invariant CoinsFit(coins[m - n..], m)
      invariant Extend(model, prefix, coins) == Extend(model, x, coins[m - n..])
    {
      assert coins[m - n..][0] == coins[m - n];
      if ParseBase(model.base).Ok? && model.alpha > 0.0 {
        PnOk(model, x, coins[m - n]);
      }
      var v := Pn(model, m, x, coins[m - n]);
      if v.Err? {
        return Err(v.msg);
      }
      assert coins[m - n..][1..] == coins[m - n + 1..];
      x := x + [v.value];
      m := m + 1;
    }
    assert coins[m - n..] == [];
    r := Ok(x);
    ExtendShape(model, prefix, coins);
    if ParseBase(model.base).Ok? && model.alpha > 0.0 {
      ExtendOk(model, prefix, coins);
    }
  }

  /** sample_prior_once(M): the loop of build_prefix with n_obs = M. */
  method SamplePriorOnce(M: int, model: PolyaSequenceModel, coins: seq<Coin>) returns (r: Result<seq<real>>)
    requires |coins| == MaxInt(M, 1) && CoinsFit(coins[1..], 1)
    ensures r == UrnSequence(model, coins)
    ensures r.Ok? ==> |r.value| == MaxInt(M, 1) && r.value[0] == coins[0].z
  {
    r := BuildPrefix(M, model, coins);
  }

  /** With the uniform base and unit variates the whole sequence lies in [0,1]. */
  lemma UrnSequenceUnitSupport(model: PolyaSequenceModel, coins: seq<Coin>)
    requires |coins| >= 1 && CoinsFit(coins[1..], 1) && UnitBaseDraws(coins)
    ensures UrnSequence(model, coins).Ok? ==>
              forall k :: 0 <= k < |UrnSequence(model, coins).value| ==> 0.0 <= UrnSequence(model, coins).value[k] <= 1.0
  {
    if P0(model, coins[0]).Ok? {
      assert UnitBaseDraws(coins[1..]) by {
        forall k | 0 <= k < |coins[1..]| ensures 0.0 <= coins[1..][k].z < 1.0 {
          assert coins[1..][k] == coins[k + 1];
        }
      }
      UnitSupport(model, [coins[0].z], coins[1..]);
    }
  }
}
