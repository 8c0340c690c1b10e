/** One replicate of the Proposition 2.6 experiment: draw x_1..x_n from the
    Polya urn while keeping, for every threshold t, the count K_m(t), the
    previous predictive P_{m-1}(t) and the running sum of m^2 (P_m - P_{m-1})^2;
    then extend the same urn by L draws to estimate F~(t), and emit the
    interval [P_n - z se, P_n + z se] with its coverage flag.

    The source keys its dictionaries by threshold but runs every update loop
    over the threshold LIST. `ReplicateOver` takes the list the update loops
    run over (`keys`) apart from the list the rows are emitted for (`ts`):
    `Replicate` is the code as written (keys = ts), `ReplicateDistinct` the
    corrected run over the distinct thresholds. */
module Prop26 {
  import opened Numerics
  import opened BaseMeasure
  import opened DpPredictive
  import Urn

  // ---------------------------------------------------------------------
  // The urn step of the experiment
  // ---------------------------------------------------------------------

  /** draw_polya_next(xs, alpha, rng, base): a fresh base draw when the coin
      falls below alpha/(alpha+m), otherwise a copy of xs[j] with j < m. */
  function DrawPolyaNext(xs: seq<real>, alpha: real, c: Urn.Coin, base: string): (r: Result<real>)
    requires Urn.CoinOk(c, |xs|)
    ensures alpha + (|xs| as real) == 0.0 ==> r.Err?
    ensures r.Ok? ==> r.value == c.z || (c.j < |xs| && r.value == xs[c.j])
    ensures (alpha + (|xs| as real) != 0.0 && c.u < alpha / (alpha + (|xs| as real)))
              ==> r == SampleFromBase(c.z, base)
    ensures (|xs| > 0 && alpha + (|xs| as real) != 0.0 && c.u >= alpha / (alpha + (|xs| as real)))
              ==> r == Ok(xs[c.j])
  {
    var m := |xs|;
    if alpha + (m as real) == 0.0 then Err("float division by zero")
    else
      var pNew := alpha / (alpha + (m as real));
      if c.u < pNew then SampleFromBase(c.z, base)
      else if m == 0 then Err("high <= 0")
      else Ok(xs[c.j])
  }

  /** With no atoms yet the fresh-draw probability is 1: the first draw always
      comes from the base and never indexes the empty list. */
  lemma DrawPolyaNextEmpty(alpha: real, c: Urn.Coin, base: string)
    requires alpha != 0.0 && Urn.CoinOk(c, 0)
    ensures DrawPolyaNext([], alpha, c, base) == SampleFromBase(c.z, base)
  {
    assert alpha / (alpha + 0.0) == 1.0;
  }

  /** For a known base it is the urn's own predictive draw Pn(len(xs), xs). */
  lemma DrawPolyaNextIsPn(xs: seq<real>, alpha: real, c: Urn.Coin, b: BaseKind)
    requires Urn.CoinOk(c, |xs|)
    ensures DrawPolyaNext(xs, alpha, c, BaseName(b)) == Urn.Pn(UrnModel(alpha, b), |xs|, xs, c)
  {
  }

  function UrnModel(alpha: real, b: BaseKind): Urn.PolyaSequenceModel
  {
    Urn.PolyaSequenceModel(alpha, BaseName(b))
  }

  // ---------------------------------------------------------------------
  // The quantities the dictionaries are meant to hold
  // ---------------------------------------------------------------------

  /** How many times the update loops visit threshold t. */
  function Occ(keys: seq<real>, t: real): (c: nat)
    ensures c <= |keys|
    ensures c > 0 <==> t in keys
  {
    if keys == [] then 0
    else
      assert forall s :: s in keys <==> s == keys[0] || s in keys[1..];
      (if keys[0] == t then 1 else 0) + Occ(keys[1..], t)
  }

  /** Appending a key adds one visit of that key. */
  lemma {:induction false} OccSnoc(keys: seq<real>, u: real, t: real)
    ensures Occ(keys + [u], t) == Occ(keys, t) + (if u == t then 1 else 0)
  {
    if keys != [] {
      assert (keys + [u])[1..] == keys[1..] + [u];
      OccSnoc(keys[1..], u, t);
    }
  }

  /** In a list without repeats every member is visited exactly once. */
  lemma {:induction false} OccDistinct(keys: seq<real>, t: real)
    requires Distinct(keys) && t in keys
    ensures Occ(keys, t) == 1
  {
    assert Distinct(keys[1..]) by {
      forall i, j | 0 <= i < j < |keys[1..]| ensures keys[1..][i] != keys[1..][j] {
        assert keys[1..][i] == keys[i + 1] && keys[1..][j] == keys[j + 1];
      }
    }
    if t == keys[0] {
      assert t !in keys[1..] by {
        forall i | 0 <= i < |keys[1..]| ensures keys[1..][i] != t {
          assert keys[1..][i] == keys[i + 1];
        }
      }
    } else {
      assert t in keys[1..] by {
        var i :| 0 <= i < |keys| && keys[i] == t;
        assert keys[1..][i - 1] == t;
      }
      OccDistinct(keys[1..], t);
    }
  }

  /** Km[t] as the update loops compute it: every atom at or below t adds
      one per visit of t. */
  function OccCount(keys: seq<real>, xs: seq<real>, t: real): nat
  {
    if xs == [] then 0
    else OccCount(keys, xs[..|xs| - 1], t) + (if xs[|xs| - 1] <= t then Occ(keys, t) else 0)
  }

  lemma OccCountSnoc(keys: seq<real>, xs: seq<real>, x: real, t: real)
    ensures OccCount(keys, xs + [x], t) == OccCount(keys, xs, t) + (if x <= t then Occ(keys, t) else 0)
  {
    assert (xs + [x])[..|xs|] == xs;
  }

  /** Km[t] = occ(t) * K(t): the count is scaled by the number of visits. */
  lemma {:induction false} OccCountProduct(keys: seq<real>, xs: seq<real>, t: real)
    ensures OccCount(keys, xs, t) == Occ(keys, t) * CountLeq(xs, t)
  {
    if xs != [] {
      var p := xs[..|xs| - 1];
      OccCountProduct(keys, p, t);
      var o := Occ(keys, t);
      var k := CountLeq(p, t);
      assert OccCount(keys, p, t) == o * k;
      if xs[|xs| - 1] <= t {
        assert OccCount(keys, xs, t) == o * k + o;
        assert CountLeq(xs, t) == k + 1;
        MulAddOne(o, k);
      } else {
        assert OccCount(keys, xs, t) == o * k;
        assert CountLeq(xs, t) == k;
      }
    }
  }

  lemma MulAddOne(o: nat, k: nat)
    ensures o * (k + 1) == o * k + o
  {
  }

  /** With distinct keys the count is the number of atoms at or below t. */
  lemma OccCountDistinct(keys: seq<real>, xs: seq<real>, t: real)
    requires Distinct(keys) && t in keys
    ensures OccCount(keys, xs, t) == CountLeq(xs, t)
  {
    OccDistinct(keys, t);
    OccCountProduct(keys, xs, t);
  }

  /** (alpha G0(t) + k) / (alpha + m): the formula of lines 84 and 94. */
  function PnValue(alpha: real, g: real, k: int, m: int): real
    requires alpha + (m as real) != 0.0
  {
    (alpha * g + (k as real)) / (alpha + (m as real))
  }

  /** The value P_prev[t] (and Pn[t]) carries after the atoms xs:
      G0(t) before any draw, then (alpha G0(t) + Km[t]) / (alpha + |xs|). */
  function TrackedP(alpha: real, g: real, keys: seq<real>, xs: seq<real>, t: real): real
    requires xs == [] || alpha + (|xs| as real) != 0.0
  {
    if xs == [] then g else PnValue(alpha, g, OccCount(keys, xs, t), |xs|)
  }

  /** Over distinct keys the tracked value is the Polya predictive P_m(t). */
  lemma TrackedIsPStep(alpha: real, g: real, keys: seq<real>, xs: seq<real>, t: real)
    requires xs == [] || alpha + (|xs| as real) != 0.0
    requires Distinct(keys) && t in keys
    ensures TrackedP(alpha, g, keys, xs, t) == PStep(alpha, g, xs, t)
  {
    if xs != [] {
      OccCountDistinct(keys, xs, t);
      FracSame(alpha * g + (OccCount(keys, xs, t) as real), alpha * g + (CountLeq(xs, t) as real),
               alpha + (|xs| as real), alpha + (|xs| as real));
    }
  }

  lemma FracSame(a1: real, a2: real, d1: real, d2: real)
    requires a1 == a2 && d1 == d2 && d1 != 0.0
    ensures a1 / d1 == a2 / d2
  {
  }

  lemma TermSame(m1: nat, m2: nat, e1: real, e2: real)
    requires m1 == m2 && e1 == e2
    ensures Term(m1, e1) == Term(m2, e2)
  {
  }

  /** The m-th summand m^2 e^2 of the variance sum, e = P_m(t) - P_{m-1}(t). */
  function Term(m: nat, e: real): real
  {
    ((m * m) as real) * Sq(e)
  }

  /** sum_{m=1}^{|xs|} m^2 (P_m(t) - P_{m-1}(t))^2 */
  function VSum(alpha: real, g: real, xs: seq<real>, t: real): real
    requires xs == [] || DenomsNonZero(alpha, |xs|)
  {
    if xs == [] then 0.0
    else
      var m := |xs|;
      var p := xs[..m - 1];
      assert Denom(alpha, m) != 0.0;
      assert p == [] || Denom(alpha, m - 1) != 0.0;
      VSum(alpha, g, p, t) + Term(m, PStep(alpha, g, xs, t) - PStep(alpha, g, p, t))
  }

  /** One term m^2 e^2 lies in [0,1) when the step is
      e = P_m - P_{m-1} = (i - P_{m-1}) / (alpha + m) with i in {0,1}. */
  lemma TermBelowOne(alpha: real, pPrev: real, i: real, m: nat, e: real)
    requires alpha > 0.0 && m >= 1 && 0.0 <= pPrev <= 1.0 && (i == 0.0 || i == 1.0)
    requires e == (i - pPrev) / (alpha + (m as real))
    ensures 0.0 <= Term(m, e) < 1.0
  {
    QuotientTimes(i - pPrev, alpha + (m as real), e);
    IncrementTermBelowOne(alpha, pPrev, i, m, e);
    SqNonNeg(e);
    NonNegProduct((m * m) as real, Sq(e));
    assert Term(m, e) == ((m * m) as real) * Sq(e);
  }

  lemma SqNonNeg(x: real)
    ensures Sq(x) >= 0.0
  {
    if x < 0.0 {
      NonNegProduct(-x, -x);
    } else {
      NonNegProduct(x, x);
    }
  }

  lemma QuotientTimes(a: real, d: real, e: real)
    requires d != 0.0 && e == a / d
    ensures e * d == a
  {
  }

  /** The last term of the sum, split off. */
  lemma VSumLast(alpha: real, g: real, xs: seq<real>, t: real)
    requires xs != [] && DenomsNonZero(alpha, |xs|)
    ensures Denom(alpha, |xs|) != 0.0 && (xs[..|xs| - 1] == [] || Denom(alpha, |xs| - 1) != 0.0)
    ensures VSum(alpha, g, xs, t) == VSum(alpha, g, xs[..|xs| - 1], t)
              + Term(|xs|, PStep(alpha, g, xs, t) - PStep(alpha, g, xs[..|xs| - 1], t))
  {
  }

  /** The last step of P, written with the prefix xs[..|xs|-1]. */
  lemma PStepIncrementLast(alpha: real, g: real, xs: seq<real>, t: real)
    requires xs != [] && DenomsNonZero(alpha, |xs|)
    ensures Denom(alpha, |xs|) != 0.0 && (xs[..|xs| - 1] == [] || Denom(alpha, |xs| - 1) != 0.0)
    ensures PStep(alpha, g, xs, t) - PStep(alpha, g, xs[..|xs| - 1], t)
            == ((Indicator(xs[|xs| - 1] <= t) as real) - PStep(alpha, g, xs[..|xs| - 1], t)) / (alpha + (|xs| as real))
  {
    var p := xs[..|xs| - 1];
    var x := xs[|xs| - 1];
    assert Denom(alpha, |xs|) != 0.0 && Denom(alpha, 0) != 0.0;
    assert p == [] || Denom(alpha, |xs| - 1) != 0.0;
    assert xs == p + [x];
    PStepIncrement(alpha, g, p, x, t);
    DivSame((Indicator(x <= t) as real) - PStep(alpha, g, p, t), alpha + ((|p| + 1) as real), alpha + (|xs| as real));
  }

  lemma DivSame(a: real, d1: real, d2: real)
    requires d1 == d2 && d1 != 0.0
    ensures a / d1 == a / d2
  {
  }

  /** The last term of the sum lies in [0,1). */
  lemma VSumStepBound(alpha: real, g: real, xs: seq<real>, t: real)
    requires alpha > 0.0 && 0.0 <= g <= 1.0 && xs != []
    ensures DenomsNonZero(alpha, |xs|)
    ensures 0.0 <= VSum(alpha, g, xs, t) - VSum(alpha, g, xs[..|xs| - 1], t) < 1.0
  {
    DenomsNonZeroPositive(alpha, |xs|);
    VSumLast(alpha, g, xs, t);
    PStepIncrementLast(alpha, g, xs, t);
    TermBelowOne(alpha, PStep(alpha, g, xs[..|xs| - 1], t), Indicator(xs[|xs| - 1] <= t) as real, |xs|,
                 PStep(alpha, g, xs, t) - PStep(alpha, g, xs[..|xs| - 1], t));
  }

  /** Every term of the sum is below 1, so 0 <= V < n and V_{n,t} = V / n
      lies in [0,1). */
  lemma {:induction false} VSumBound(alpha: real, g: real, xs: seq<real>, t: real)
    requires alpha > 0.0 && 0.0 <= g <= 1.0
    ensures DenomsNonZero(alpha, |xs|)
    ensures 0.0 <= VSum(alpha, g, xs, t)
    ensures xs != [] ==> VSum(alpha, g, xs, t) < |xs| as real
  {
    DenomsNonZeroPositive(alpha, |xs|);
    if xs != [] {
      var m := |xs|;
      var p := xs[..m - 1];
      VSumBound(alpha, g, p, t);
      VSumStepBound(alpha, g, xs, t);
      assert p == [] ==> VSum(alpha, g, p, t) == 0.0;
      AddTermBelow(VSum(alpha, g, xs, t), VSum(alpha, g, p, t), VSum(alpha, g, xs, t) - VSum(alpha, g, p, t), m);
    }
  }

  lemma AddTermBelow(v: real, vp: real, term: real, m: nat)
    requires m >= 1 && v == vp + term && 0.0 <= term < 1.0 && 0.0 <= vp
    requires m == 1 ==> vp == 0.0
    requires m > 1 ==> vp < (m - 1) as real
    ensures 0.0 <= v < m as real
  {
  }

  /** The dictionaries Km, P_prev and Vnt during the prefix loop. */
  datatype Books = Books(km: map<real, int>, prev: map<real, real>, v: map<real, real>)

  predicate KeyedBy(b: Books, keys: seq<real>)
  {
    forall t :: t in keys ==> t in b.km && t in b.prev && t in b.v
  }

  /** What the dictionaries hold once the atoms xs have been drawn. */
  predicate BooksAfter(b: Books, keys: seq<real>, alpha: real, base: BaseKind, Phi: real -> real, xs: seq<real>)
  {
    && KeyedBy(b, keys)
    && (keys != [] && xs != [] ==> DenomsNonZero(alpha, |xs|) && Denom(alpha, |xs|) != 0.0)
    && (forall t :: t in keys ==> b.km[t] == OccCount(keys, xs, t))
    && (keys != [] ==> forall t :: t in keys ==>
          b.prev[t] == TrackedP(alpha, G0Cdf(base, t, Phi), keys, xs, t))
    && (keys != [] && Distinct(keys) ==> forall t :: t in keys ==>
          b.v[t] == VSum(alpha, G0Cdf(base, t, Phi), xs, t))
  }

  /** P_prev[t] holds P_m(t) computed from the current Km[t]. */
  predicate FreshAt(b: Books, t: real, alpha: real, g: real, m: nat)
  {
    t in b.km && t in b.prev && alpha + (m as real) != 0.0 &&
    b.prev[t] == PnValue(alpha, g, b.km[t], m)
  }

  /** Vnt[t] has received m^2 (P_prev[t] - P_prev0[t])^2 on top of its value in b0. */
  predicate AccumulatedAt(b: Books, b0: Books, t: real, m: nat)
  {
    t in b.v && t in b0.v && t in b.prev && t in b0.prev &&
    b.v[t] == b0.v[t] + Term(m, b.prev[t] - b0.prev[t])
  }

  /** The inner loop body for key t: Km[t] += 1[x_m <= t], P_m(t) from the
      new count, Vnt[t] += m^2 (P_m(t) - P_prev[t])^2, P_prev[t] = P_m(t);
      every other key keeps its entries. */
  function VisitKey(b: Books, t: real, x: real, m: nat, alpha: real, base: BaseKind, Phi: real -> real): (b': Books)
    requires t in b.km && t in b.prev && t in b.v && alpha + (m as real) != 0.0
    ensures b'.km == b.km[t := b.km[t] + (if x <= t then 1 else 0)]
    ensures t in b'.prev && b'.prev == b.prev[t := b'.prev[t]]
    ensures t in b'.v && b'.v == b.v[t := b'.v[t]]
  {
    var km := if x <= t then b.km[t := b.km[t] + 1] else b.km;
    var pm := PnValue(alpha, G0Cdf(base, t, Phi), km[t], m);
    Books(km, b.prev[t := pm], b.v[t := b.v[t] + Term(m, pm - b.prev[t])])
  }

  /** After the visit, P_prev[t] is P_m(t) from the new count and Vnt[t]
      has received m^2 times the squared change of P_prev[t]. */
  lemma VisitKeyEffect(b: Books, t: real, x: real, m: nat, alpha: real, base: BaseKind, Phi: real -> real)
    requires t in b.km && t in b.prev && t in b.v && alpha + (m as real) != 0.0
    ensures FreshAt(VisitKey(b, t, x, m, alpha, base, Phi), t, alpha, G0Cdf(base, t, Phi), m)
    ensures AccumulatedAt(VisitKey(b, t, x, m, alpha, base, Phi), b, t, m)
  {
  }

  /** The loop body of Sweep is one step of the fold. */
  lemma SweepFoldStep(b: Books, keys: seq<real>, k: nat, x: real, m: nat, alpha: real, base: BaseKind, Phi: real -> real)
    requires k < |keys| && KeyedBy(b, keys[k..]) && alpha + (m as real) != 0.0
    ensures KeyedBy(VisitKey(b, keys[k], x, m, alpha, base, Phi), keys[k + 1..])
    ensures SweepFold(b, keys[k..], x, m, alpha, base, Phi)
            == SweepFold(VisitKey(b, keys[k], x, m, alpha, base, Phi), keys[k + 1..], x, m, alpha, base, Phi)
  {
    assert keys[k..][0] == keys[k];
    assert keys[k..][1..] == keys[k + 1..];
  }

  /** The inner loop over the keys, as a left fold of VisitKey. */
  function SweepFold(b: Books, keys: seq<real>, x: real, m: nat, alpha: real, base: BaseKind, Phi: real -> real)
    : (r: Books)
    requires KeyedBy(b, keys) && (keys != [] ==> alpha + (m as real) != 0.0)
    ensures KeyedBy(r, keys)
    ensures r.km.Keys == b.km.Keys && r.prev.Keys == b.prev.Keys && r.v.Keys == b.v.Keys
    decreases |keys|
  {
    if keys == [] then b
    else
      var b1 := VisitKey(b, keys[0], x, m, alpha, base, Phi);
      assert KeyedBy(b1, keys[1..]);
      var r := SweepFold(b1, keys[1..], x, m, alpha, base, Phi);
      assert forall s :: s in keys <==> s == keys[0] || s in keys[1..];
      r
  }

  /** Keys the sweep does not visit keep all their entries. */
  lemma {:induction false} SweepFoldOthers(b: Books, keys: seq<real>, x: real, m: nat, alpha: real,
                                           base: BaseKind, Phi: real -> real, s: real)
    requires KeyedBy(b, keys) && (keys != [] ==> alpha + (m as real) != 0.0)
    requires s !in keys && s in b.km && s in b.prev && s in b.v
    ensures var r := SweepFold(b, keys, x, m, alpha, base, Phi);
            r.km[s] == b.km[s] && r.prev[s] == b.prev[s] && r.v[s] == b.v[s]
    decreases |keys|
  {
    if keys != [] {
      var b1 := VisitKey(b, keys[0], x, m, alpha, base, Phi);
      assert KeyedBy(b1, keys[1..]);
      SweepFoldOthers(b1, keys[1..], x, m, alpha, base, Phi, s);
    }
  }

  /** Km[t] grows by the number of visits of t when x_m <= t. */
  lemma {:induction false} SweepFoldCounts(b: Books, keys: seq<real>, x: real, m: nat, alpha: real,
                                           base: BaseKind, Phi: real -> real, t: real)
    requires KeyedBy(b, keys) && (keys != [] ==> alpha + (m as real) != 0.0)
    requires t in b.km
    ensures SweepFold(b, keys, x, m, alpha, base, Phi).km[t] == b.km[t] + (if x <= t then Occ(keys, t) else 0)
    decreases |keys|
  {
    if keys != [] {
      var b1 := VisitKey(b, keys[0], x, m, alpha, base, Phi);
      assert KeyedBy(b1, keys[1..]);
      SweepFoldCounts(b1, keys[1..], x, m, alpha, base, Phi, t);
    }
  }

  /** FreshAt depends only on the key's own Km and P_prev entries. */
  lemma FreshAtTransfer(b: Books, r: Books, t: real, alpha: real, g: real, m: nat)
    requires FreshAt(b, t, alpha, g, m) && t in r.km && t in r.prev
    requires r.km[t] == b.km[t] && r.prev[t] == b.prev[t]
    ensures FreshAt(r, t, alpha, g, m)
  {
  }

  /** Over distinct keys, an increment already in b1 carries over to r when
      neither Vnt nor P_prev changes afterwards, and an increment from b1 to r
      is one from b when b1 agrees with b on the key. */
  lemma AccumulatedTransfer(b: Books, b1: Books, r: Books, t: real, m: nat)
    requires t in b.v && t in b.prev && t in b1.v && t in b1.prev && t in r.v && t in r.prev
    requires (AccumulatedAt(b1, b, t, m) && r.v[t] == b1.v[t] && r.prev[t] == b1.prev[t])
          || (AccumulatedAt(r, b1, t, m) && b1.v[t] == b.v[t] && b1.prev[t] == b.prev[t])
    ensures AccumulatedAt(r, b, t, m)
  {
  }

  /** After the sweep, every visited key holds P_m(t) from its final count. */
  lemma {:induction false} SweepFoldFresh(b: Books, keys: seq<real>, x: real, m: nat, alpha: real,
                                          base: BaseKind, Phi: real -> real, t: real)
    requires KeyedBy(b, keys) && (keys != [] ==> alpha + (m as real) != 0.0)
    requires t in keys
    ensures FreshAt(SweepFold(b, keys, x, m, alpha, base, Phi), t, alpha, G0Cdf(base, t, Phi), m)
    decreases |keys|
  {
    var b1 := VisitKey(b, keys[0], x, m, alpha, base, Phi);
    assert KeyedBy(b1, keys[1..]);
    var r := SweepFold(b1, keys[1..], x, m, alpha, base, Phi);
    assert SweepFold(b, keys, x, m, alpha, base, Phi) == r;
    if t in keys[1..] {
      SweepFoldFresh(b1, keys[1..], x, m, alpha, base, Phi, t);
    } else {
      SweepFoldOthers(b1, keys[1..], x, m, alpha, base, Phi, t);
      VisitKeyEffect(b, keys[0], x, m, alpha, base, Phi);
      FreshAtTransfer(b1, r, t, alpha, G0Cdf(base, t, Phi), m);
    }
  }

  /** Over distinct keys, Vnt[t] receives exactly one increment
      m^2 (P_m(t) - P_{m-1}(t))^2. */
  lemma {:induction false} SweepFoldAccumulates(b: Books, keys: seq<real>, x: real, m: nat, alpha: real,
                                                base: BaseKind, Phi: real -> real, t: real)
    requires KeyedBy(b, keys) && (keys != [] ==> alpha + (m as real) != 0.0)
    requires Distinct(keys) && t in keys
    ensures AccumulatedAt(SweepFold(b, keys, x, m, alpha, base, Phi), b, t, m)
    decreases |keys|
  {
    var b1 := VisitKey(b, keys[0], x, m, alpha, base, Phi);
    assert KeyedBy(b1, keys[1..]);
    var r := SweepFold(b1, keys[1..], x, m, alpha, base, Phi);
    assert SweepFold(b, keys, x, m, alpha, base, Phi) == r;
    assert Distinct(keys[1..]) by {
      forall i, j | 0 <= i < j < |keys[1..]| ensures keys[1..][i] != keys[1..][j] {
        assert keys[1..][i] == keys[i + 1] && keys[1..][j] == keys[j + 1];
      }
    }
    if t == keys[0] {
      assert t !in keys[1..] by {
        forall i | 0 <= i < |keys[1..]| ensures keys[1..][i] != t {
          assert keys[1..][i] == keys[i + 1];
        }
      }
      SweepFoldOthers(b1, keys[1..], x, m, alpha, base, Phi, t);
      VisitKeyEffect(b, keys[0], x, m, alpha, base, Phi);
      AccumulatedTransfer(b, b1, r, t, m);
    } else {
      assert t in keys[1..];
      SweepFoldAccumulates(b1, keys[1..], x, m, alpha, base, Phi, t);
      assert b1.v[t] == b.v[t] && b1.prev[t] == b.prev[t];
      AccumulatedTransfer(b, b1, r, t, m);
    }
  }

  /** The sweep state after k visits: the rest of the fold from b gives
      the fold from b0. */
  predicate SweepInvariant(b0: Books, b: Books, keys: seq<real>, k: nat, x: real, m: nat,
                           alpha: real, base: BaseKind, Phi: real -> real)
  {
    && k <= |keys| && KeyedBy(b0, keys) && KeyedBy(b, keys[k..])
    && (keys != [] ==> alpha + (m as real) != 0.0)
    && SweepFold(b0, keys, x, m, alpha, base, Phi) == SweepFold(b, keys[k..], x, m, alpha, base, Phi)
  }

  lemma SweepInvariantStep(b0: Books, b: Books, keys: seq<real>, k: nat, x: real, m: nat,
                           alpha: real, base: BaseKind, Phi: real -> real)
    requires SweepInvariant(b0, b, keys, k, x, m, alpha, base, Phi) && k < |keys|
    ensures keys[k] in b.km && keys[k] in b.prev && keys[k] in b.v && alpha + (m as real) != 0.0
    ensures SweepInvariant(b0, VisitKey(b, keys[k], x, m, alpha, base, Phi), keys, k + 1, x, m, alpha, base, Phi)
  {
    SweepFoldStep(b, keys, k, x, m, alpha, base, Phi);
  }

  lemma SweepInvariantDone(b0: Books, b: Books, keys: seq<real>, x: real, m: nat,
                           alpha: real, base: BaseKind, Phi: real -> real)
    requires SweepInvariant(b0, b, keys, |keys|, x, m, alpha, base, Phi)
    ensures b == SweepFold(b0, keys, x, m, alpha, base, Phi)
  {
    assert keys[|keys|..] == [];
  }

  /** Lines 82-87 for one new atom x_m: visit every key in list order. */
  method Sweep(keys: seq<real>, x: real, m: nat, alpha: real, base: BaseKind, Phi: real -> real, b0: Books)
    returns (r: Result<Books>)
    requires m >= 1 && KeyedBy(b0, keys)
    ensures r.Err? <==> keys != [] && alpha + (m as real) == 0.0
    ensures r.Ok? ==> r.value == SweepFold(b0, keys, x, m, alpha, base, Phi)
  {
    if keys != [] && alpha + (m as real) == 0.0 {
      return Err("float division by zero");
    }
    var b := b0;
    var k := 0;
    assert keys[0..] == keys;
    while k < |keys|
      invariant SweepInvariant(b0, b, keys, k, x, m, alpha, base, Phi)
    {
      SweepInvariantStep(b0, b, keys, k, x, m, alpha, base, Phi);
      b := VisitKey(b, keys[k], x, m, alpha, base, Phi);
      k := k + 1;
    }
    SweepInvariantDone(b0, b, keys, x, m, alpha, base, Phi);
    return Ok(b);
  }

  /** One sweep after the atom x keeps Km[t] equal to the scaled count. */
  lemma StepCounts(b: Books, keys: seq<real>, alpha: real, base: BaseKind, Phi: real -> real,
                   xs: seq<real>, x: real, m: nat, t: real)
    requires BooksAfter(b, keys, alpha, base, Phi, xs) && m == |xs| + 1
    requires alpha + (m as real) != 0.0 && t in keys
    ensures SweepFold(b, keys, x, m, alpha, base, Phi).km[t] == OccCount(keys, xs + [x], t)
  {
    SweepFoldCounts(b, keys, x, m, alpha, base, Phi, t);
    OccCountSnoc(keys, xs, x, t);
  }

  /** ... and P_prev[t] equal to the tracked predictive. */
  lemma StepPrev(b: Books, keys: seq<real>, alpha: real, base: BaseKind, Phi: real -> real,
                 xs: seq<real>, x: real, m: nat, t: real)
    requires BooksAfter(b, keys, alpha, base, Phi, xs) && m == |xs| + 1
    requires alpha + (m as real) != 0.0 && t in keys
    ensures alpha + (|xs + [x]| as real) != 0.0
    ensures SweepFold(b, keys, x, m, alpha, base, Phi).prev[t] == TrackedP(alpha, G0Cdf(base, t, Phi), keys, xs + [x], t)
  {
    var r := SweepFold(b, keys, x, m, alpha, base, Phi);
    var g := G0Cdf(base, t, Phi);
    StepCounts(b, keys, alpha, base, Phi, xs, x, m, t);
    SweepFoldFresh(b, keys, x, m, alpha, base, Phi, t);
    assert |xs + [x]| == m;
  }

  /** ... and, over distinct keys, Vnt[t] equal to the variance sum. */
  lemma StepV(b: Books, keys: seq<real>, alpha: real, base: BaseKind, Phi: real -> real,
              xs: seq<real>, x: real, m: nat, t: real)
    requires BooksAfter(b, keys, alpha, base, Phi, xs) && m == |xs| + 1
    requires DenomsNonZero(alpha, m) && alpha + (m as real) != 0.0 && Distinct(keys) && t in keys
    ensures SweepFold(b, keys, x, m, alpha, base, Phi).v[t] == VSum(alpha, G0Cdf(base, t, Phi), xs + [x], t)
  {
    var r := SweepFold(b, keys, x, m, alpha, base, Phi);
    var g := G0Cdf(base, t, Phi);
    var xs' := xs + [x];
    SweepFoldAccumulates(b, keys, x, m, alpha, base, Phi, t);
    StepPrevIsPStep(b, keys, alpha, base, Phi, xs, x, m, t);
    VSumSnoc(alpha, g, xs, x, t);
    TermSame(m, |xs'|, r.prev[t] - b.prev[t], PStep(alpha, g, xs', t) - PStep(alpha, g, xs, t));
  }

  /** Over distinct keys, P_prev[t] is P_{m-1}(t) before the sweep and
      P_m(t) after it. */
  lemma StepPrevIsPStep(b: Books, keys: seq<real>, alpha: real, base: BaseKind, Phi: real -> real,
                        xs: seq<real>, x: real, m: nat, t: real)
    requires BooksAfter(b, keys, alpha, base, Phi, xs) && m == |xs| + 1
    requires DenomsNonZero(alpha, m) && alpha + (m as real) != 0.0 && Distinct(keys) && t in keys
    ensures xs == [] || alpha + (|xs| as real) != 0.0
    ensures b.prev[t] == PStep(alpha, G0Cdf(base, t, Phi), xs, t)
    ensures SweepFold(b, keys, x, m, alpha, base, Phi).prev[t] == PStep(alpha, G0Cdf(base, t, Phi), xs + [x], t)
  {
    var g := G0Cdf(base, t, Phi);
    assert xs == [] || Denom(alpha, |xs|) != 0.0;
    TrackedIsPStep(alpha, g, keys, xs, t);
    StepPrev(b, keys, alpha, base, Phi, xs, x, m, t);
    TrackedIsPStep(alpha, g, keys, xs + [x], t);
  }

  /** The variance sum over xs + [x] adds one term to the sum over xs. */
  lemma VSumSnoc(alpha: real, g: real, xs: seq<real>, x: real, t: real)
    requires DenomsNonZero(alpha, |xs| + 1)
    ensures xs == [] || DenomsNonZero(alpha, |xs|)
    ensures xs == [] || alpha + (|xs| as real) != 0.0
    ensures alpha + (|xs + [x]| as real) != 0.0
    ensures VSum(alpha, g, xs + [x], t)
            == VSum(alpha, g, xs, t) + Term(|xs + [x]|, PStep(alpha, g, xs + [x], t) - PStep(alpha, g, xs, t))
  {
    var xs' := xs + [x];
    assert Denom(alpha, |xs'|) != 0.0;
    assert xs == [] || Denom(alpha, |xs|) != 0.0;
    VSumLast(alpha, g, xs', t);
    assert xs'[..|xs'| - 1] == xs;
  }

  /** One pass of the prefix loop preserves what the dictionaries mean. */
  lemma BooksAfterStep(b: Books, keys: seq<real>, alpha: real, base: BaseKind, Phi: real -> real,
                       xs: seq<real>, x: real, m: nat)
    requires BooksAfter(b, keys, alpha, base, Phi, xs) && m == |xs| + 1
    requires keys != [] ==> DenomsNonZero(alpha, m)
    ensures KeyedBy(b, keys) && (keys != [] ==> alpha + (m as real) != 0.0)
    ensures BooksAfter(SweepFold(b, keys, x, m, alpha, base, Phi), keys, alpha, base, Phi, xs + [x])
  {
    if keys != [] {
      assert Denom(alpha, m) != 0.0;
    }
    var r := SweepFold(b, keys, x, m, alpha, base, Phi);
    forall t | t in keys ensures r.km[t] == OccCount(keys, xs + [x], t) {
      StepCounts(b, keys, alpha, base, Phi, xs, x, m, t);
    }
    if keys != [] {
      assert Denom(alpha, |xs + [x]|) != 0.0;
      forall t | t in keys ensures r.prev[t] == TrackedP(alpha, G0Cdf(base, t, Phi), keys, xs + [x], t) {
        StepPrev(b, keys, alpha, base, Phi, xs, x, m, t);
      }
      if Distinct(keys) {
        forall t | t in keys ensures r.v[t] == VSum(alpha, G0Cdf(base, t, Phi), xs + [x], t) {
          StepV(b, keys, alpha, base, Phi, xs, x, m, t);
        }
      }
    }
  }

  /** Lines 72-74: Km = 0, P_prev = G0 and Vnt = 0 for every key. */
  function InitialBooks(keys: seq<real>, alpha: real, base: BaseKind, Phi: real -> real): (b: Books)
    ensures BooksAfter(b, keys, alpha, base, Phi, [])
  {
    Books(map t | t in keys :: 0, map t | t in keys :: G0Cdf(base, t, Phi), map t | t in keys :: 0.0)
  }

  /** Lines 70-87: the prefix x_1..x_n drawn from the urn, with the
      dictionaries updated after each draw. */
  method PrefixPhase(keys: seq<real>, alpha: real, base: BaseKind, Phi: real -> real, n: int, coins: seq<Urn.Coin>)
    returns (r: Result<(seq<real>, Books)>)
    requires |coins| == MaxInt(n, 0) && Urn.CoinsFit(coins, 0)
    ensures r.Ok? ==> Urn.Extend(UrnModel(alpha, base), [], coins) == Ok(r.value.0)
    ensures r.Ok? ==> |r.value.0| == MaxInt(n, 0)
    ensures r.Ok? ==> BooksAfter(r.value.1, keys, alpha, base, Phi, r.value.0)
    ensures alpha > 0.0 ==> r.Ok?
  {
    var model := UrnModel(alpha, base);
    var b := InitialBooks(keys, alpha, base, Phi);
    var xs: seq<real> := [];
    var m := 1;
    while m <= n
      invariant 1 <= m && |xs| == m - 1 <= |coins|
      invariant Urn.CoinsFit(coins[|xs|..], |xs|)
      invariant Urn.Extend(model, [], coins) == Urn.Extend(model, xs, coins[|xs|..])
      invariant xs != [] ==> DenomsNonZero(alpha, |xs| - 1)
      invariant BooksAfter(b, keys, alpha, base, Phi, xs)
    {
      var c := coins[|xs|];
      assert coins[|xs|..][0] == c;
      if alpha > 0.0 {
        Urn.PnOk(model, xs, c);
      }
      DrawPolyaNextIsPn(xs, alpha, c, base);
      var x := DrawPolyaNext(xs, alpha, c, BaseName(base));
      if x.Err? {
        return Err(x.msg);
      }
      assert DenomsNonZero(alpha, |xs|) by {
        assert Denom(alpha, |xs|) != 0.0;
        if xs != [] {
          DenomsNonZeroExtend(alpha, |xs| - 1);
        }
      }
      var swept := Sweep(keys, x.value, m, alpha, base, Phi, b);
      if swept.Err? {
        return Err(swept.msg);
      }
      if keys != [] {
        DenomsNonZeroExtend(alpha, |xs|);
      }
      BooksAfterStep(b, keys, alpha, base, Phi, xs, x.value, m);
      assert coins[|xs|..][1..] == coins[|xs| + 1..];
      xs := xs + [x.value];
      b := swept.value;
      m := m + 1;
    }
    assert coins[|xs|..] == [];
    return Ok((xs, b));
  }

  /** Lines 90-91: Vnt[t] /= n, once per visit of t. */
  method Finalize(keys: seq<real>, n: int, v0: map<real, real>) returns (r: Result<map<real, real>>)
    requires forall t :: t in keys ==> t in v0
    ensures r.Err? <==> keys != [] && n == 0
    ensures r.Ok? ==> forall t :: t in keys ==> t in r.value
    ensures r.Ok? && Distinct(keys) ==> forall t :: t in keys ==> r.value[t] == v0[t] / (n as real)
  {
    if keys != [] && n == 0 {
      return Err("division by zero");
    }
    var v := v0;
    var k := 0;
    while k < |keys|
      invariant 0 <= k <= |keys|
      invariant forall t :: t in keys ==> t in v
      invariant Distinct(keys) ==> forall t :: t in keys[..k] ==> v[t] == v0[t] / (n as real)
      invariant Distinct(keys) ==> forall t :: t in keys && t !in keys[..k] ==> v[t] == v0[t]
    {
      var t := keys[k];
      assert keys[..k + 1] == keys[..k] + [t];
      assert keys[..k + 1][..k] == keys[..k];
      if Distinct(keys) {
        assert t !in keys[..k];
      }
      v := v[t := v[t] / (n as real)];
      k := k + 1;
    }
    assert keys[..k] == keys;
    return Ok(v);
  }

  /** Pn[t] = (alpha G0(t) + Km[t]) / (alpha + n) for every threshold. */
  predicate PnEntries(keys: seq<real>, pn: map<real, real>, alpha: real, base: BaseKind, Phi: real -> real, n: int, km: map<real, int>)
    requires forall t :: t in keys ==> t in km
  {
    forall t :: t in keys ==> t in pn && alpha + (n as real) != 0.0 && pn[t] == PnValue(alpha, G0Cdf(base, t, Phi), km[t], n)
  }

  /** Line 94: Pn[t] = (alpha G0(t) + Km[t]) / (alpha + n). */
  function PnTable(keys: seq<real>, alpha: real, base: BaseKind, Phi: real -> real, n: int, km: map<real, int>)
    : (r: Result<map<real, real>>)
    requires forall t :: t in keys ==> t in km
    ensures r.Err? <==> keys != [] && alpha + (n as real) == 0.0
    ensures r.Ok? ==> PnEntries(keys, r.value, alpha, base, Phi, n, km)
  {
    if keys != [] && alpha + (n as real) == 0.0 then Err("float division by zero")
    else if keys == [] then Ok(map[])
    else Ok(map t | t in keys :: PnValue(alpha, G0Cdf(base, t, Phi), km[t], n))
  }

  /** Lines 101-103 for one continuation draw: tail_leq[t] += 1 per visit
      of a threshold at or above the draw. */
  method TailSweep(keys: seq<real>, x: real, tail0: map<real, int>) returns (tail: map<real, int>)
    requires forall t :: t in keys ==> t in tail0
    ensures forall t :: t in keys ==> t in tail && tail[t] == tail0[t] + (if x <= t then Occ(keys, t) else 0)
  {
    tail := tail0;
    var k := 0;
    while k < |keys|
      invariant 0 <= k <= |keys|
      invariant forall t :: t in keys ==> t in tail && tail[t] == tail0[t] + (if x <= t then Occ(keys[..k], t) else 0)
    {
      var t := keys[k];
      assert keys[..k + 1] == keys[..k] + [t];
      forall s | s in keys ensures Occ(keys[..k + 1], s) == Occ(keys[..k], s) + (if t == s then 1 else 0) {
        OccSnoc(keys[..k], t, s);
      }
      if x <= t {
        tail := tail[t := tail[t] + 1];
      }
      k := k + 1;
    }
    assert keys[..k] == keys;
  }

  /** Lines 97-103: extend the SAME list by L urn draws, counting only the
      new draws at or below each threshold. */
  method Continuation(keys: seq<real>, alpha: real, base: BaseKind, L: int, prefix: seq<real>, tailCoins: seq<Urn.Coin>)
    returns (r: Result<(seq<real>, map<real, int>)>)
    requires |tailCoins| == MaxInt(L, 0) && Urn.CoinsFit(tailCoins, |prefix|)
    ensures r.Ok? ==> Urn.Extend(UrnModel(alpha, base), prefix, tailCoins) == Ok(r.value.0)
    ensures r.Ok? ==> |r.value.0| == |prefix| + MaxInt(L, 0) && r.value.0[..|prefix|] == prefix
    ensures r.Ok? ==> forall t :: t in keys ==>
              t in r.value.1 && r.value.1[t] == OccCount(keys, r.value.0[|prefix|..], t)
    ensures alpha > 0.0 ==> r.Ok?
  {
    var model := UrnModel(alpha, base);
    var xs := prefix;
    var tail := map t | t in keys :: 0;
    var j := 0;
    assert xs[|prefix|..] == [];
    while j < L
      invariant 0 <= j <= |tailCoins| && |xs| == |prefix| + j
      invariant xs[..|prefix|] == prefix
      invariant Urn.CoinsFit(tailCoins[j..], |xs|)
      invariant Urn.Extend(model, prefix, tailCoins) == Urn.Extend(model, xs, tailCoins[j..])
      invariant forall t :: t in keys ==> t in tail && tail[t] == OccCount(keys, xs[|prefix|..], t)
    {
      var c := tailCoins[j];
      assert tailCoins[j..][0] == c;
      if alpha > 0.0 {
        Urn.PnOk(model, xs, c);
      }
      DrawPolyaNextIsPn(xs, alpha, c, base);
      var x := DrawPolyaNext(xs, alpha, c, BaseName(base));
      if x.Err? {
        return Err(x.msg);
      }
      assert tailCoins[j..][1..] == tailCoins[j + 1..];
      var tail' := TailSweep(keys, x.value, tail);
      var xs' := xs + [x.value];
      assert xs'[|prefix|..] == xs[|prefix|..] + [x.value];
      forall t | t in keys ensures tail'[t] == OccCount(keys, xs'[|prefix|..], t) {
        OccCountSnoc(keys, xs[|prefix|..], x.value, t);
      }
      assert xs'[..|prefix|] == prefix;
      xs := xs';
      tail := tail';
      j := j + 1;
    }
    assert tailCoins[j..] == [];
    return Ok((xs, tail));
  }

  /** count / L: the share of the L continuation draws at or below t. */
  function Share(count: int, L: int): real
    requires L != 0
  {
    (count as real) / (L as real)
  }

  /** Fhat[t] = tail_leq[t] / L for every threshold. */
  predicate FhatEntries(keys: seq<real>, fhat: map<real, real>, L: int, tail: map<real, int>)
    requires forall t :: t in keys ==> t in tail
  {
    forall t :: t in keys ==> t in fhat && L != 0 && fhat[t] == Share(tail[t], L)
  }

  /** Line 104: Fhat[t] = tail_leq[t] / L. */

  function FhatTable(keys: seq<real>, L: int, tail: map<real, int>): (r: Result<map<real, real>>)
    requires forall t :: t in keys ==> t in tail
    ensures r.Err? <==> keys != [] && L == 0
    ensures r.Ok? ==> FhatEntries(keys, r.value, L, tail)
  {
    if keys != [] && L == 0 then Err("float division by zero")
    else if keys == [] then Ok(map[])
    else Ok(map t | t in keys :: Share(tail[t], L))
  }

  // ---------------------------------------------------------------------
  // Interval rows
  // ---------------------------------------------------------------------

  /** One output row (the bookkeeping columns rep, n, alpha, base, level, L
      are copies of the inputs and are left out). */
  datatype Prop26Row = Prop26Row(t: real, pn: real, vnt: real, z: real, fhat: real,
                                 lo: real, hi: real, covered: bool, width: real)

  const Z95: real := 1.959963984540054

  /** The critical value: 1.959963984540054 for every level; the flag says
      whether the level differed from 0.95 (the warning branch). */
  function CriticalValue(level: real): (r: (real, bool))
    ensures r.0 == Z95
    ensures r.1 <==> Abs(level - 0.95) >= 0.000000000001
  {
    if Abs(level - 0.95) < 0.000000000001 then (Z95, false) else (Z95, true)
  }

  /** Lines 108-116: se = sqrt(max(Vnt, 1e-12) / n) and the interval
      around P_n. */
  function CiRow(t: real, pn: real, vnt: real, fhat: real, n: int, z: real, sqrt: real -> real): (row: Prop26Row)
    requires n > 0
    ensures row.t == t && row.pn == pn && row.vnt == vnt && row.fhat == fhat && row.z == z
    ensures row.width == row.hi - row.lo
    ensures row.covered <==> row.lo <= fhat <= row.hi
    ensures IsSqrt(sqrt) && z > 0.0 ==> row.lo < pn < row.hi
  {
    var arg := MaxReal(vnt, 0.000000000001) / (n as real);
    var se := sqrt(arg);
    assert IsSqrt(sqrt) && z > 0.0 ==> z * se > 0.0 by {
      if IsSqrt(sqrt) && z > 0.0 {
        SePositive(arg, se);
        PositiveProduct(z, se);
      }
    }
    Prop26Row(t, pn, vnt, z, fhat, pn - z * se, pn + z * se, pn - z * se <= fhat <= pn + z * se, 2.0 * z * se)
  }

  lemma SePositive(arg: real, se: real)
    requires arg > 0.0 && se >= 0.0 && se * se == arg
    ensures se > 0.0
  {
    assert se * se != 0.0;
  }

  lemma PositiveProduct(a: real, b: real)
    requires a > 0.0 && b > 0.0
    ensures a * b > 0.0
  {
  }

  /** Lines 107-117: one row per threshold of the list; math.sqrt raises on
      the negative argument a negative n produces. */
  method EmitRows(ts: seq<real>, pn: map<real, real>, vnt: map<real, real>, fhat: map<real, real>,
                  n: int, z: real, sqrt: real -> real)
    returns (r: Result<seq<Prop26Row>>)
    requires forall t :: t in ts ==> t in pn && t in vnt && t in fhat
    ensures r.Err? <==> ts != [] && n <= 0
    ensures r.Ok? ==> |r.value| == |ts|
    ensures r.Ok? ==> forall k :: 0 <= k < |ts| ==>
              n > 0 && r.value[k] == CiRow(ts[k], pn[ts[k]], vnt[ts[k]], fhat[ts[k]], n, z, sqrt)
  {
    if ts != [] && n <= 0 {
      return Err(if n == 0 then "float division by zero" else "math domain error");
    }
    var rows: seq<Prop26Row> := [];
    var k := 0;
    while k < |ts|
      invariant 0 <= k <= |ts| && |rows| == k
      invariant forall i :: 0 <= i < k ==> rows[i] == CiRow(ts[i], pn[ts[i]], vnt[ts[i]], fhat[ts[i]], n, z, sqrt)
    {
      var t := ts[k];
      rows := rows + [CiRow(t, pn[t], vnt[t], fhat[t], n, z, sqrt)];
      k := k + 1;
    }
    return Ok(rows);
  }

  // ---------------------------------------------------------------------
  // One replicate
  // ---------------------------------------------------------------------

  /** The urn sequence one replicate draws: the prefix of MaxInt(n, 0)
      atoms, then the continuation atoms appended to the same list. */
  function ReplicateAtoms(alpha: real, base: BaseKind, n: int, coins: seq<Urn.Coin>, tailCoins: seq<Urn.Coin>)
    : (r: Result<(seq<real>, seq<real>)>)
    requires |coins| == MaxInt(n, 0) && Urn.CoinsFit(coins, 0) && Urn.CoinsFit(tailCoins, MaxInt(n, 0))
    ensures r.Ok? ==> |r.value.0| == MaxInt(n, 0) && |r.value.1| == |tailCoins|
    ensures r.Ok? ==> Urn.Extend(UrnModel(alpha, base), [], coins) == Ok(r.value.0)
    ensures r.Ok? ==> Urn.Extend(UrnModel(alpha, base), r.value.0, tailCoins) == Ok(r.value.0 + r.value.1)
    ensures alpha > 0.0 ==> r.Ok?
  {
    var model := UrnModel(alpha, base);
    Urn.ExtendShape(model, [], coins);
    ExtendOkIfPositive(alpha, base, [], coins);
    match Urn.Extend(model, [], coins)
    case Err(e) => Err(e)
    case Ok(xs) =>
      Urn.ExtendShape(model, xs, tailCoins);
      ExtendOkIfPositive(alpha, base, xs, tailCoins);
      match Urn.Extend(model, xs, tailCoins)
      case Err(e) => Err(e)
      case Ok(all) =>
        assert all == xs + all[|xs|..];
        Ok((xs, all[|xs|..]))
  }

  lemma ExtendOkIfPositive(alpha: real, base: BaseKind, x: seq<real>, coins: seq<Urn.Coin>)
    requires Urn.CoinsFit(coins, |x|)
    ensures alpha > 0.0 ==> Urn.Extend(UrnModel(alpha, base), x, coins).Ok?
  {
    if alpha > 0.0 {
      Urn.ExtendOk(UrnModel(alpha, base), x, coins);
    }
  }

  /** What row k of a successful replicate states about the atoms xs (the
      prefix) and tail (the continuation). */
  ghost predicate RowHolds(row: Prop26Row, t: real, keys: seq<real>, alpha: real, g: real,
                           xs: seq<real>, tail: seq<real>, n: int, L: int, sqrt: real -> real)
  {
    && n == |xs| && n >= 1 && L != 0 && alpha + (|xs| as real) != 0.0
    && row.t == t && row.z == Z95
    && row.pn == TrackedP(alpha, g, keys, xs, t)
    && row.fhat == Share(OccCount(keys, tail, t), L)
    && row.width == row.hi - row.lo
    && (row.covered <==> row.lo <= row.fhat <= row.hi)
    && (IsSqrt(sqrt) ==> row.lo < row.pn < row.hi)
    && (Distinct(keys) ==> DenomsNonZero(alpha, |xs|) && row.vnt == VSum(alpha, g, xs, t) / (|xs| as real))
  }

  /** Pn[t] read back from line 94 is the tracked value. */
  lemma PnEntry(pn: real, alpha: real, g: real, km: int, keys: seq<real>, xs: seq<real>, t: real, n: int)
    requires n == |xs| && n >= 1 && alpha + (n as real) != 0.0
    requires pn == PnValue(alpha, g, km, n) && km == OccCount(keys, xs, t)
    ensures alpha + (|xs| as real) != 0.0 && pn == TrackedP(alpha, g, keys, xs, t)
  {
  }

  /** Vnt[t] after line 91 is the variance sum over n. */
  lemma VntEntry(vnt: real, v: real, alpha: real, g: real, xs: seq<real>, t: real, n: int)
    requires n == |xs| && n >= 1 && DenomsNonZero(alpha, |xs|)
    requires v == VSum(alpha, g, xs, t) && vnt == v / (n as real)
    ensures vnt == VSum(alpha, g, xs, t) / (|xs| as real)
  {
    FracSame(v, VSum(alpha, g, xs, t), n as real, |xs| as real);
  }

  /** The Pn dictionary holds the tracked value of every threshold. */
  ghost predicate PnTracked(keys: seq<real>, pn: map<real, real>, alpha: real, base: BaseKind, Phi: real -> real, xs: seq<real>)
  {
    xs != [] && alpha + (|xs| as real) != 0.0 &&
    forall t :: t in keys ==> t in pn && pn[t] == TrackedP(alpha, G0Cdf(base, t, Phi), keys, xs, t)
  }

  /** The Fhat dictionary holds the share of continuation draws at or below each threshold. */
  ghost predicate FhatShares(keys: seq<real>, fhat: map<real, real>, tail: seq<real>, L: int)
  {
    L != 0 && forall t :: t in keys ==> t in fhat && fhat[t] == Share(OccCount(keys, tail, t), L)
  }

  /** Over distinct keys the Vnt dictionary holds the variance sum over n. */
  ghost predicate VntMeans(keys: seq<real>, vnt: map<real, real>, alpha: real, base: BaseKind, Phi: real -> real, xs: seq<real>)
  {
    xs != [] &&
    (forall t :: t in keys ==> t in vnt) &&
    (keys != [] && Distinct(keys) ==>
       (DenomsNonZero(alpha, |xs|) &&
        forall t :: t in keys ==> vnt[t] == VSum(alpha, G0Cdf(base, t, Phi), xs, t) / (|xs| as real)))
  }

  lemma PnTableTracked(keys: seq<real>, pn: map<real, real>, alpha: real, base: BaseKind, Phi: real -> real,
                       xs: seq<real>, n: int, b: Books)
    requires n == |xs| && n >= 1 && alpha + (n as real) != 0.0
    requires BooksAfter(b, keys, alpha, base, Phi, xs)
    requires PnEntries(keys, pn, alpha, base, Phi, n, b.km)
    ensures PnTracked(keys, pn, alpha, base, Phi, xs)
  {
    forall t | t in keys
      ensures t in pn && pn[t] == TrackedP(alpha, G0Cdf(base, t, Phi), keys, xs, t)
    {
      PnEntry(pn[t], alpha, G0Cdf(base, t, Phi), b.km[t], keys, xs, t, n);
    }
  }

  lemma FhatTableShares(keys: seq<real>, fhat: map<real, real>, tail: seq<real>, L: int, tl: map<real, int>)
    requires L != 0
    requires forall t :: t in keys ==> t in tl && tl[t] == OccCount(keys, tail, t)
    requires FhatEntries(keys, fhat, L, tl)
    ensures FhatShares(keys, fhat, tail, L)
  {
    forall t | t in keys
      ensures t in fhat && fhat[t] == Share(OccCount(keys, tail, t), L)
    {
      assert fhat[t] == Share(tl[t], L);
    }
  }

  lemma FinalizedMeans(keys: seq<real>, vnt: map<real, real>, alpha: real, base: BaseKind, Phi: real -> real,
                       xs: seq<real>, n: int, b: Books)
    requires n == |xs| && n >= 1
    requires BooksAfter(b, keys, alpha, base, Phi, xs)
    requires forall t :: t in keys ==> t in vnt
    requires Distinct(keys) ==> forall t :: t in keys ==> vnt[t] == b.v[t] / (n as real)
    ensures VntMeans(keys, vnt, alpha, base, Phi, xs)
  {
    if Distinct(keys) && keys != [] {
      forall t | t in keys
        ensures vnt[t] == VSum(alpha, G0Cdf(base, t, Phi), xs, t) / (|xs| as real)
      {
        VntEntry(vnt[t], b.v[t], alpha, G0Cdf(base, t, Phi), xs, t, n);
      }
    }
  }

  /** Row k is built from the dictionary entries of its threshold. */
  lemma RowFromTables(row: Prop26Row, t: real, keys: seq<real>, alpha: real, g: real,
                      xs: seq<real>, tail: seq<real>, n: int, L: int, sqrt: real -> real)
    requires n == |xs| && n >= 1 && L != 0 && alpha + (|xs| as real) != 0.0
    requires row.t == t && row.z == Z95 && row.pn == TrackedP(alpha, g, keys, xs, t)
    requires row.fhat == (OccCount(keys, tail, t) as real) / (L as real)
    requires Distinct(keys) ==> DenomsNonZero(alpha, |xs|) && row.vnt == VSum(alpha, g, xs, t) / (|xs| as real)
    requires row.width == row.hi - row.lo
    requires row.covered <==> row.lo <= row.fhat <= row.hi
    requires IsSqrt(sqrt) ==> row.lo < row.pn < row.hi
    ensures RowHolds(row, t, keys, alpha, g, xs, tail, n, L, sqrt)
  {
  }

  /** The dictionaries one replicate ends with, and the atoms drawn. */
  datatype Tables = Tables(xs: seq<real>, tail: seq<real>, pn: map<real, real>, vnt: map<real, real>, fhat: map<real, real>)

  /** Lines 72-104 for one replicate: the prefix loop, the Vnt scaling, Pn,
      the continuation and Fhat. */
  method ReplicateTables(keys: seq<real>, alpha: real, base: BaseKind, Phi: real -> real, n: int, L: int,
                         coins: seq<Urn.Coin>, tailCoins: seq<Urn.Coin>)
    returns (r: Result<Tables>)
    requires |coins| == MaxInt(n, 0) && Urn.CoinsFit(coins, 0)
    requires |tailCoins| == MaxInt(L, 0) && Urn.CoinsFit(tailCoins, MaxInt(n, 0))
    ensures alpha > 0.0 ==> (r.Err? <==> keys != [] && (n == 0 || alpha + (n as real) == 0.0 || L == 0))
    ensures r.Ok? ==> ReplicateAtoms(alpha, base, n, coins, tailCoins) == Ok((r.value.xs, r.value.tail))
    ensures r.Ok? ==> forall t :: t in keys ==> t in r.value.pn && t in r.value.vnt && t in r.value.fhat
    ensures r.Ok? && keys != [] && n >= 1 ==>
              && n == |r.value.xs|
              && PnTracked(keys, r.value.pn, alpha, base, Phi, r.value.xs)
              && VntMeans(keys, r.value.vnt, alpha, base, Phi, r.value.xs)
              && FhatShares(keys, r.value.fhat, r.value.tail, L)
  {
    var pre := PrefixPhase(keys, alpha, base, Phi, n, coins);
    if pre.Err? {
      return Err(pre.msg);
    }
    var xs := pre.value.0;
    var b := pre.value.1;
    var vnt := Finalize(keys, n, b.v);
    if vnt.Err? {
      return Err(vnt.msg);
    }
    var pn := PnTable(keys, alpha, base, Phi, n, b.km);
    if pn.Err? {
      return Err(pn.msg);
    }
    var cont := Continuation(keys, alpha, base, L, xs, tailCoins);
    if cont.Err? {
      return Err(cont.msg);
    }
    var fhat := FhatTable(keys, L, cont.value.1);
    if fhat.Err? {
      return Err(fhat.msg);
    }
    var all := cont.value.0;
    var tail := all[|xs|..];
    assert ReplicateAtoms(alpha, base, n, coins, tailCoins) == Ok((xs, tail)) by {
      assert all == xs + tail by {
        assert all[..|xs|] == xs;
      }
    }
    if keys != [] && n >= 1 {
      assert n == |xs|;
      PnTableTracked(keys, pn.value, alpha, base, Phi, xs, n, b);
      FinalizedMeans(keys, vnt.value, alpha, base, Phi, xs, n, b);
      FhatTableShares(keys, fhat.value, tail, L, cont.value.1);
    }
    return Ok(Tables(xs, tail, pn.value, vnt.value, fhat.value));
  }

  /** The body of the `rep` loop (lines 69-117) for one n, with the update
      loops running over `keys` and the rows emitted for `ts`. */
  method ReplicateOver(keys: seq<real>, ts: seq<real>, alpha: real, base: BaseKind, n: int, L: int, level: real,
                       coins: seq<Urn.Coin>, tailCoins: seq<Urn.Coin>, Phi: real -> real, sqrt: real -> real)
    returns (r: Result<seq<Prop26Row>>)
    requires forall t :: t in ts ==> t in keys
    requires forall t :: t in keys ==> t in ts
    requires |coins| == MaxInt(n, 0) && Urn.CoinsFit(coins, 0)
    requires |tailCoins| == MaxInt(L, 0) && Urn.CoinsFit(tailCoins, MaxInt(n, 0))
    ensures alpha > 0.0 ==> (r.Err? <==> ts != [] && (n <= 0 || L == 0))
    ensures r.Ok? ==> |r.value| == |ts|
    ensures r.Ok? && ts != [] ==> ReplicateAtoms(alpha, base, n, coins, tailCoins).Ok?
    ensures r.Ok? && ts != [] ==> forall k :: 0 <= k < |ts| ==>
              RowHolds(r.value[k], ts[k], keys, alpha, G0Cdf(base, ts[k], Phi),
                       ReplicateAtoms(alpha, base, n, coins, tailCoins).value.0,
                       ReplicateAtoms(alpha, base, n, coins, tailCoins).value.1, n, L, sqrt)
  {
    var z := CriticalValue(level).0;
    if ts != [] {
      var t0 := ts[0];
      assert t0 in ts;
      assert t0 in keys;
    }
    if keys != [] {
      var t0 := keys[0];
      assert t0 in keys;
      assert t0 in ts;
    }
    var tables := ReplicateTables(keys, alpha, base, Phi, n, L, coins, tailCoins);
    if tables.Err? {
      return Err(tables.msg);
    }
    var tb := tables.value;
    r := EmitRows(ts, tb.pn, tb.vnt, tb.fhat, n, z, sqrt);
    if r.Ok? && ts != [] {
      RowsFromTables(keys, ts, alpha, base, Phi, tb.xs, tb.tail, n, L, sqrt, tb.pn, tb.vnt, tb.fhat, r.value);
    }
  }

  /** Every emitted row states RowHolds for its threshold. */
  lemma RowsFromTables(keys: seq<real>, ts: seq<real>, alpha: real, base: BaseKind, Phi: real -> real,
                       xs: seq<real>, tail: seq<real>, n: int, L: int, sqrt: real -> real,
                       pn: map<real, real>, vnt: map<real, real>, fhat: map<real, real>, rows: seq<Prop26Row>)
    requires forall t :: t in ts ==> t in keys
    requires n == |xs| && n >= 1
    requires PnTracked(keys, pn, alpha, base, Phi, xs)
    requires VntMeans(keys, vnt, alpha, base, Phi, xs)
    requires FhatShares(keys, fhat, tail, L)
    requires |rows| == |ts|
    requires forall k :: 0 <= k < |ts| ==> rows[k] == CiRow(ts[k], pn[ts[k]], vnt[ts[k]], fhat[ts[k]], n, Z95, sqrt)
    ensures forall k :: 0 <= k < |ts| ==>
              RowHolds(rows[k], ts[k], keys, alpha, G0Cdf(base, ts[k], Phi), xs, tail, n, L, sqrt)
  {
    forall k | 0 <= k < |ts|
      ensures RowHolds(rows[k], ts[k], keys, alpha, G0Cdf(base, ts[k], Phi), xs, tail, n, L, sqrt)
    {
      var t := ts[k];
      assert t in keys;
      RowFromTables(rows[k], t, keys, alpha, G0Cdf(base, t, Phi), xs, tail, n, L, sqrt);
    }
  }

  /** The replicate as written: every update loop runs over the threshold
      list itself, so a threshold listed twice is counted twice. */
  method Replicate(ts: seq<real>, alpha: real, base: BaseKind, n: int, L: int, level: real,
                   coins: seq<Urn.Coin>, tailCoins: seq<Urn.Coin>, Phi: real -> real, sqrt: real -> real)
    returns (r: Result<seq<Prop26Row>>)
    requires |coins| == MaxInt(n, 0) && Urn.CoinsFit(coins, 0)
    requires |tailCoins| == MaxInt(L, 0) && Urn.CoinsFit(tailCoins, MaxInt(n, 0))
    ensures alpha > 0.0 ==> (r.Err? <==> ts != [] && (n <= 0 || L == 0))
    ensures r.Ok? ==> |r.value| == |ts|
    ensures r.Ok? && ts != [] ==> ReplicateAtoms(alpha, base, n, coins, tailCoins).Ok?
    ensures r.Ok? && ts != [] ==> forall k :: 0 <= k < |ts| ==>
              RowHolds(r.value[k], ts[k], ts, alpha, G0Cdf(base, ts[k], Phi),
                       ReplicateAtoms(alpha, base, n, coins, tailCoins).value.0,
                       ReplicateAtoms(alpha, base, n, coins, tailCoins).value.1, n, L, sqrt)
  {
    r := ReplicateOver(ts, ts, alpha, base, n, L, level, coins, tailCoins, Phi, sqrt);
  }

  /** The replicate with every per-threshold dictionary updated once per
      distinct threshold: P_n(t) is the Polya predictive, V_{n,t} lies in
      [0,1), F~(t) in [0,1] and the interval strictly contains P_n(t). */
  method ReplicateDistinct(ts: seq<real>, alpha: real, base: BaseKind, n: int, L: int, level: real,
                           coins: seq<Urn.Coin>, tailCoins: seq<Urn.Coin>, Phi: real -> real, sqrt: real -> real)
    returns (r: Result<seq<Prop26Row>>)
    requires |coins| == MaxInt(n, 0) && Urn.CoinsFit(coins, 0)
    requires |tailCoins| == MaxInt(L, 0) && Urn.CoinsFit(tailCoins, MaxInt(n, 0))
    ensures alpha > 0.0 ==> (r.Err? <==> ts != [] && (n <= 0 || L == 0))
    ensures r.Ok? ==> |r.value| == |ts|
    ensures r.Ok? && ts != [] ==> ReplicateAtoms(alpha, base, n, coins, tailCoins).Ok? && n >= 1
    ensures r.Ok? && ts != [] ==> forall k :: 0 <= k < |ts| ==>
              && r.value[k].t == ts[k]
              && alpha + (n as real) != 0.0
              && r.value[k].pn == PolyaCdf(alpha, G0Cdf(base, ts[k], Phi),
                                           ReplicateAtoms(alpha, base, n, coins, tailCoins).value.0, ts[k])
              && (r.value[k].covered <==> r.value[k].lo <= r.value[k].fhat <= r.value[k].hi)
              && (IsSqrt(sqrt) ==> r.value[k].lo < r.value[k].pn < r.value[k].hi)
    ensures r.Ok? && alpha > 0.0 && (base == Normal ==> IsCdf(Phi)) ==> forall k :: 0 <= k < |ts| ==>
              && 0.0 <= r.value[k].pn <= 1.0
              && 0.0 <= r.value[k].vnt < 1.0
              && 0.0 <= r.value[k].fhat <= 1.0
  {
    var keys := Dedup(ts);
    r := ReplicateOver(keys, ts, alpha, base, n, L, level, coins, tailCoins, Phi, sqrt);
    if r.Ok? && ts != [] {
      var atoms := ReplicateAtoms(alpha, base, n, coins, tailCoins).value;
      forall k | 0 <= k < |ts|
        ensures r.value[k].pn == PolyaCdf(alpha, G0Cdf(base, ts[k], Phi), atoms.0, ts[k])
        ensures alpha > 0.0 && (base == Normal ==> IsCdf(Phi)) ==>
                  0.0 <= r.value[k].vnt < 1.0 && 0.0 <= r.value[k].fhat <= 1.0
      {
        assert ts[k] in keys;
        DistinctRow(r.value[k], ts[k], keys, alpha, base, Phi, atoms.0, atoms.1, n, L, sqrt);
      }
    }
  }

  /** A row of a run whose update loops visit each threshold once: P_n(t) is
      the Polya predictive and, for alpha > 0 and a CDF G0, V_{n,t} lies in
      [0,1) and F~(t) in [0,1]. */
  lemma DistinctRow(row: Prop26Row, t: real, keys: seq<real>, alpha: real, base: BaseKind, Phi: real -> real,
                    xs: seq<real>, tail: seq<real>, n: int, L: int, sqrt: real -> real)
    requires Distinct(keys) && t in keys && |tail| == MaxInt(L, 0)
    requires RowHolds(row, t, keys, alpha, G0Cdf(base, t, Phi), xs, tail, n, L, sqrt)
    ensures row.pn == PolyaCdf(alpha, G0Cdf(base, t, Phi), xs, t)
    ensures alpha > 0.0 && (base == Normal ==> IsCdf(Phi)) ==> 0.0 <= row.vnt < 1.0 && 0.0 <= row.fhat <= 1.0
  {
    var g := G0Cdf(base, t, Phi);
    TrackedIsPStep(alpha, g, keys, xs, t);
    if alpha > 0.0 && (base == Normal ==> IsCdf(Phi)) {
      G0CdfRange(base, t, Phi);
      VSumBound(alpha, g, xs, t);
      MeanOfBoundedSum(VSum(alpha, g, xs, t), |xs| as real);
      OccCountDistinct(keys, tail, t);
      if L > 0 {
        FractionInUnit(CountLeq(tail, t) as real, L as real);
      } else {
        assert tail == [];
        assert OccCount(keys, tail, t) == 0;
      }
    }
  }

  /** s / n lies in [0,1) when 0 <= s < n. */
  lemma MeanOfBoundedSum(s: real, n: real)
    requires n > 0.0 && 0.0 <= s < n
    ensures 0.0 <= s / n < 1.0
  {
    var q := s / n;
    assert q * n == s;
    if q >= 1.0 {
      NonNegProduct(q - 1.0, n);
    }
    if q < 0.0 {
      NonNegProduct(-q, n);
    }
  }

  // ---------------------------------------------------------------------
  // Duplicate thresholds
  // ---------------------------------------------------------------------

  /** With thresholds [0.5, 0.5], alpha = 1, the uniform base and a first
      draw of 0.2, the code as written reports P_1(0.5) = 1.25, outside
      [0,1]; the predictive it is meant to report is 0.75. */
  lemma DuplicateThresholdOvercounts(Phi: real -> real)
    ensures Urn.CoinsFit([Urn.Coin(0.0, 0, 0.2)], 0) && Urn.CoinsFit([], 1)
    ensures ReplicateAtoms(1.0, Uniform, 1, [Urn.Coin(0.0, 0, 0.2)], []) == Ok(([0.2], []))
    ensures TrackedP(1.0, G0Cdf(Uniform, 0.5, Phi), [0.5, 0.5], [0.2], 0.5) == 1.25
    ensures PolyaCdf(1.0, G0Cdf(Uniform, 0.5, Phi), [0.2], 0.5) == 0.75
  {
    var c := Urn.Coin(0.0, 0, 0.2);
    var model := UrnModel(1.0, Uniform);
    assert Urn.CoinOk(c, 0);
    Urn.PnOk(model, [], c);
    assert Urn.Pn(model, 0, [], c) == Ok(0.2);
    assert [c][1..] == [];
    assert [] + [0.2] == [0.2];
    assert Urn.Extend(model, [], [c]) == Urn.Extend(model, [0.2], []);
    assert [0.2][..0] == [];
    assert CountLeq([0.2], 0.5) == 1;
    assert [0.5, 0.5][1..] == [0.5];
    assert Occ([0.5, 0.5], 0.5) == 2;
    assert OccCount([0.5, 0.5], [0.2], 0.5) == 2;
  }
}
