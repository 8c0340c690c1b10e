/** The truth oracle: a Uniform(a,b) or Normal(mean,sd) reference law with
    its CDF and density. The standard normal CDF and density (Phi and phi)
    are parameters of the model. */
module Dgps {
  import opened Numerics
  import opened BaseMeasure

  datatype Truth = NormalTruth(mean: real, sd: real) | UniformTruth(a: real, b: real)

  /** NormalTruth() and UniformTruth() with their default arguments. */
  const DefaultNormal: Truth := NormalTruth(0.0, 1.0)
  const DefaultUniform: Truth := UniformTruth(0.0, 1.0)

  /** The parameters are well formed: sd > 0, a < b. */
  predicate ValidTruth(tr: Truth)
  {
    match tr
    case NormalTruth(_, sd) => sd > 0.0
    case UniformTruth(a, b) => a < b
  }

  /** cdf_truth */
  function CdfTruth(tr: Truth, t: real, Phi: real -> real): (c: real)
    requires ValidTruth(tr)
    ensures tr.NormalTruth? ==> c == Phi((t - tr.mean) / tr.sd)
    ensures tr.UniformTruth? ==> 0.0 <= c <= 1.0
    ensures tr.UniformTruth? && t <= tr.a ==> c == 0.0
    ensures tr.UniformTruth? && t >= tr.b ==> c == 1.0
    ensures tr.UniformTruth? && tr.a <= t <= tr.b ==> c * (tr.b - tr.a) == t - tr.a
  {
    match tr
    case NormalTruth(mean, sd) =>
      if sd == 1.0 && mean == 0.0 then
        assert (t - mean) / sd == t;
        Phi(t)
      else Phi((t - mean) / sd)
    case UniformTruth(a, b) =>
      RatioFacts(t - a, b - a);
      Clip((t - a) / (b - a), 0.0, 1.0)
  }

  lemma RatioFacts(num: real, den: real)
    requires den > 0.0
    ensures (num / den) * den == num
    ensures num <= 0.0 ==> num / den <= 0.0
    ensures num >= den ==> num / den >= 1.0
    ensures 0.0 <= num <= den ==> 0.0 <= num / den <= 1.0
  {
  }

  /** pdf_truth */
  function PdfTruth(tr: Truth, x: real, phi: real -> real): (d: real)
    requires ValidTruth(tr)
    ensures tr.NormalTruth? ==> d == phi((x - tr.mean) / tr.sd) / tr.sd
    ensures tr.UniformTruth? && tr.a <= x <= tr.b ==> d * (tr.b - tr.a) == 1.0
    ensures tr.UniformTruth? && !(tr.a <= x <= tr.b) ==> d == 0.0
  {
    match tr
    case NormalTruth(mean, sd) =>
      if sd == 1.0 && mean == 0.0 then
        assert (x - mean) / sd == x;
        phi(x)
      else phi((x - mean) / sd) / sd
    case UniformTruth(a, b) =>
      if a <= x && x <= b then 1.0 / (b - a) else 0.0
  }

  /** cdf_truth on a grid, elementwise. */
  function CdfTruthGrid(tr: Truth, ts: seq<real>, Phi: real -> real): (cs: seq<real>)
    requires ValidTruth(tr)
    ensures |cs| == |ts| && forall k :: 0 <= k < |ts| ==> cs[k] == CdfTruth(tr, ts[k], Phi)
  {
    seq(|ts|, k requires 0 <= k < |ts| => CdfTruth(tr, ts[k], Phi))
  }

  /** The uniform CDF is non-decreasing in t. */
  lemma UniformCdfMonotone(a: real, b: real, s: real, t: real, Phi: real -> real)
    requires a < b && s <= t
    ensures CdfTruth(UniformTruth(a, b), s, Phi) <= CdfTruth(UniformTruth(a, b), t, Phi)
  {
    var tr := UniformTruth(a, b);
    assert (s - a) / (b - a) <= (t - a) / (b - a) by {
      assert (t - a) / (b - a) - (s - a) / (b - a) == (t - s) / (b - a);
    }
  }

  /** The default uniform truth is exactly the uniform base measure G0. */
  lemma DefaultUniformIsBase(t: real, Phi: real -> real)
    ensures CdfTruth(DefaultUniform, t, Phi) == G0Cdf(Uniform, t, Phi)
  {
  }

  /** The default normal truth is Phi itself, which is also the normal base measure. */
  lemma DefaultNormalIsBase(t: real, Phi: real -> real)
    ensures CdfTruth(DefaultNormal, t, Phi) == G0Cdf(Normal, t, Phi)
  {
  }

  /** The module-level cdf_truth helper: always NormalTruth(). */
  function CdfTruthHelper(t: real, Phi: real -> real): (c: real)
    ensures c == Phi(t)
  {
    CdfTruth(DefaultNormal, t, Phi)
  }

  /** The module-level pdf_truth helper: always NormalTruth(). */
  function PdfTruthHelper(x: real, phi: real -> real): (d: real)
    ensures d == phi(x)
  {
    PdfTruth(DefaultNormal, x, phi)
  }
}
