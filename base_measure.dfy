/** The base measure G0 of the Dirichlet process: its CDF and its sampler,
    selected by name ("uniform" or "normal"). The standard normal CDF Phi
    (computed in the source through erf) is a parameter of the model. */
module BaseMeasure {
  import opened Numerics

  datatype BaseKind = Uniform | Normal

  /** The two accepted base names; anything else raises ValueError. */
  function ParseBase(name: string): (r: Result<BaseKind>)
    ensures r.Ok? <==> name == "uniform" || name == "normal"
    ensures name == "uniform" ==> r == Ok(Uniform)
    ensures name == "normal" ==> r == Ok(Normal)
  {
    if name == "uniform" then Ok(Uniform)
    else if name == "normal" then Ok(Normal)
    else Err("unknown base: " + name)
  }

  /** The name under which a base kind is selected. */
  function BaseName(b: BaseKind): (name: string)
    ensures name == "uniform" || name == "normal"
    ensures b == Uniform <==> name == "uniform"
  {
    match b
    case Uniform => "uniform"
    case Normal => "normal"
  }

  /** `Phi` is a distribution function: values in [0,1], non-decreasing. */
  ghost predicate IsCdf(Phi: real -> real)
  {
    && (forall x :: 0.0 <= Phi(x) <= 1.0)
    && (forall x, y :: x <= y ==> Phi(x) <= Phi(y))
  }

  /** G0(t): Uniform(0,1) CDF written with two cut-offs, or Phi(t). */
  function G0Cdf(base: BaseKind, t: real, Phi: real -> real): (g: real)
    ensures base == Uniform ==> 0.0 <= g <= 1.0 && g == Clip(t, 0.0, 1.0)
    ensures base == Normal ==> g == Phi(t)
  {
    match base
    case Uniform => if t <= 0.0 then 0.0 else if t >= 1.0 then 1.0 else t
    case Normal => Phi(t)
  }

  /** G0_cdf(t, base) as called with a base name. */
  function G0CdfNamed(t: real, name: string, Phi: real -> real): (r: Result<real>)
    ensures r.Err? <==> ParseBase(name).Err?
    ensures r.Ok? ==> r == Ok(G0Cdf(ParseBase(name).value, t, Phi))
  {
    match ParseBase(name)
    case Err(e) => Err(e)
    case Ok(b) => Ok(G0Cdf(b, t, Phi))
  }

  /** G0(t) always lies in [0,1] when Phi is a distribution function. */
  lemma G0CdfRange(base: BaseKind, t: real, Phi: real -> real)
    requires base == Normal ==> IsCdf(Phi)
    ensures 0.0 <= G0Cdf(base, t, Phi) <= 1.0
  {
  }

  /** G0 is non-decreasing in t. */
  lemma G0CdfMonotone(base: BaseKind, s: real, t: real, Phi: real -> real)
    requires s <= t
    requires base == Normal ==> IsCdf(Phi)
    ensures G0Cdf(base, s, Phi) <= G0Cdf(base, t, Phi)
  {
  }

  /** sample_from_base: the generator's own output for a known base (a
      uniform variate in [0,1) or a standard normal variate, here the oracle
      value `z`), ValueError otherwise. */
  function SampleFromBase(z: real, name: string): (r: Result<real>)
    ensures r.Err? <==> ParseBase(name).Err?
    ensures r.Ok? ==> r.value == z
  {
    match ParseBase(name)
    case Err(e) => Err(e)
    case Ok(_) => Ok(z)
  }
}
