/** The platform's elementary functions (`log`, `exp`, `frexp`, the
    trigonometric functions, ...) that the core calls.  Their numerical values
    are not modelled: a `Libm` is any collection of total functions, and `Valid`
    holds only the exact facts that C99 (section 7.12 and its Annex F) promises
    and that the model relies on.  Every property proved under `Valid(lib)`
    therefore holds for every conforming library. */
module Libm {
  import opened Ieee

  datatype Libm = Libm(
    log: Double -> Double,
    log1p: Double -> Double,
    exp: Double -> Double,
    expm1: Double -> Double,
    pow: (Double, Double) -> Double,
    sin: Double -> Double,
    cos: Double -> Double,
    tan: Double -> Double,
    frexp: Double -> (Double, int))

  /** `frexp(x)` (section 7.12.6.4 of C99, Annex F.9.3.4): a finite non-zero x
      is f * 2^e with 1/2 <= |f| < 1; zero gives (0, 0); an infinity or NaN is
      returned as the fraction with an unspecified exponent. */
  predicate FrexpContract(x: Double, f: Double, e: int)
  {
    if x.Fin? then
      if x.v == 0.0 then f == Fin(0.0) && e == 0
      else f.Fin? && 0.5 <= Abs(f).v < 1.0 && x.v == f.v * Pow2(e)
    else f == x
  }

  ghost predicate Valid(lib: Libm)
  {
    && lib.log(Fin(0.0)) == NegInf
    && lib.log(Fin(1.0)) == Fin(0.0)
    && lib.log(NaN) == NaN
    && (forall v :: v < 0.0 ==> lib.log(Fin(v)) == NaN)
    && lib.log1p(Fin(0.0)) == Fin(0.0)
    && lib.exp(NegInf) == Fin(0.0)
    && lib.expm1(NegInf) == Fin(-1.0)
    && lib.sin(NaN) == NaN
    && lib.cos(NaN) == NaN
    && lib.tan(NaN) == NaN
    && (forall x :: FrexpContract(x, lib.frexp(x).0, lib.frexp(x).1))
  }

  /** The fraction returned for a finite positive argument lies in [1/2, 1). */
  lemma FrexpPositive(lib: Libm, x: real)
    requires Valid(lib) && x > 0.0
    ensures var (f, e) := lib.frexp(Fin(x));
      f.Fin? && 0.5 <= f.v < 1.0 && x == f.v * Pow2(e)
  {
    var (f, e) := lib.frexp(Fin(x));
    assert FrexpContract(Fin(x), f, e);
  }
}
