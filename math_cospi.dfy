/** The second copy of the trigonometric functions of pi*x, in the `math`
    crate (math/src/cospi.rs).  The bodies are modelled on their own and then
    shown to agree with those of src/cospi.rs for every argument, so every
    property proved in `Cospi` carries over; the ones the copy states are
    restated here on its own functions. */
module MathCospi {
  import opened Ieee
  import Libm
  import Core = Cospi

  const MPi: real := 3.141592653589793

  function Cospi(lib: Libm.Libm, x: Double): Double
  {
    if x.NaN? then x
    else
      var r := FMod(Abs(x), 2.0);
      if Eq(FMod(r, 1.0), Fin(0.5)) then Fin(0.0)
      else if Eq(r, Fin(1.0)) then Fin(-1.0)
      else if Eq(r, Fin(0.0)) then Fin(1.0)
      else lib.cos(Mul(Fin(MPi), r))
  }

  function Sinpi(lib: Libm.Libm, x: Double): Double
  {
    if x.NaN? then x
    else
      var y := FMod(x, 2.0);
      var r := if Le(y, Fin(-1.0)) then Add(y, Fin(2.0))
               else if Gt(y, Fin(1.0)) then Sub(y, Fin(2.0))
               else y;
      if Eq(r, Fin(0.0)) || Eq(r, Fin(1.0)) then Fin(0.0)
      else if Eq(r, Fin(0.5)) then Fin(1.0)
      else if Eq(r, Fin(-0.5)) then Fin(-1.0)
      else lib.sin(Mul(Fin(MPi), r))
  }

  function Tanpi(lib: Libm.Libm, x: Double): Double
  {
    if x.NaN? then x
    else
      var y := FMod(x, 1.0);
      var r := if Le(y, Fin(-0.5)) then Add(y, Fin(1.0))
               else if Gt(y, Fin(0.5)) then Sub(y, Fin(1.0))
               else y;
      if Eq(r, Fin(0.0)) then Fin(0.0)
      else if Eq(r, Fin(0.5)) then NaN
      else if Eq(r, Fin(0.25)) then Fin(1.0)
      else if Eq(r, Fin(-0.25)) then Fin(-1.0)
      else lib.tan(Mul(Fin(MPi), r))
  }

  /** The two crates compute the same function, argument by argument. */
  lemma AgreesWithCore(lib: Libm.Libm, x: Double)
    ensures Cospi(lib, x) == Core.Cospi(lib, x)
    ensures Sinpi(lib, x) == Core.Sinpi(lib, x)
    ensures Tanpi(lib, x) == Core.Tanpi(lib, x)
  {
  }

  /** NaN is returned unchanged; an infinite argument flows on as NaN into
      the platform functions. */
  lemma SpecialArguments(lib: Libm.Libm, x: Double)
    requires Libm.Valid(lib) && !x.Fin?
    ensures Cospi(lib, x) == NaN && Sinpi(lib, x) == NaN && Tanpi(lib, x) == NaN
  {
    AgreesWithCore(lib, x);
    if !x.NaN? {
      Core.InfiniteArgument(lib, x);
    }
  }

  /** cospi is even, 1 at even and -1 at odd integers, 0 at half-integers. */
  lemma CospiValues(lib: Libm.Libm, x: Double, k: int)
    ensures Cospi(lib, Neg(x)) == Cospi(lib, x)
    ensures Cospi(lib, Fin(k as real)) == Fin(if k % 2 == 0 then 1.0 else -1.0)
    ensures Cospi(lib, Fin(k as real + 0.5)) == Fin(0.0)
  {
    AgreesWithCore(lib, x);
    AgreesWithCore(lib, Neg(x));
    AgreesWithCore(lib, Fin(k as real));
    AgreesWithCore(lib, Fin(k as real + 0.5));
    Core.CospiEven(lib, x);
    Core.CospiAtIntegers(lib, k);
    Core.CospiAtHalfIntegers(lib, k);
  }

  /** sinpi is 0 at integers, 1 at 2m + 1/2 and -1 at 2m - 1/2, with period 2. */
  lemma SinpiValues(lib: Libm.Libm, x: real, m: int)
    ensures Sinpi(lib, Fin(m as real)) == Fin(0.0)
    ensures Sinpi(lib, Fin(2.0 * m as real + 0.5)) == Fin(1.0)
    ensures Sinpi(lib, Fin(2.0 * m as real - 0.5)) == Fin(-1.0)
    ensures Sinpi(lib, Fin(x + 2.0)) == Sinpi(lib, Fin(x))
  {
    AgreesWithCore(lib, Fin(m as real));
    AgreesWithCore(lib, Fin(2.0 * m as real + 0.5));
    AgreesWithCore(lib, Fin(2.0 * m as real - 0.5));
    AgreesWithCore(lib, Fin(x + 2.0));
    AgreesWithCore(lib, Fin(x));
    Core.SinpiAtIntegers(lib, m);
    Core.SinpiAtQuarterPeriods(lib, m);
    Core.Periodic(lib, x);
  }

  /** tanpi is 0, NaN, 1 and -1 at m, m + 1/2, m + 1/4 and m - 1/4, with
      period 1. */
  lemma TanpiValues(lib: Libm.Libm, x: real, m: int)
    ensures Tanpi(lib, Fin(m as real)) == Fin(0.0)
    ensures Tanpi(lib, Fin(m as real + 0.5)) == NaN
    ensures Tanpi(lib, Fin(m as real + 0.25)) == Fin(1.0)
    ensures Tanpi(lib, Fin(m as real - 0.25)) == Fin(-1.0)
    ensures Tanpi(lib, Fin(x + 1.0)) == Tanpi(lib, Fin(x))
  {
    AgreesWithCore(lib, Fin(m as real));
    AgreesWithCore(lib, Fin(m as real + 0.5));
    AgreesWithCore(lib, Fin(m as real + 0.25));
    AgreesWithCore(lib, Fin(m as real - 0.25));
    AgreesWithCore(lib, Fin(x + 1.0));
    AgreesWithCore(lib, Fin(x));
    Core.TanpiExactValues(lib, m);
    Core.Periodic(lib, x);
  }
}
