/** Trigonometric functions of pi*x (src/cospi.rs): `cospi`, `sinpi` and
    `tanpi` reduce the argument exactly with `%` and return exact values at
    the points where the result is 0, +-1 or a pole, calling the platform's
    cos/sin/tan only elsewhere.  For an infinite argument the library raises a
    domain warning whose NaN is discarded; evaluation carries on with the NaN
    that `%` produces. */
module Cospi {
  import opened Ieee
  import Libm

  /** M_PI */
  const MPi: real := 3.141592653589793

  /** The argument of `cospi` after `x.abs() % 2.0`. */
  function CospiReduce(x: Double): Double
  {
    FMod(Abs(x), 2.0)
  }

  /** The argument of `sinpi` after `x %= 2.0` and the shift into (-1, 1]. */
  function SinpiReduce(x: Double): Double
  {
    var y := FMod(x, 2.0);
    if Le(y, Fin(-1.0)) then Add(y, Fin(2.0))
    else if Gt(y, Fin(1.0)) then Sub(y, Fin(2.0))
    else y
  }

  /** The argument of `tanpi` after `x %= 1.0` and the shift into (-1/2, 1/2]. */
  function TanpiReduce(x: Double): Double
  {
    var y := FMod(x, 1.0);
    if Le(y, Fin(-0.5)) then Add(y, Fin(1.0))
    else if Gt(y, Fin(0.5)) then Sub(y, Fin(1.0))
    else y
  }

  function Cospi(lib: Libm.Libm, x: Double): Double
  {
    if x.NaN? then x
    else
      var r := CospiReduce(x);
      if Eq(FMod(r, 1.0), Fin(0.5)) then Fin(0.0)
      else if Eq(r, Fin(1.0)) then Fin(-1.0)
      else if Eq(r, Fin(0.0)) then Fin(1.0)
      else lib.cos(Mul(Fin(MPi), r))
  }

  function Sinpi(lib: Libm.Libm, x: Double): Double
  {
    if x.NaN? then x
    else
      var r := SinpiReduce(x);
      if Eq(r, Fin(0.0)) || Eq(r, Fin(1.0)) then Fin(0.0)
      else if Eq(r, Fin(0.5)) then Fin(1.0)
      else if Eq(r, Fin(-0.5)) then Fin(-1.0)
      else lib.sin(Mul(Fin(MPi), r))
  }

  function Tanpi(lib: Libm.Libm, x: Double): Double
  {
    if x.NaN? then x
    else
      var r := TanpiReduce(x);
      if Eq(r, Fin(0.0)) then Fin(0.0)
      else if Eq(r, Fin(0.5)) then NaN
      else if Eq(r, Fin(0.25)) then Fin(1.0)
      else if Eq(r, Fin(-0.25)) then Fin(-1.0)
      else lib.tan(Mul(Fin(MPi), r))
  }

  function AbsR(a: real): real
  {
    if a < 0.0 then -a else a
  }

  // ---------------------------------------------------------------------
  // NaN and infinite arguments

  /** A NaN argument is returned unchanged by all three functions. */
  lemma NaNUnchanged(lib: Libm.Libm)
    ensures Cospi(lib, NaN) == NaN && Sinpi(lib, NaN) == NaN && Tanpi(lib, NaN) == NaN
  {
  }

  /** An infinite argument is not rejected: its reduced value is NaN, no
      exact case matches, and the platform function is called on NaN, which
      a conforming library answers with NaN. */
  lemma InfiniteArgument(lib: Libm.Libm, x: Double)
    requires x.PosInf? || x.NegInf?
    ensures CospiReduce(x) == NaN && SinpiReduce(x) == NaN && TanpiReduce(x) == NaN
    ensures Cospi(lib, x) == lib.cos(NaN)
    ensures Sinpi(lib, x) == lib.sin(NaN)
    ensures Tanpi(lib, x) == lib.tan(NaN)
    ensures Libm.Valid(lib) ==> Cospi(lib, x) == NaN && Sinpi(lib, x) == NaN && Tanpi(lib, x) == NaN
  {
  }

  // ---------------------------------------------------------------------
  // The reductions

  /** Two representatives of x modulo p (p = 1 or 2) that are closer than p
      are the same. */
  lemma RepresentativeUnique(x: real, r: real, s: real, p: real)
    requires p == 1.0 || p == 2.0
    requires -p < r - s < p
    requires IsInt((x - r) / p) && IsInt((x - s) / p)
    ensures r == s
  {
    var a := ((x - r) / p).Floor;
    var b := ((x - s) / p).Floor;
    if p == 1.0 {
      assert x - r == a as real && x - s == b as real;
    } else {
      assert x - r == 2.0 * a as real && x - s == 2.0 * b as real;
    }
    assert r - s == p * (b - a) as real;
    assert -1 < b - a < 1;
  }

  /** `cospi` reduces |x| to the representative of |x| modulo 2 in [0, 2). */
  lemma CospiReduction(x: real)
    ensures CospiReduce(Fin(x)).Fin?
    ensures var r := CospiReduce(Fin(x)).v; 0.0 <= r < 2.0 && IsInt((AbsR(x) - r) / 2.0)
  {
    assert Abs(Fin(x)) == Fin(AbsR(x));
    FModContract(AbsR(x), 2.0);
  }

  /** `sinpi` reduces x to the representative of x modulo 2 in (-1, 1]. */
  lemma SinpiReduction(x: real)
    ensures SinpiReduce(Fin(x)).Fin?
    ensures var r := SinpiReduce(Fin(x)).v; -1.0 < r <= 1.0 && IsInt((x - r) / 2.0)
  {
    FModContract(x, 2.0);
    var y := FMod(Fin(x), 2.0).v;
    var q := (x - y) / 2.0;
    assert IsInt(q);
    if y <= -1.0 {
      assert SinpiReduce(Fin(x)) == Fin(y + 2.0);
      IsIntShift(q, -1);
      assert (x - (y + 2.0)) / 2.0 == q + (-1) as real;
    } else if y > 1.0 {
      assert SinpiReduce(Fin(x)) == Fin(y - 2.0);
      IsIntShift(q, 1);
      assert (x - (y - 2.0)) / 2.0 == q + 1 as real;
    } else {
      assert SinpiReduce(Fin(x)) == Fin(y);
    }
  }

  /** `tanpi` reduces x to the representative of x modulo 1 in (-1/2, 1/2]. */
  lemma TanpiReduction(x: real)
    ensures TanpiReduce(Fin(x)).Fin?
    ensures var r := TanpiReduce(Fin(x)).v; -0.5 < r <= 0.5 && IsInt((x - r) / 1.0)
  {
    FModContract(x, 1.0);
    var y := FMod(Fin(x), 1.0).v;
    var q := (x - y) / 1.0;
    assert IsInt(q);
    if y <= -0.5 {
      assert TanpiReduce(Fin(x)) == Fin(y + 1.0);
      IsIntShift(q, -1);
      assert (x - (y + 1.0)) / 1.0 == q + (-1) as real;
    } else if y > 0.5 {
      assert TanpiReduce(Fin(x)) == Fin(y - 1.0);
      IsIntShift(q, 1);
      assert (x - (y - 1.0)) / 1.0 == q + 1 as real;
    } else {
      assert TanpiReduce(Fin(x)) == Fin(y);
    }
  }

  lemma IsIntShift(q: real, k: int)
    requires IsInt(q)
    ensures IsInt(q + k as real)
  {
    assert q + k as real == (q.Floor + k) as real;
  }

  /** The reduced argument depends only on x modulo the period, so `sinpi`
      has period 2 and `tanpi` period 1. */
  lemma Periodic(lib: Libm.Libm, x: real)
    ensures Sinpi(lib, Fin(x + 2.0)) == Sinpi(lib, Fin(x))
    ensures Tanpi(lib, Fin(x + 1.0)) == Tanpi(lib, Fin(x))
  {
    assert SinpiReduce(Fin(x + 2.0)) == SinpiReduce(Fin(x)) by {
      var r := SinpiRepresentative(x);
      assert x + 2.0 == 2.0 * (((x - r) / 2.0).Floor + 1) as real + r;
      SinpiReducesTo(x + 2.0, ((x - r) / 2.0).Floor + 1, r);
    }
    assert TanpiReduce(Fin(x + 1.0)) == TanpiReduce(Fin(x)) by {
      var r := TanpiRepresentative(x);
      assert x + 1.0 == (((x - r) / 1.0).Floor + 1) as real + r;
      TanpiReducesTo(x + 1.0, ((x - r) / 1.0).Floor + 1, r);
    }
  }

  /** `cospi` is even (its reduction starts from |x|), and has period 2 on
      the non-negative half-line. */
  lemma CospiEven(lib: Libm.Libm, x: Double)
    ensures Cospi(lib, Neg(x)) == Cospi(lib, x)
  {
  }

  lemma CospiPeriodic(lib: Libm.Libm, x: real)
    requires x >= 0.0
    ensures Cospi(lib, Fin(x + 2.0)) == Cospi(lib, Fin(x))
  {
    assert CospiReduce(Fin(x + 2.0)) == CospiReduce(Fin(x)) by {
      var r := CospiRepresentative(x);
      assert AbsR(x) == x && AbsR(x + 2.0) == x + 2.0;
      assert x + 2.0 == 2.0 * (((x - r) / 2.0).Floor + 1) as real + r;
      CospiReducesTo(x + 2.0, ((x - r) / 2.0).Floor + 1, r);
    }
  }

  // ---------------------------------------------------------------------
  // The exact values

  /** The reduced arguments as plain reals, with their characterising
      properties. */
  lemma CospiRepresentative(x: real) returns (r: real)
    ensures CospiReduce(Fin(x)) == Fin(r)
    ensures 0.0 <= r < 2.0 && AbsR(x) == 2.0 * ((AbsR(x) - r) / 2.0).Floor as real + r
  {
    CospiReduction(x);
    r := CospiReduce(Fin(x)).v;
  }

  lemma SinpiRepresentative(x: real) returns (r: real)
    ensures SinpiReduce(Fin(x)) == Fin(r)
    ensures -1.0 < r <= 1.0 && x == 2.0 * ((x - r) / 2.0).Floor as real + r
  {
    SinpiReduction(x);
    r := SinpiReduce(Fin(x)).v;
  }

  lemma TanpiRepresentative(x: real) returns (r: real)
    ensures TanpiReduce(Fin(x)) == Fin(r)
    ensures -0.5 < r <= 0.5 && x == ((x - r) / 1.0).Floor as real + r
  {
    TanpiReduction(x);
    r := TanpiReduce(Fin(x)).v;
  }

  /** The reduced `cospi` argument of a point is the given candidate when the
      candidate is in [0, 2) and congruent to |x| modulo 2. */
  lemma CospiReducesTo(x: real, m: int, r0: real)
    requires 0.0 <= r0 < 2.0 && AbsR(x) == 2.0 * m as real + r0
    ensures CospiReduce(Fin(x)) == Fin(r0)
  {
    var r := CospiRepresentative(x);
    var a := AbsR(x);
    assert r == r0 by {
      assert IsInt((a - r0) / 2.0) by {
        assert (a - r0) / 2.0 == m as real;
      }
      RepresentativeUnique(a, r, r0, 2.0);
    }
  }

  lemma SinpiReducesTo(x: real, m: int, r0: real)
    requires -1.0 < r0 <= 1.0 && x == 2.0 * m as real + r0
    ensures SinpiReduce(Fin(x)) == Fin(r0)
  {
    var r := SinpiRepresentative(x);
    assert IsInt((x - r0) / 2.0) by {
      assert (x - r0) / 2.0 == m as real;
    }
    RepresentativeUnique(x, r, r0, 2.0);
  }

  lemma TanpiReducesTo(x: real, m: int, r0: real)
    requires -0.5 < r0 <= 0.5 && x == m as real + r0
    ensures TanpiReduce(Fin(x)) == Fin(r0)
  {
    var r := TanpiRepresentative(x);
    assert IsInt((x - r0) / 1.0) by {
      assert (x - r0) / 1.0 == m as real;
    }
    RepresentativeUnique(x, r, r0, 1.0);
  }

  /** cospi is 1 at even integers and -1 at odd integers. */
  lemma CospiAtIntegers(lib: Libm.Libm, k: int)
    ensures Cospi(lib, Fin(k as real)) == Fin(if k % 2 == 0 then 1.0 else -1.0)
  {
    var a := if k < 0 then -k else k;
    assert AbsR(k as real) == a as real;
    CospiReducesTo(k as real, a / 2, (a % 2) as real);
    assert k % 2 == a % 2;
    FModOfDecomposition(a % 2, 0.0, 1.0, false);
  }

  /** cospi is exactly 0 at every half-integer (reduced 1/2 or 3/2). */
  lemma CospiAtHalfIntegers(lib: Libm.Libm, k: int)
    ensures Cospi(lib, Fin(k as real + 0.5)) == Fin(0.0)
  {
    var m := if k >= 0 then k else -k - 1;
    assert AbsR(k as real + 0.5) == m as real + 0.5;
    var r0 := (m % 2) as real + 0.5;
    CospiReducesTo(k as real + 0.5, m / 2, r0);
    FModOfDecomposition(m % 2, 0.5, 1.0, false);
  }

  /** sinpi is exactly 0 at every integer (reduced 0 or 1). */
  lemma SinpiAtIntegers(lib: Libm.Libm, k: int)
    ensures Sinpi(lib, Fin(k as real)) == Fin(0.0)
  {
    SinpiReducesTo(k as real, k / 2, (k % 2) as real);
  }

  /** sinpi is exactly 1 at 2m + 1/2 and exactly -1 at 2m - 1/2. */
  lemma SinpiAtQuarterPeriods(lib: Libm.Libm, m: int)
    ensures Sinpi(lib, Fin(2.0 * m as real + 0.5)) == Fin(1.0)
    ensures Sinpi(lib, Fin(2.0 * m as real - 0.5)) == Fin(-1.0)
  {
    SinpiReducesTo(2.0 * m as real + 0.5, m, 0.5);
    SinpiReducesTo(2.0 * m as real - 0.5, m, -0.5);
  }

  /** tanpi is exactly 0 at integers, NaN (the pole) at half-integers, and
      exactly 1 and -1 at m + 1/4 and m - 1/4. */
  lemma TanpiExactValues(lib: Libm.Libm, m: int)
    ensures Tanpi(lib, Fin(m as real)) == Fin(0.0)
    ensures Tanpi(lib, Fin(m as real + 0.5)) == NaN
    ensures Tanpi(lib, Fin(m as real + 0.25)) == Fin(1.0)
    ensures Tanpi(lib, Fin(m as real - 0.25)) == Fin(-1.0)
  {
    TanpiReducesTo(m as real, m, 0.0);
    TanpiReducesTo(m as real + 0.5, m, 0.5);
    TanpiReducesTo(m as real + 0.25, m, 0.25);
    TanpiReducesTo(m as real - 0.25, m, -0.25);
  }
}
