/** log|Gamma(x)| and the sign of Gamma(x) (src/lgamma.rs, after W.
    Fullerton's `dlngam`).  The sign rule and the pole, NaN and magnitude
    dispatch are modelled exactly; Gamma itself (`gammafn`), the Stirling
    correction (`lgammacor`) and the logarithm are function parameters, so
    every property below holds whatever values they compute. */
module Lgamma {
  import opened Ieee
  import opened Opt
  import Libm
  import Cospi

  /** XMAX: beyond it log|Gamma(x)| overflows. */
  const XMax: real := 253273727608007580000000000000000000000000000000000000000000000000000000000000000000000000000000000000000000000000000000000000000000000000000000000000000000000000000000000000000000000000000000000000000000000000000000000000000000000000000000000000000000000000000000000000000000000000000000000000000000000000.0

  /** DXREL = 2^-26, the relative-precision limit near negative integers. */
  const DxRel: real := 1.0 / 67108864.0

  /** Arguments below 1e-306 in magnitude use -log|x|. */
  const Tiny: real := 1.0 / 1000000000000000000000000000000000000000000000000000000000000000000000000000000000000000000000000000000000000000000000000000000000000000000000000000000000000000000000000000000000000000000000000000000000000000000000000000000000000000000000000000000000000000000000000000000000000000000000000000000000000000000.0

  /** log(sqrt(2 pi)), the value the crate binds to M_LN_SQRT_2PI. */
  const LnSqrt2Pi: real := 0.9189385332046728

  /** The sign slot behind the optional `&mut i32` of `lgammafn_sign`. */
  class SignSlot {
    var sign: int
  }

  /** The sign written into the slot: -1 when x < 0 and floor(-x) mod 2 is
      0, else 1. */
  function GammaSign(x: Double): Double
  {
    if Lt(x, Fin(0.0)) && Eq(FMod(Floor(Neg(x)), 2.0), Fin(0.0)) then Fin(-1.0) else Fin(1.0)
  }

  /** The value of `lgammafn_sign`, without the sign. */
  function Lgamma(lib: Libm.Libm, gammafn: Double -> Double, lgammacor: Double -> Double, x: Double): Double
  {
    if x.NaN? then NaN
    else if Le(x, Fin(0.0)) && Eq(x, Trunc(x)) then PosInf
    else
      var y := Abs(x);
      if Lt(y, Fin(Tiny)) then Neg(lib.log(y))
      else if Le(y, Fin(10.0)) then lib.log(Abs(gammafn(x)))
      else if Gt(y, Fin(XMax)) then PosInf
      else if Gt(x, Fin(0.0)) then
        var stirling := Sub(Add(Fin(LnSqrt2Pi), Mul(Sub(x, Fin(0.5)), lib.log(x))), x);
        if Gt(x, Fin(100000000000000000.0)) then Mul(x, Sub(lib.log(x), Fin(1.0)))
        else if Gt(x, Fin(4934720.0)) then stirling
        else Add(stirling, lgammacor(x))
      else
        Reflection(lib, lgammacor, x, Abs(Cospi.Sinpi(lib, y)))
  }

  /** The branch x < -10 of `lgammafn_sign`, given sinpiy = |sinpi(-x)|. */
  function Reflection(lib: Libm.Libm, lgammacor: Double -> Double, x: Double, sinpiy: Double): Double
  {
    if Eq(sinpiy, Fin(0.0)) then NaN
    else PrecisionGuard(x, ReflectionAnswer(lib, lgammacor, x, sinpiy))
  }

  /** log sqrt(2 pi) + (x - 1/2) log|x| - x - log sinpiy - lgammacor(|x|). */
  function ReflectionAnswer(lib: Libm.Libm, lgammacor: Double -> Double, x: Double, sinpiy: Double): Double
  {
    var y := Abs(x);
    Sub(Sub(Sub(Add(Fin(LnSqrt2Pi), Mul(Sub(x, Fin(0.5)), lib.log(y))), x), lib.log(sinpiy)), lgammacor(y))
  }

  /** NaN instead of ans when |(x - trunc(x) - 1/2) ans / x| < DXREL. */
  function PrecisionGuard(x: Double, ans: Double): Double
  {
    if Lt(Abs(Div(Mul(Sub(Sub(x, Trunc(x)), Fin(0.5)), ans), x)), Fin(DxRel)) then NaN else ans
  }

  /** `lgammafn_sign`: when a slot is supplied it receives the sign rule,
      whatever x is (NaN and poles included), and nothing else changes; the
      result is `Lgamma`. */
  method LgammafnSign(lib: Libm.Libm, gammafn: Double -> Double, lgammacor: Double -> Double,
                      x: Double, sgn: Option<SignSlot>) returns (r: Double)
    modifies if sgn.Some? then {sgn.value} else {}
    ensures sgn.Some? ==> Fin(sgn.value.sign as real) == GammaSign(x)
    ensures r == Lgamma(lib, gammafn, lgammacor, x)
  {
    if sgn.Some? {
      sgn.value.sign := 1;
      if Lt(x, Fin(0.0)) && Eq(FMod(Floor(Neg(x)), 2.0), Fin(0.0)) {
        sgn.value.sign := -1;
      }
    }
    r := Lgamma(lib, gammafn, lgammacor, x);
  }

  /** `lgammafn` is `lgammafn_sign` without a slot. */
  method Lgammafn(lib: Libm.Libm, gammafn: Double -> Double, lgammacor: Double -> Double, x: Double)
    returns (r: Double)
    ensures r == Lgamma(lib, gammafn, lgammacor, x)
  {
    r := LgammafnSign(lib, gammafn, lgammacor, x, None);
  }

  /** fmod(n, 2) of a non-negative integer n is its parity. */
  lemma FModTwoOfNat(n: int)
    requires n >= 0
    ensures FMod(Fin(n as real), 2.0) == Fin((n % 2) as real)
  {
    FModOfDecomposition(n / 2, (n % 2) as real, 2.0, false);
    assert (n / 2) as real * 2.0 + (n % 2) as real == n as real;
  }

  /** The sign is -1 exactly for a finite negative x whose floor(-x) is
      even, and 1 otherwise (NaN and both infinities included). */
  lemma GammaSignRule(x: Double)
    ensures GammaSign(x) == Fin(-1.0) || GammaSign(x) == Fin(1.0)
    ensures GammaSign(x) == Fin(-1.0) <==> x.Fin? && x.v < 0.0 && (-x.v).Floor % 2 == 0
  {
    if x.Fin? && x.v < 0.0 {
      FModTwoOfNat((-x.v).Floor);
    }
  }

  /** trunc(x) == x holds exactly for the integral finite doubles and the
      infinities. */
  lemma TruncFixed(x: Double)
    requires !x.NaN?
    ensures Eq(x, Trunc(x)) <==> !x.Fin? || IsInt(x.v)
  {
    if x.Fin? && x.v < 0.0 {
      var a := -x.v;
      assert TruncReal(x.v) == -(a.Floor);
      assert IsInt(x.v) <==> IsInt(a) by {
        if IsInt(a) {
          assert (-a).Floor == -(a.Floor);
        }
        if IsInt(x.v) {
          assert (-(x.v)).Floor == -(x.v.Floor);
        }
      }
    }
  }

  /** NaN gives NaN; a pole (an integer x <= 0, or -Inf) gives +Inf. */
  lemma NaNAndPoles(lib: Libm.Libm, gammafn: Double -> Double, lgammacor: Double -> Double, x: Double)
    ensures x.NaN? ==> Lgamma(lib, gammafn, lgammacor, x) == NaN
    ensures x.NegInf? || (x.Fin? && x.v <= 0.0 && IsInt(x.v)) ==> Lgamma(lib, gammafn, lgammacor, x) == PosInf
  {
    if !x.NaN? {
      TruncFixed(x);
    }
  }

  lemma NotPole(x: real)
    requires !(x <= 0.0 && IsInt(x))
    ensures !(Le(Fin(x), Fin(0.0)) && Eq(Fin(x), Trunc(Fin(x))))
  {
    TruncFixed(Fin(x));
  }

  /** Away from the poles: -log|x| below 1e-306, log|Gamma(x)| up to 10,
      +Inf beyond XMAX (and at +Inf). */
  lemma Magnitude(lib: Libm.Libm, gammafn: Double -> Double, lgammacor: Double -> Double, x: real)
    requires !(x <= 0.0 && IsInt(x))
    ensures var r := Lgamma(lib, gammafn, lgammacor, Fin(x));
      && (Cospi.AbsR(x) < Tiny ==> r == Neg(lib.log(Fin(Cospi.AbsR(x)))))
      && (Tiny <= Cospi.AbsR(x) <= 10.0 ==> r == lib.log(Abs(gammafn(Fin(x)))))
      && (Cospi.AbsR(x) > XMax ==> r == PosInf)
    ensures Lgamma(lib, gammafn, lgammacor, PosInf) == PosInf
  {
    NotPole(x);
  }

  /** 10 < x <= XMAX: x (log x - 1) above 1e17, Stirling's formula without
      its correction above 4934720, and with lgammacor below. */
  lemma LargePositive(lib: Libm.Libm, gammafn: Double -> Double, lgammacor: Double -> Double, x: real, l: real, c: real)
    requires 10.0 < x <= XMax && lib.log(Fin(x)) == Fin(l)
    ensures var r := Lgamma(lib, gammafn, lgammacor, Fin(x));
      && (x > 100000000000000000.0 ==> r == Fin(x * (l - 1.0)))
      && (4934720.0 < x <= 100000000000000000.0 ==> r == Fin(LnSqrt2Pi + (x - 0.5) * l - x))
      && (x <= 4934720.0 && lgammacor(Fin(x)) == Fin(c) ==> r == Fin(LnSqrt2Pi + (x - 0.5) * l - x + c))
  {
    NotPole(x);
  }

  /** -XMAX <= x < -10, not an integer, with y = -x: NaN when sinpi(y) is 0;
      otherwise the reflection formula
      log sqrt(2 pi) + (x - 1/2) log y - x - log|sinpi(y)| - lgammacor(y),
      replaced by NaN when x is too close to a negative integer for half
      precision. */
  lemma LargeNegative(lib: Libm.Libm, gammafn: Double -> Double, lgammacor: Double -> Double,
                      x: real, ly: real, ls: real, k: real)
    requires -XMax <= x < -10.0 && !IsInt(x)
    ensures var s := Abs(Cospi.Sinpi(lib, Fin(-x)));
      s == Fin(0.0) ==> Lgamma(lib, gammafn, lgammacor, Fin(x)) == NaN
    ensures var s := Abs(Cospi.Sinpi(lib, Fin(-x)));
      s.Fin? && s.v != 0.0 && lib.log(Fin(-x)) == Fin(ly) && lib.log(s) == Fin(ls) && lgammacor(Fin(-x)) == Fin(k) ==>
      var ans := LnSqrt2Pi + (x - 0.5) * ly - x - ls - k;
      Lgamma(lib, gammafn, lgammacor, Fin(x)) ==
        PrecisionGuard(Fin(x), Fin(ans))
  {
    NotPole(x);
    assert Abs(Fin(x)) == Fin(-x);
    assert !Lt(Fin(-x), Fin(Tiny)) && !Le(Fin(-x), Fin(10.0)) && !Gt(Fin(-x), Fin(XMax)) && !Gt(Fin(x), Fin(0.0));
    var s := Abs(Cospi.Sinpi(lib, Fin(-x)));
    assert Lgamma(lib, gammafn, lgammacor, Fin(x)) == Reflection(lib, lgammacor, Fin(x), s);
    ReflectionValue(lib, lgammacor, x, s, ly, ls, k);
  }

  lemma ReflectionValue(lib: Libm.Libm, lgammacor: Double -> Double, x: real, s: Double, ly: real, ls: real, k: real)
    requires x < 0.0
    ensures s == Fin(0.0) ==> Reflection(lib, lgammacor, Fin(x), s) == NaN
    ensures s.Fin? && s.v != 0.0 && lib.log(Fin(-x)) == Fin(ly) && lib.log(s) == Fin(ls) && lgammacor(Fin(-x)) == Fin(k) ==>
      var ans := LnSqrt2Pi + (x - 0.5) * ly - x - ls - k;
      Reflection(lib, lgammacor, Fin(x), s) ==
        PrecisionGuard(Fin(x), Fin(ans))
  {
    if s.Fin? && s.v != 0.0 && lib.log(Fin(-x)) == Fin(ly) && lib.log(s) == Fin(ls) && lgammacor(Fin(-x)) == Fin(k) {
      AnswerValue(lib, lgammacor, x, s, ly, ls, k);
    }
  }

  lemma AnswerValue(lib: Libm.Libm, lgammacor: Double -> Double, x: real, s: Double, ly: real, ls: real, k: real)
    requires x < 0.0
    requires lib.log(Fin(-x)) == Fin(ly) && lib.log(s) == Fin(ls) && lgammacor(Fin(-x)) == Fin(k)
    ensures ReflectionAnswer(lib, lgammacor, Fin(x), s) == Fin(LnSqrt2Pi + (x - 0.5) * ly - x - ls - k)
  {
    assert Abs(Fin(x)) == Fin(-x);
  }

  /** The guard either lets the answer through or replaces it by NaN. */
  lemma GuardOutcome(x: Double, ans: Double)
    ensures PrecisionGuard(x, ans) == NaN || PrecisionGuard(x, ans) == ans
  {
  }
}
