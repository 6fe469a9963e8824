/** IEEE-754 binary64 values as this model sees them.

    A double is NaN, one of the two infinities, or a finite value carried as an
    exact real.  Finite arithmetic is exact (no rounding, no overflow), so every
    threshold test of the library is idealised; the special values follow the
    IEEE-754 rules (NaN propagates, Inf - Inf is NaN, 0 * Inf is NaN, ...).
    Signed zero is not modelled: every zero is +0.  The only operation that can
    overflow is `Ldexp`, whose range error is part of the behaviour modelled in
    `Bd0.Ebd0`. */
module Ieee {

  datatype Double = NaN | NegInf | PosInf | Fin(v: real)

  /** f64::EPSILON = 2^-52. */
  const DblEpsilon: real := 1.0 / 4503599627370496.0

  /** f64::MAX = (2^53 - 1) * 2^971. */
  const DblMax: real := 179769313486231570814527423731704356798070567525844996598917476803157260780028538760589558632766878171540458953514382464234321326889464182768467546703537516986049910576551282076245490090389328944075868508455133942304583236903222948165808559332123348274797826204144723168738177180919299881250404026184124858368.0

  /** f64::MIN, the most NEGATIVE finite double.  The library binds its
      `DBL_MIN` to this value (not to the smallest positive normal). */
  const DblMin: real := -DblMax

  const I32Max: int := 2147483647
  const I32Min: int := -2147483648

  predicate IsFinite(x: Double) { x.Fin? }

  /** -1, 0 or 1; NaN has sign 0 here (it is never asked for). */
  function SignOf(x: Double): int
  {
    match x
    case NaN => 0
    case NegInf => -1
    case PosInf => 1
    case Fin(a) => if a < 0.0 then -1 else if a > 0.0 then 1 else 0
  }

  function Inf(sign: int): Double
  {
    if sign < 0 then NegInf else PosInf
  }

  function Neg(x: Double): Double
  {
    match x
    case NaN => NaN
    case NegInf => PosInf
    case PosInf => NegInf
    case Fin(a) => Fin(-a)
  }

  function Abs(x: Double): Double
  {
    match x
    case NaN => NaN
    case NegInf => PosInf
    case PosInf => PosInf
    case Fin(a) => Fin(if a < 0.0 then -a else a)
  }

  function Add(x: Double, y: Double): Double
  {
    if x.NaN? || y.NaN? then NaN
    else if (x.PosInf? && y.NegInf?) || (x.NegInf? && y.PosInf?) then NaN
    else if x.PosInf? || y.PosInf? then PosInf
    else if x.NegInf? || y.NegInf? then NegInf
    else Fin(x.v + y.v)
  }

  function Sub(x: Double, y: Double): Double
  {
    Add(x, Neg(y))
  }

  function Mul(x: Double, y: Double): Double
  {
    if x.NaN? || y.NaN? then NaN
    else if x.Fin? && y.Fin? then Fin(x.v * y.v)
    else if SignOf(x) == 0 || SignOf(y) == 0 then NaN
    else Inf(SignOf(x) * SignOf(y))
  }

  function Div(x: Double, y: Double): Double
  {
    if x.NaN? || y.NaN? then NaN
    else if x.Fin? && y.Fin? then
      if y.v != 0.0 then Fin(x.v / y.v)
      else if x.v == 0.0 then NaN
      else Inf(SignOf(x))
    else if !x.Fin? && !y.Fin? then NaN
    else if y.Fin? then Inf(SignOf(x) * (if y.v < 0.0 then -1 else 1))
    else Fin(0.0)
  }

  /** IEEE `==`: NaN equals nothing, not even itself. */
  predicate Eq(x: Double, y: Double)
  {
    !x.NaN? && x == y
  }

  /** IEEE `<`: false as soon as one side is NaN. */
  predicate Lt(x: Double, y: Double)
  {
    if x.NaN? || y.NaN? then false
    else if x.Fin? && y.Fin? then x.v < y.v
    else (x.NegInf? && !y.NegInf?) || (!x.PosInf? && y.PosInf?)
  }

  predicate Le(x: Double, y: Double) { Lt(x, y) || Eq(x, y) }
  predicate Gt(x: Double, y: Double) { Lt(y, x) }
  predicate Ge(x: Double, y: Double) { Le(y, x) }

  /** Rounds toward zero on the reals. */
  function TruncReal(a: real): int
  {
    if a >= 0.0 then a.Floor else -((-a).Floor)
  }

  predicate IsInt(a: real) { a.Floor as real == a }

  /** f64::floor */
  function Floor(x: Double): Double
  {
    if x.Fin? then Fin(x.v.Floor as real) else x
  }

  /** f64::trunc */
  function Trunc(x: Double): Double
  {
    if x.Fin? then Fin(TruncReal(x.v) as real) else x
  }

  /** Rust `%` on f64 by a positive finite divisor d, which is C `fmod`
      (section 7.12.10.1 of C99 with the special cases of its Annex F.9.7.1):
      NaN for an infinite or NaN x, otherwise x - n*d with n = trunc(x/d).
      Every `%` of the core divides by a positive constant. */
  function FMod(x: Double, d: real): Double
    requires d > 0.0
  {
    if x.Fin? then Fin(x.v - d * TruncReal(x.v / d) as real) else NaN
  }

  /** Rust `as i32` from f64: truncating and saturating, NaN becomes 0. */
  function AsI32(x: Double): (n: int)
    ensures I32Min <= n <= I32Max
  {
    match x
    case NaN => 0
    case PosInf => I32Max
    case NegInf => I32Min
    case Fin(a) =>
      var t := TruncReal(a);
      if t > I32Max then I32Max else if t < I32Min then I32Min else t
  }

  function Pow2(e: int): (p: real)
    ensures p > 0.0
    decreases if e >= 0 then e else -e
  {
    if e == 0 then 1.0
    else if e > 0 then 2.0 * Pow2(e - 1)
    else Pow2(e + 1) / 2.0
  }

  /** C `ldexp(x, e)` = x * 2^e, with the range error of section 7.12.6.6 of
      C99 giving a signed infinity when the exact result is beyond DBL_MAX. */
  function Ldexp(x: Double, e: int): Double
  {
    if x.Fin? then
      var r := x.v * Pow2(e);
      if r > DblMax then PosInf else if r < -DblMax then NegInf else Fin(r)
    else x
  }

  /** 2^(a + b) = 2^a 2^b for all integer exponents. */
  lemma Pow2Add(a: int, b: int)
    ensures Pow2(a) * Pow2(b) == Pow2(a + b)
  {
    if b >= 0 {
      Pow2AddUp(a, b);
    } else {
      Pow2AddDown(a, b);
    }
  }

  lemma {:induction false} Pow2AddUp(a: int, b: nat)
    ensures Pow2(a) * Pow2(b) == Pow2(a + b)
  {
    if b > 0 {
      Pow2AddUp(a, b - 1);
      Pow2Succ(a + b - 1);
      Pow2Succ(b - 1);
      DoubleFactor(Pow2(a), Pow2(b - 1), Pow2(b));
    }
  }

  lemma {:induction false} Pow2AddDown(a: int, b: int)
    requires b <= 0
    ensures Pow2(a) * Pow2(b) == Pow2(a + b)
    decreases -b
  {
    if b < 0 {
      Pow2AddDown(a, b + 1);
      Pow2Succ(a + b);
      Pow2Succ(b);
      DoubleFactor(Pow2(a), Pow2(b), Pow2(b + 1));
    }
  }

  lemma DoubleFactor(p: real, q: real, r: real)
    requires r == 2.0 * q
    ensures p * r == 2.0 * (p * q)
  {
  }

  lemma Pow2Succ(e: int)
    ensures Pow2(e + 1) == 2.0 * Pow2(e)
  {
  }

  /** 2^e is at least 1 for e >= 0 and at most 1 for e <= 0. */
  lemma {:induction false} Pow2One(e: int)
    ensures e >= 0 ==> Pow2(e) >= 1.0
    ensures e <= 0 ==> Pow2(e) <= 1.0
    decreases if e >= 0 then e else -e
  {
    if e > 0 {
      Pow2One(e - 1);
    } else if e < 0 {
      Pow2One(e + 1);
    }
  }

  lemma TruncRealBounds(a: real)
    ensures a >= 0.0 ==> 0.0 <= TruncReal(a) as real <= a < TruncReal(a) as real + 1.0
    ensures a < 0.0 ==> TruncReal(a) as real - 1.0 < a <= TruncReal(a) as real <= 0.0
  {
  }

  /** The fmod contract of section 7.12.10.1 of C99, for the divisors 1 and 2
      that the core uses: for finite x the result has the sign of x, is
      smaller than the divisor in magnitude, and differs from x by an integer
      multiple of it. */
  lemma FModContract(x: real, d: real)
    requires d == 1.0 || d == 2.0
    ensures FMod(Fin(x), d).Fin?
    ensures var r := FMod(Fin(x), d).v;
      && (x >= 0.0 ==> 0.0 <= r < d)
      && (x <= 0.0 ==> -d < r <= 0.0)
      && IsInt((x - r) / d)
  {
    if d == 1.0 {
      FModContractAt(x, 1.0);
    } else {
      FModContractAt(x, 2.0);
    }
  }

  lemma FModContractAt(x: real, d: real)
    requires d == 1.0 || d == 2.0
    ensures FMod(Fin(x), d).Fin?
    ensures var r := FMod(Fin(x), d).v;
      && (x >= 0.0 ==> 0.0 <= r < d)
      && (x <= 0.0 ==> -d < r <= 0.0)
      && IsInt((x - r) / d)
  {
    var q := x / d;
    var n := TruncReal(q);
    TruncRealBounds(q);
    assert FMod(Fin(x), d) == Fin(x - d * n as real);
  }

  /** fmod by 1 or 2 recovers the remainder of an explicit decomposition
      |x| = q*d + r with an integral q >= 0 and 0 <= r < d; the result
      carries the sign of x. */
  lemma FModOfDecomposition(q: int, r: real, d: real, negative: bool)
    requires q >= 0 && (d == 1.0 || d == 2.0) && 0.0 <= r < d
    ensures var a := q as real * d + r;
      FMod(Fin(if negative then -a else a), d) == Fin(if negative then -r else r)
  {
    if d == 1.0 {
      var a := q as real + r;
      assert TruncReal(a / 1.0) == q;
      assert TruncReal((-a) / 1.0) == -q;
    } else {
      var a := q as real * 2.0 + r;
      assert a / 2.0 == q as real + r / 2.0;
      assert (-a) / 2.0 == -(q as real) - r / 2.0;
      assert 0.0 <= r / 2.0 < 1.0;
      assert TruncReal(a / 2.0) == q;
      assert TruncReal((-a) / 2.0) == -q;
    }
  }
}
