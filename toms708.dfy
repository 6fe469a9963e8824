/** The incomplete beta ratio dispatcher of src/toms708.rs (ACM TOMS algorithm
    708, A. R. DiDonato and A. H. Morris): `bratio` and the labelled blocks it
    was split into (`l_end*`, `l_w_bpser`, `l_w1_bpser`, `l_bfrac`, `l140`,
    `l131`, `bratio_final_else`), the index logic of `bup`, the status paths of
    `bgrat`, and the small helpers.

    The blocks write their results through `&mut` references to the caller's
    `w`, `w1` and `ierr`.  Each becomes a method whose out-parameters are those
    new values, and whose contract ties them to a specification function of the
    inputs (an `Outcome`).  The properties of the dispatcher are lemmas about
    these functions.

    The numerical kernels (series, continued fractions, asymptotic expansions)
    are the fields of a `Leaves` record: every property below holds for every
    choice of them. */
module Toms708 {
  import opened Ieee
  import Libm
  import Dpq
  import I1mach

  /** ln 2 and log10 2 as written at the top of src/toms708.rs. */
  const MLn2: real := 0.6931471805599453
  const MLog10Of2: real := 0.3010299956639812

  /** The 14-digit ln 2 used by `exparg`. */
  const Lnb: real := 0.69314718055995

  /** The kernels whose values are not modelled: `bpser(a, b, x, eps, log_p)`,
      `bfrac(a, b, x, y, lambda, eps, log_p)`, `basym(a, b, lambda, eps,
      log_p)`, `fpser(a, b, x, eps, log_p)`, `apser(a, b, x, eps)`,
      `brcmp1(mu, a, b, x, y, give_log)`, `rexpm1`, `alnrel`, `gam1` and
      `algdiv`. */
  datatype Leaves = Leaves(
    bpser: (Double, Double, Double, Double, bool) -> Double,
    bfrac: (Double, Double, Double, Double, Double, Double, bool) -> Double,
    basym: (Double, Double, Double, Double, bool) -> Double,
    fpser: (Double, Double, Double, Double, bool) -> Double,
    apser: (Double, Double, Double, Double) -> Double,
    brcmp1: (int, Double, Double, Double, Double, bool) -> Double,
    rexpm1: Double -> Double,
    alnrel: Double -> Double,
    gam1: Double -> Double,
    algdiv: (Double, Double) -> Double)

  /** What a block leaves behind: the final `w`, `w1` and `ierr`, or an abort
      (a Rust panic) before any of them is final. */
  datatype Outcome = Done(w: Double, w1: Double, ierr: int) | Aborted

  /** A block ending in `bgrat` reports 10 plus its status: 11 or 12. */
  predicate GratStatus(o: Outcome)
  {
    o.Done? ==> o.ierr == 11 || o.ierr == 12
  }

  /** A block entered with status `ierr` either reports a `bgrat` status or
      keeps `ierr`, and then (on the linear scale) leaves a complementary
      pair. */
  predicate Settled(o: Outcome, ierr: int, logP: bool)
  {
    o.Done? ==>
      o.ierr == 11 || o.ierr == 12 || (o.ierr == ierr && (!logP ==> Complementary(o.w, o.w1)))
  }

  // ---------------------------------------------------------------------
  // Small helpers

  /** `min` and `max` as the library writes them: `a < b ? a : b` and
      `a > b ? a : b`, so a NaN in the first place is not propagated. */
  function Min(a: Double, b: Double): Double
  {
    if Lt(a, b) then a else b
  }

  function Max(a: Double, b: Double): Double
  {
    if Gt(a, b) then a else b
  }

  /** Without NaN, `Min` and `Max` are the smaller and the larger argument;
      with NaN they return the second argument. */
  lemma MinMax(a: Double, b: Double)
    ensures !a.NaN? && !b.NaN? ==>
      && Le(Min(a, b), a) && Le(Min(a, b), b) && (Min(a, b) == a || Min(a, b) == b)
      && Ge(Max(a, b), a) && Ge(Max(a, b), b) && (Max(a, b) == a || Max(a, b) == b)
    ensures a.NaN? || b.NaN? ==> Min(a, b) == b && Max(a, b) == b
  {
  }

  /** `fmax2`: NaN if either argument is NaN, otherwise the larger one. */
  function Fmax2(x: Double, y: Double): Double
  {
    if x.NaN? || y.NaN? then Add(x, y)
    else if Lt(x, y) then y
    else x
  }

  lemma Fmax2IsMax(x: Double, y: Double)
    ensures Fmax2(x, y).NaN? <==> x.NaN? || y.NaN?
    ensures !x.NaN? && !y.NaN? ==>
      Ge(Fmax2(x, y), x) && Ge(Fmax2(x, y), y) && (Fmax2(x, y) == x || Fmax2(x, y) == y)
    ensures Fmax2(x, y) == Fmax2(y, x)
  {
  }

  /** The private `r_d_0` / `r_d_1` of src/toms708.rs. */
  function RD0(logP: bool): Double
  {
    if logP then NegInf else Fin(0.0)
  }

  function RD1(logP: bool): Double
  {
    if logP then Fin(0.0) else Fin(1.0)
  }

  /** They are the `r_d__0` / `r_d__1` of src/dpq.rs. */
  lemma SameAsDpq(logP: bool)
    ensures RD0(logP) == Dpq.RD0(logP) && RD1(logP) == Dpq.RD1(logP)
  {
  }

  /** `d1mach`. */
  function D1mach(i: int): Double
  {
    match i
    case 1 => Fin(DblMin)
    case 2 => Fin(DblMax)
    case 3 => Fin(0.5 * DblEpsilon)
    case 4 => Fin(DblEpsilon)
    case 5 => Fin(MLog10Of2)
    case _ => Fin(0.0)
  }

  /** The machine epsilon `bratio` starts from is DBL_EPSILON, and the one it
      switches to after the boundary cases is 1e-15.  `d1mach(1)` is the most
      negative double, not the smallest positive one. */
  lemma D1machValues()
    ensures Mul(Fin(2.0), D1mach(3)) == Fin(DblEpsilon)
    ensures Max(Fin(DblEpsilon), Fin(1e-15)) == Fin(1e-15)
    ensures D1mach(1) == Neg(D1mach(2)) && D1mach(1).v < 0.0
    ensures D1mach(4) == Fin(DblEpsilon) && D1mach(7) == Fin(0.0)
  {
  }

  /** `exparg(l)`: about the largest (l = 0) or most negative (l != 0)
      argument of exp that stays in range, from the exponent limits of
      `i1mach`, shrunk by a factor 0.99999. */
  function Exparg(l: int): Double
  {
    var m := if l == 0 then I1mach.I1mach(16) else I1mach.I1mach(15) - 1;
    Fin(m as real * Lnb * 0.99999)
  }

  lemma ExpargValues()
    ensures Exparg(0) == Fin(1024.0 * Lnb * 0.99999)
    ensures Exparg(1) == Fin(-1022.0 * Lnb * 0.99999)
    ensures AsI32(Exparg(0)) == 709 && AsI32(Abs(Exparg(1))) == 708
  {
    I1mach.Entries();
    var hi := 1024.0 * Lnb * 0.99999;
    var lo := 1022.0 * Lnb * 0.99999;
    assert 709.0 <= hi < 710.0;
    assert 708.0 <= lo < 709.0;
    assert TruncReal(hi) == 709;
    assert TruncReal(lo) == 708;
  }

  /** `esum(mu, x, give_log)`: exp(mu + x), computed as one exponential when
      that cannot leave the range more than the factors would, and as
      exp(mu) * exp(x) otherwise. */
  function Esum(lib: Libm.Libm, mu: int, x: Double, giveLog: bool): Double
  {
    var m := Fin(mu as real);
    if giveLog then Add(x, m)
    else if Gt(x, Fin(0.0)) then
      if mu > 0 then Mul(lib.exp(m), lib.exp(x))
      else
        var w := Add(m, x);
        if Lt(w, Fin(0.0)) then Mul(lib.exp(m), lib.exp(x)) else lib.exp(w)
    else
      if mu < 0 then Mul(lib.exp(m), lib.exp(x))
      else
        var w := Add(m, x);
        if Gt(w, Fin(0.0)) then Mul(lib.exp(m), lib.exp(x)) else lib.exp(w)
  }

  /** mu lies between 0 and -x (both included). */
  predicate BetweenZeroAnd(mu: int, t: real)
  {
    if t < 0.0 then t <= mu as real <= 0.0 else 0.0 <= mu as real <= t
  }

  /** For a finite x, `esum` takes the single exponential exactly when mu lies
      between 0 and -x, that is when mu + x is no larger in magnitude than
      either addend; on the log scale it is the plain sum. */
  lemma EsumSingleExp(lib: Libm.Libm, mu: int, x: real)
    ensures Esum(lib, mu, Fin(x), true) == Fin(x + mu as real)
    ensures BetweenZeroAnd(mu, -x) ==> Esum(lib, mu, Fin(x), false) == lib.exp(Fin(mu as real + x))
    ensures !BetweenZeroAnd(mu, -x) ==>
      Esum(lib, mu, Fin(x), false) == Mul(lib.exp(Fin(mu as real)), lib.exp(Fin(x)))
  {
  }

  /** `r_log1_exp(x)` = log(1 - exp(x)), by `rexpm1` near 0 and `log1p`
      below -ln 2. */
  function RLog1Exp(lib: Libm.Libm, lv: Leaves, x: Double): Double
  {
    if Gt(x, Fin(-MLn2)) then lib.log(Neg(lv.rexpm1(x))) else lib.log1p(Neg(lib.exp(x)))
  }

  /** log(1 - exp(-Inf)) = log 1 = 0 for a conforming library. */
  lemma RLog1ExpAtNegInf(lib: Libm.Libm, lv: Leaves)
    requires Libm.Valid(lib)
    ensures RLog1Exp(lib, lv, NegInf) == Fin(0.0)
  {
    assert !Gt(NegInf, Fin(-MLn2));
    assert lib.exp(NegInf) == Fin(0.0);
    assert Neg(Fin(0.0)) == Fin(0.0);
    assert lib.log1p(Fin(0.0)) == Fin(0.0);
  }

  // ---------------------------------------------------------------------
  // The (w, w1) pair: orientation and complements

  /** The pair after `l_end`: exchanged exactly when do_swap. */
  function Oriented(doSwap: bool, w: Double, w1: Double): (Double, Double)
  {
    if doSwap then (w1, w) else (w, w1)
  }

  /** `l_end(w, w1, do_swap)`. */
  method LEnd(wIn: Double, w1In: Double, doSwap: bool) returns (w: Double, w1: Double)
    ensures doSwap ==> w == w1In && w1 == wIn
    ensures !doSwap ==> w == wIn && w1 == w1In
  {
    w, w1 := wIn, w1In;
    if doSwap {
      var t := w;
      w := w1;
      w1 := t;
    }
  }

  /** Orienting twice restores the pair. */
  lemma OrientedInvolution(doSwap: bool, w: Double, w1: Double)
    ensures var p := Oriented(doSwap, w, w1); Oriented(doSwap, p.0, p.1) == (w, w1)
  {
  }

  /** `0.5 - u + 0.5`, the complement 1 - u on the linear scale. */
  function OneMinus(u: Double): Double
  {
    Add(Sub(Fin(0.5), u), Fin(0.5))
  }

  /** On finite values the complement is exact and undoes itself; NaN stays
      NaN and an infinity changes sign. */
  lemma OneMinusValues(u: Double)
    ensures u.Fin? ==> OneMinus(u) == Fin(1.0 - u.v) && OneMinus(OneMinus(u)) == u
    ensures u.NaN? ==> OneMinus(u) == NaN
    ensures u.PosInf? ==> OneMinus(u) == NegInf
    ensures u.NegInf? ==> OneMinus(u) == PosInf
  {
  }

  /** One of the two is the linear-scale complement of the other. */
  predicate Complementary(w: Double, w1: Double)
  {
    w1 == OneMinus(w) || w == OneMinus(w1)
  }

  /** Complementary finite values sum to 1, and the relation survives
      orientation. */
  lemma ComplementarySum(doSwap: bool, w: Double, w1: Double)
    requires Complementary(w, w1)
    ensures w.Fin? || w1.Fin? ==> w.Fin? && w1.Fin? && w.v + w1.v == 1.0
    ensures var p := Oriented(doSwap, w, w1); Complementary(p.0, p.1)
  {
  }

  /** The complement on the requested scale: `r_log1_exp(u)` on the log
      scale, `0.5 - u + 0.5` otherwise. */
  function Complement(lib: Libm.Libm, lv: Leaves, u: Double, logP: bool): Double
  {
    if logP then RLog1Exp(lib, lv, u) else OneMinus(u)
  }

  /** The pair left by `l_end_from_w`. */
  function EndFromW(lib: Libm.Libm, w: Double, doSwap: bool, logP: bool): (p: (Double, Double))
    ensures !logP ==> Complementary(p.0, p.1)
  {
    if logP then Oriented(doSwap, lib.log1p(Neg(w)), lib.log1p(Neg(w)))
    else Oriented(doSwap, w, OneMinus(w))
  }

  /** The pair left by `l_end_from_w1`. */
  function EndFromW1(lib: Libm.Libm, w1: Double, doSwap: bool, logP: bool): (p: (Double, Double))
    ensures !logP ==> Complementary(p.0, p.1)
  {
    if logP then Oriented(doSwap, lib.log1p(Neg(w1)), lib.log(Neg(w1)))
    else Oriented(doSwap, OneMinus(w1), w1)
  }

  /** The pair left by `l_end_from_w1_log`, where w1 is already log(w1). */
  function EndFromW1Log(lib: Libm.Libm, lv: Leaves, w1: Double, doSwap: bool, logP: bool): (Double, Double)
  {
    if logP then Oriented(doSwap, RLog1Exp(lib, lv, w1), w1)
    else Oriented(doSwap, Neg(lib.expm1(w1)), lib.exp(w1))
  }

  /** `l_end_from_w`. */
  method LEndFromW(lib: Libm.Libm, wIn: Double, doSwap: bool, logP: bool) returns (w: Double, w1: Double)
    ensures (w, w1) == EndFromW(lib, wIn, doSwap, logP)
  {
    w := wIn;
    if logP {
      w1 := lib.log1p(Neg(w));
      w := lib.log1p(Neg(w));
    } else {
      w1 := OneMinus(w);
    }
    w, w1 := LEnd(w, w1, doSwap);
  }

  /** `l_end_from_w1`. */
  method LEndFromW1(lib: Libm.Libm, w1In: Double, doSwap: bool, logP: bool) returns (w: Double, w1: Double)
    ensures (w, w1) == EndFromW1(lib, w1In, doSwap, logP)
  {
    w1 := w1In;
    if logP {
      w := lib.log1p(Neg(w1));
      w1 := lib.log(Neg(w1));
    } else {
      w := OneMinus(w1);
    }
    w, w1 := LEnd(w, w1, doSwap);
  }

  /** `l_end_from_w1_log`. */
  method LEndFromW1Log(lib: Libm.Libm, lv: Leaves, w1In: Double, doSwap: bool, logP: bool)
    returns (w: Double, w1: Double)
    ensures (w, w1) == EndFromW1Log(lib, lv, w1In, doSwap, logP)
  {
    w1 := w1In;
    if logP {
      w := RLog1Exp(lib, lv, w1);
    } else {
      w := Neg(lib.expm1(w1));
      w1 := lib.exp(w1);
    }
    w, w1 := LEnd(w, w1, doSwap);
  }

  /** On the log scale `l_end_from_w` stores log1p(-w) in BOTH slots: the
      second assignment reuses the w that the first one left unchanged. */
  lemma EndFromWLogSlots(lib: Libm.Libm, w: Double, doSwap: bool)
    ensures EndFromW(lib, w, doSwap, true) == (lib.log1p(Neg(w)), lib.log1p(Neg(w)))
  {
  }

  /** On the log scale `l_end_from_w1` takes the logarithm of -w1, so a
      positive finite w1 leaves NaN in the w1 slot of the result. */
  lemma EndFromW1LogSlot(lib: Libm.Libm, v: real, doSwap: bool)
    requires Libm.Valid(lib) && v > 0.0
    ensures var p := EndFromW1(lib, Fin(v), doSwap, true); (if doSwap then p.0 else p.1) == NaN
  {
    assert lib.log(Fin(-v)) == NaN;
  }

  /** A w1 of log 0 = -Inf ends as the pair (1, 0) on the requested scale. */
  lemma EndFromW1LogAtNegInf(lib: Libm.Libm, lv: Leaves, doSwap: bool, logP: bool)
    requires Libm.Valid(lib)
    ensures EndFromW1Log(lib, lv, NegInf, doSwap, logP) == Oriented(doSwap, RD1(logP), RD0(logP))
  {
    RLog1ExpAtNegInf(lib, lv);
  }

  // ---------------------------------------------------------------------
  // The blocks that call one series

  function BpserPair(lib: Libm.Libm, lv: Leaves, a0: Double, b0: Double, x0: Double, eps: Double,
                     doSwap: bool, logP: bool): (p: (Double, Double))
    ensures !logP ==> Complementary(p.0, p.1)
  {
    var v := lv.bpser(a0, b0, x0, eps, logP);
    Oriented(doSwap, v, Complement(lib, lv, v, logP))
  }

  function W1BpserPair(lib: Libm.Libm, lv: Leaves, a0: Double, b0: Double, y0: Double, eps: Double,
                       doSwap: bool, logP: bool): (p: (Double, Double))
    ensures !logP ==> Complementary(p.0, p.1)
  {
    var v := lv.bpser(b0, a0, y0, eps, logP);
    Oriented(doSwap, Complement(lib, lv, v, logP), v)
  }

  function BfracPair(lib: Libm.Libm, lv: Leaves, a0: Double, b0: Double, x0: Double, y0: Double,
                     lambda: Double, eps: Double, doSwap: bool, logP: bool): (p: (Double, Double))
    ensures !logP ==> Complementary(p.0, p.1)
  {
    var v := lv.bfrac(a0, b0, x0, y0, lambda, Mul(eps, Fin(15.0)), logP);
    Oriented(doSwap, v, Complement(lib, lv, v, logP))
  }

  /** `l_w_bpser`: w from bpser at (a0, b0, x0), w1 its complement. */
  method LWBpser(lib: Libm.Libm, lv: Leaves, a0: Double, b0: Double, x0: Double, eps: Double,
                 doSwap: bool, logP: bool) returns (w: Double, w1: Double)
    ensures (w, w1) == BpserPair(lib, lv, a0, b0, x0, eps, doSwap, logP)
  {
    w := lv.bpser(a0, b0, x0, eps, logP);
    w1 := if logP then RLog1Exp(lib, lv, w) else OneMinus(w);
    w, w1 := LEnd(w, w1, doSwap);
  }

  /** `l_w1_bpser`: w1 from bpser at the mirrored point (b0, a0, y0), w its
      complement. */
  method LW1Bpser(lib: Libm.Libm, lv: Leaves, a0: Double, b0: Double, y0: Double, eps: Double,
                  doSwap: bool, logP: bool) returns (w: Double, w1: Double)
    ensures (w, w1) == W1BpserPair(lib, lv, a0, b0, y0, eps, doSwap, logP)
  {
    w1 := lv.bpser(b0, a0, y0, eps, logP);
    w := if logP then RLog1Exp(lib, lv, w1) else OneMinus(w1);
    w, w1 := LEnd(w, w1, doSwap);
  }

  /** `l_bfrac`: w from the continued fraction with tolerance 15 eps. */
  method LBfrac(lib: Libm.Libm, lv: Leaves, a0: Double, b0: Double, x0: Double, y0: Double,
                lambda: Double, eps: Double, doSwap: bool, logP: bool) returns (w: Double, w1: Double)
    ensures (w, w1) == BfracPair(lib, lv, a0, b0, x0, y0, lambda, eps, doSwap, logP)
  {
    w := lv.bfrac(a0, b0, x0, y0, lambda, Mul(eps, Fin(15.0)), logP);
    w1 := if logP then RLog1Exp(lib, lv, w) else OneMinus(w);
    w, w1 := LEnd(w, w1, doSwap);
  }

  // ---------------------------------------------------------------------
  // bgrat: the status paths

  /** nu = a + (b - 1)/2, ln x (by `alnrel(-y)` when y <= 0.375) and
      z = -nu ln x of `bgrat`. */
  function BgratNu(a: Double, b: Double): Double
  {
    Add(a, Mul(Sub(Sub(b, Fin(0.5)), Fin(0.5)), Fin(0.5)))
  }

  function BgratLnx(lib: Libm.Libm, lv: Leaves, x: Double, y: Double): Double
  {
    if Gt(y, Fin(0.375)) then lib.log(x) else lv.alnrel(Neg(y))
  }

  function BgratZ(lib: Libm.Libm, lv: Leaves, a: Double, b: Double, x: Double, y: Double): Double
  {
    Mul(Neg(BgratNu(a, b)), BgratLnx(lib, lv, x, y))
  }

  /** log u = log r - (algdiv(b, a) + b log nu), with
      log r = log b + log1p(gam1(b)) + b log z + nu ln x. */
  function BgratLogR(lib: Libm.Libm, lv: Leaves, a: Double, b: Double, x: Double, y: Double): Double
  {
    var z := BgratZ(lib, lv, a, b, x, y);
    Add(Add(Add(lib.log(b), lib.log1p(lv.gam1(b))), Mul(b, lib.log(z))), Mul(BgratNu(a, b), BgratLnx(lib, lv, x, y)))
  }

  function BgratLogU(lib: Libm.Libm, lv: Leaves, a: Double, b: Double, x: Double, y: Double): Double
  {
    Sub(BgratLogR(lib, lv, a, b, x, y), Add(lv.algdiv(b, a), Mul(b, lib.log(BgratNu(a, b)))))
  }

  /** The status `bgrat` reports: 1 when b z == 0, 2 when log u == -Inf, and 0
      when it goes on to the series (which aborts). */
  function BgratCode(lib: Libm.Libm, lv: Leaves, a: Double, b: Double, x: Double, y: Double): int
  {
    if Eq(Mul(b, BgratZ(lib, lv, a, b, x, y)), Fin(0.0)) then 1
    else if BgratLogU(lib, lv, a, b, x, y) == NegInf then 2
    else 0
  }

  /** `bgrat(a, b, x, y, w, eps, ierr, log_w)`.  The two exits before the
      series set ierr to 1 or 2 and leave w alone.  Past them the term loop
      starts at n = 0 and its first step computes `n - 1` on `usize` and
      indexes its coefficient arrays with it, which panics; so a call that
      returns has always failed, with ierr 1 or 2. */
  method Bgrat(lib: Libm.Libm, lv: Leaves, a: Double, b: Double, x: Double, y: Double, wIn: Double,
               eps: Double, ierrIn: int, logW: bool) returns (w: Double, ierr: int, panicked: bool)
    ensures w == wIn
    ensures panicked <==> BgratCode(lib, lv, a, b, x, y) == 0
    ensures !panicked ==> ierr == BgratCode(lib, lv, a, b, x, y) && (ierr == 1 || ierr == 2)
    ensures panicked ==> ierr == ierrIn
  {
    w, ierr, panicked := wIn, ierrIn, false;
    var nu := BgratNu(a, b);
    var lnx := BgratLnx(lib, lv, x, y);
    var z := Mul(Neg(nu), lnx);
    if Eq(Mul(b, z), Fin(0.0)) {
      ierr := 1;
      return;
    }
    var logR := BgratLogR(lib, lv, a, b, x, y);
    var logU := Sub(logR, Add(lv.algdiv(b, a), Mul(b, lib.log(nu))));
    if logU == NegInf {
      ierr := 2;
      return;
    }
    // The first pass of the term loop (n = 0) evaluates `n - 1` on usize.
    panicked := true;
  }

  // ---------------------------------------------------------------------
  // bup: I_x(a, b) - I_x(a + n, b)

  /** The scaling of `bup`: with n > 1, a >= 1 and a + b >= 1.1 (a + 1) the
      exponent mu = min(|exparg(1)|, exparg(0)) and d = exp(-mu); otherwise
      mu = 0 and d = 1. */
  function BupScale(lib: Libm.Libm, a: Double, b: Double, n: int): (int, Double)
  {
    if ScaledTerms(a, b, n) then
      var mu := AsI32(Abs(Exparg(1)));
      var k := AsI32(Exparg(0));
      var m := if mu > k then k else mu;
      (m, lib.exp(Fin(-m as real)))
    else (0, Fin(1.0))
  }

  predicate ScaledTerms(a: Double, b: Double, n: int)
  {
    n > 1 && Ge(a, Fin(1.0)) && Ge(Add(a, b), Mul(Add(a, Fin(1.0)), Fin(1.10)))
  }

  /** The scaled exponent, when used, is 708. */
  lemma BupScaleExponent(lib: Libm.Libm, a: Double, b: Double, n: int)
    ensures BupScale(lib, a, b, n).0 == 0 || BupScale(lib, a, b, n).0 == 708
  {
    ExpargValues();
  }

  /** The leading factor brcmp1(mu, a, b, x, y) / a (or its logarithm). */
  function BupLead(lib: Libm.Libm, lv: Leaves, a: Double, b: Double, x: Double, y: Double, n: int,
                   giveLog: bool): Double
  {
    var mu := BupScale(lib, a, b, n).0;
    if giveLog then Sub(lv.brcmp1(mu, a, b, x, y, true), lib.log(a))
    else Div(lv.brcmp1(mu, a, b, x, y, false), a)
  }

  /** `bup` returns the leading factor alone for n == 1 or when it is 0
      (-Inf on the log scale). */
  predicate BupEarly(lead: Double, n: int, giveLog: bool)
  {
    n == 1 || (giveLog && lead == NegInf) || (!giveLog && Eq(lead, Fin(0.0)))
  }

  /** The index k of the largest term: 0 unless b > 1; then n - 1 when
      y <= 1e-4, else r = (b - 1) x / y - a truncated, when 1 <= r < n - 1, or
      n - 1 when r >= n - 1. */
  function PeakIndex(a: Double, b: Double, x: Double, y: Double, n: int): int
  {
    var nm1 := n - 1;
    if !Gt(b, Fin(1.0)) then 0
    else if !Gt(y, Fin(1e-4)) then nm1
    else
      var r := PeakRatio(a, b, x, y);
      if !Ge(r, Fin(1.0)) then 0
      else if Lt(r, Fin(nm1 as real)) then AsI32(r)
      else nm1
  }

  /** r = (b - 1) x / y - a. */
  function PeakRatio(a: Double, b: Double, x: Double, y: Double): Double
  {
    Sub(Div(Mul(Sub(b, Fin(1.0)), x), y), a)
  }

  /** The peak index lies in [0, n - 1]. */
  lemma PeakIndexBounds(a: Double, b: Double, x: Double, y: Double, n: int)
    requires n >= 1
    ensures 0 <= PeakIndex(a, b, x, y, n) <= n - 1
  {
    var nm1 := n - 1;
    if Gt(b, Fin(1.0)) && Gt(y, Fin(1e-4)) {
      var r := PeakRatio(a, b, x, y);
      if Ge(r, Fin(1.0)) && Lt(r, Fin(nm1 as real)) {
        assert r.Fin? && 1.0 <= r.v < nm1 as real;
        TruncRealBounds(r.v);
        assert 1 <= TruncReal(r.v) < nm1;
      }
    }
  }

  /** The ratio of term i + 1 to term i: (a + b + i) / (a + 1 + i) * x. */
  function TermRatio(apb: Double, ap1: Double, x: Double, i: int): Double
  {
    var l := Fin(i as real);
    Mul(Div(Add(apb, l), Add(ap1, l)), x)
  }

  /** The first loop of `bup`: terms i, ..., k - 1 added to w, d the last
      term. */
  function Rise(apb: Double, ap1: Double, x: Double, d: Double, w: Double, i: int, k: int): (Double, Double)
    decreases k - i
  {
    if i >= k then (d, w)
    else
      var d1 := Mul(d, TermRatio(apb, ap1, x, i));
      Rise(apb, ap1, x, d1, Add(w, d1), i + 1, k)
  }

  /** The second loop of `bup`: terms i, ..., nm1 - 1, stopping after the
      first term d with d <= eps w.  The result is (d, w, stop), where stop is
      one past the last index visited. */
  function Settle(apb: Double, ap1: Double, x: Double, eps: Double, d: Double, w: Double, i: int,
                  nm1: int): (Double, Double, int)
    decreases nm1 - i
  {
    if i >= nm1 then (d, w, i)
    else
      var d1 := Mul(d, TermRatio(apb, ap1, x, i));
      var w1 := Add(w, d1);
      if Le(d1, Mul(eps, w1)) then (d1, w1, i + 1)
      else Settle(apb, ap1, x, eps, d1, w1, i + 1, nm1)
  }

  /** The second loop ends at an index in [i, max(i, nm1)], one past i when it
      runs at all, and it stops before nm1 only on convergence. */
  lemma {:induction false} SettleBounds(apb: Double, ap1: Double, x: Double, eps: Double, d: Double,
                                        w: Double, i: int, nm1: int)
    ensures var s := Settle(apb, ap1, x, eps, d, w, i, nm1);
      && (i >= nm1 ==> s.2 == i)
      && (i < nm1 ==> i + 1 <= s.2 <= nm1)
      && (s.2 < nm1 ==> Le(s.0, Mul(eps, s.1)))
    decreases nm1 - i
  {
    if i < nm1 {
      var d1 := Mul(d, TermRatio(apb, ap1, x, i));
      var w1 := Add(w, d1);
      if !Le(d1, Mul(eps, w1)) {
        SettleBounds(apb, ap1, x, eps, d1, w1, i + 1, nm1);
      }
    }
  }

  /** The two loops of `bup` from the first term d: the first (only when
      `rising`, that is b > 1) over [0, k), the second from k on.  The result
      is the sum w and the index one past the last term added. */
  function BupLoopsSum(apb: Double, ap1: Double, x: Double, eps: Double, d: Double, k: int, nm1: int,
                       rising: bool): (Double, int)
  {
    var r := if rising then Rise(apb, ap1, x, d, d, 0, k) else (d, d);
    var s := Settle(apb, ap1, x, eps, r.0, r.1, k, nm1);
    (s.1, s.2)
  }

  /** The sum w of `bup` and the index one past the last term added. */
  function BupSum(lib: Libm.Libm, a: Double, b: Double, x: Double, y: Double, n: int, eps: Double)
    : (Double, int)
  {
    BupLoopsSum(Add(a, b), Add(a, Fin(1.0)), x, eps, BupScale(lib, a, b, n).1, PeakIndex(a, b, x, y, n),
                n - 1, Gt(b, Fin(1.0)))
  }

  /** `bup(a, b, x, y, n, eps, give_log)`. */
  function BupValue(lib: Libm.Libm, lv: Leaves, a: Double, b: Double, x: Double, y: Double, n: int,
                    eps: Double, giveLog: bool): Double
  {
    var lead := BupLead(lib, lv, a, b, x, y, n, giveLog);
    if BupEarly(lead, n, giveLog) then lead
    else
      var w := BupSum(lib, a, b, x, y, n, eps).0;
      if giveLog then Add(lead, lib.log(w)) else Mul(lead, w)
  }

  /** A call of `bup` whose caller only uses the value. */
  method BupCall(lib: Libm.Libm, lv: Leaves, a: Double, b: Double, x: Double, y: Double, n: int,
                 eps: Double, giveLog: bool) returns (r: Double)
    requires n >= 1
    ensures r == BupValue(lib, lv, a, b, x, y, n, eps, giveLog)
  {
    var k;
    ghost var visited;
    r, k, visited := Bup(lib, lv, a, b, x, y, n, eps, giveLog);
  }

  /** `bup`.  Besides the value, k is the peak index the source computes
      (0 when it returns early) and `visited` lists the loop indices in the
      order the two loops run through them: each index of [0, n - 1) at most
      once, in increasing order, the first loop's [0, k) before the second
      loop's [k, ...). */
  method Bup(lib: Libm.Libm, lv: Leaves, a: Double, b: Double, x: Double, y: Double, n: int,
             eps: Double, giveLog: bool) returns (r: Double, k: int, ghost visited: seq<int>)
    requires n >= 1
    ensures r == BupValue(lib, lv, a, b, x, y, n, eps, giveLog)
    ensures 0 <= k <= n - 1
    ensures !BupEarly(BupLead(lib, lv, a, b, x, y, n, giveLog), n, giveLog) ==>
      k == PeakIndex(a, b, x, y, n) && k <= |visited| &&
      |visited| == BupSum(lib, a, b, x, y, n, eps).1
    ensures BupEarly(BupLead(lib, lv, a, b, x, y, n, giveLog), n, giveLog) ==> k == 0 && visited == []
    ensures |visited| <= n - 1
    ensures forall i :: 0 <= i < |visited| ==> visited[i] == i
  {
    var ret := BupLead(lib, lv, a, b, x, y, n, giveLog);
    if n == 1 || (giveLog && ret == NegInf) || (!giveLog && Eq(ret, Fin(0.0))) {
      return ret, 0, [];
    }
    r, k, visited := BupSummed(lib, lv, a, b, x, y, n, eps, giveLog, ret);
  }

  /** `bup` past its early return: the peak index, the two loops and the
      scaling of the sum by the leading factor. */
  method BupSummed(lib: Libm.Libm, lv: Leaves, a: Double, b: Double, x: Double, y: Double, n: int,
                   eps: Double, giveLog: bool, ret: Double) returns (r: Double, k: int, ghost visited: seq<int>)
    requires n >= 1 && ret == BupLead(lib, lv, a, b, x, y, n, giveLog) && !BupEarly(ret, n, giveLog)
    ensures r == BupValue(lib, lv, a, b, x, y, n, eps, giveLog)
    ensures k == PeakIndex(a, b, x, y, n) && 0 <= k <= |visited| <= n - 1
    ensures |visited| == BupSum(lib, a, b, x, y, n, eps).1
    ensures forall i :: 0 <= i < |visited| ==> visited[i] == i
  {
    var d := BupScale(lib, a, b, n).1;
    var nm1 := n - 1;
    k := PeakIndex(a, b, x, y, n);
    PeakIndexBounds(a, b, x, y, n);
    var w;
    w, visited := BupLoops(Add(a, b), Add(a, Fin(1.0)), x, eps, d, k, nm1, Gt(b, Fin(1.0)));
    assert (w, |visited|) == BupSum(lib, a, b, x, y, n, eps);
    r := if giveLog then Add(ret, lib.log(w)) else Mul(ret, w);
    BupValueSummed(lib, lv, a, b, x, y, n, eps, giveLog);
  }

  /** Past the early return, `bup` scales its sum by the leading factor. */
  lemma BupValueSummed(lib: Libm.Libm, lv: Leaves, a: Double, b: Double, x: Double, y: Double, n: int,
                       eps: Double, giveLog: bool)
    requires !BupEarly(BupLead(lib, lv, a, b, x, y, n, giveLog), n, giveLog)
    ensures var lead := BupLead(lib, lv, a, b, x, y, n, giveLog);
      var w := BupSum(lib, a, b, x, y, n, eps).0;
      BupValue(lib, lv, a, b, x, y, n, eps, giveLog) == if giveLog then Add(lead, lib.log(w)) else Mul(lead, w)
  {
  }

  /** The two loops of `bup`. */
  method BupLoops(apb: Double, ap1: Double, x: Double, eps: Double, d0: Double, k: int, nm1: int,
                  rising: bool) returns (w: Double, ghost visited: seq<int>)
    requires 0 <= k <= nm1 && (rising || k == 0)
    ensures w == BupLoopsSum(apb, ap1, x, eps, d0, k, nm1, rising).0
    ensures |visited| == BupLoopsSum(apb, ap1, x, eps, d0, k, nm1, rising).1
    ensures k <= |visited| <= nm1
    ensures forall i :: 0 <= i < |visited| ==> visited[i] == i
  {
    var d := d0;
    w := d;
    visited := [];
    if rising {
      d, w, visited := RiseLoop(apb, ap1, x, d, w, k);
    }
    d, w, visited := SettleLoop(apb, ap1, x, eps, d, w, k, nm1, visited);
  }

  /** The first loop of `bup`: indices 0, ..., k - 1 in turn. */
  method RiseLoop(apb: Double, ap1: Double, x: Double, d0: Double, w0: Double, k: int)
    returns (d: Double, w: Double, ghost visited: seq<int>)
    requires k >= 0
    ensures (d, w) == Rise(apb, ap1, x, d0, w0, 0, k)
    ensures |visited| == k && forall j :: 0 <= j < k ==> visited[j] == j
  {
    d, w, visited := d0, w0, [];
    var i := 0;
    while i < k
      invariant 0 <= i <= k
      invariant Rise(apb, ap1, x, d, w, i, k) == Rise(apb, ap1, x, d0, w0, 0, k)
      invariant |visited| == i && forall j :: 0 <= j < i ==> visited[j] == j
    {
      d := Mul(d, TermRatio(apb, ap1, x, i));
      w := Add(w, d);
      visited := visited + [i];
      i := i + 1;
    }
  }

  /** The second loop of `bup`: indices k, k + 1, ... up to nm1 - 1, left as
      soon as a term is within eps of the sum. */
  method SettleLoop(apb: Double, ap1: Double, x: Double, eps: Double, d0: Double, w0: Double, k: int,
                    nm1: int, ghost visited0: seq<int>) returns (d: Double, w: Double, ghost visited: seq<int>)
    requires 0 <= k <= nm1
    requires |visited0| == k && forall j :: 0 <= j < k ==> visited0[j] == j
    ensures var s := Settle(apb, ap1, x, eps, d0, w0, k, nm1); d == s.0 && w == s.1
    ensures |visited| == Settle(apb, ap1, x, eps, d0, w0, k, nm1).2
    ensures k <= |visited| <= nm1
    ensures forall j :: 0 <= j < |visited| ==> visited[j] == j
  {
    SettleBounds(apb, ap1, x, eps, d0, w0, k, nm1);
    d, w, visited := d0, w0, visited0;
    var i := k;
    while i < nm1
      invariant k <= i <= nm1
      invariant Settle(apb, ap1, x, eps, d, w, i, nm1) == Settle(apb, ap1, x, eps, d0, w0, k, nm1)
      invariant |visited| == i && forall j :: 0 <= j < i ==> visited[j] == j
    {
      d := Mul(d, TermRatio(apb, ap1, x, i));
      w := Add(w, d);
      visited := visited + [i];
      if Le(d, Mul(eps, w)) {
        i := i + 1;
        break;
      }
      i := i + 1;
    }
  }

  // ---------------------------------------------------------------------
  // l140 and l131: the blocks that go through bup and bgrat

  /** The split at the top of `l140`: n = b0 truncated and b0 - n, with a
      zero fraction replaced by n - 1 and 1. */
  function SplitB0(b0: Double): (int, Double)
  {
    var n := AsI32(b0);
    var r := Sub(b0, Fin(n as real));
    if Eq(r, Fin(0.0)) then (n - 1, Fin(1.0)) else (n, r)
  }

  /** For 1 < b0 (below the i32 range) the split is b0 = n + b0' with
      n >= 1 and 0 < b0' <= 1, so the reverted b0' + n of `l140` is b0
      again. */
  lemma SplitB0Bounds(b0: real)
    requires 1.0 < b0 < I32Max as real
    ensures var (n, r) := SplitB0(Fin(b0));
      && n >= 1 && r.Fin? && 0.0 < r.v <= 1.0 && n as real + r.v == b0
      && Add(r, Fin(n as real)) == Fin(b0)
  {
    TruncRealBounds(b0);
    assert AsI32(Fin(b0)) == TruncReal(b0);
  }

  /** `l140(a0, b0, x0, y0, eps, w, w1, do_swap, ierr, ierr1, log_p)`. */
  function L140Spec(lib: Libm.Libm, lv: Leaves, a0: Double, b0: Double, x0: Double, y0: Double,
                    eps: Double, doSwap: bool, ierr: int, logP: bool): (o: Outcome)
    ensures Settled(o, ierr, logP)
  {
    var s := SplitB0(b0);
    L140SplitSpec(lib, lv, s.0, a0, s.1, x0, y0, eps, doSwap, ierr, logP)
  }

  /** `l140` after b0 was split into n + b. */
  function L140SplitSpec(lib: Libm.Libm, lv: Leaves, n: int, a0: Double, b: Double, x0: Double, y0: Double,
                         eps: Double, doSwap: bool, ierr: int, logP: bool): (o: Outcome)
    ensures Settled(o, ierr, logP)
  {
    L140FromBup(lib, lv, BupValue(lib, lv, b, a0, y0, x0, n, eps, false), n, a0, b, x0, y0, eps, doSwap, ierr, logP)
  }

  /** `l140` once the first `bup` returned w. */
  function L140FromBup(lib: Libm.Libm, lv: Leaves, w: Double, n: int, a0: Double, b: Double, x0: Double, y0: Double,
                       eps: Double, doSwap: bool, ierr: int, logP: bool): (o: Outcome)
    ensures Settled(o, ierr, logP)
  {
    if Lt(w, Fin(DblMin)) && logP then
      var p := BpserPair(lib, lv, a0, Add(b, Fin(n as real)), x0, eps, doSwap, logP);
      Done(p.0, p.1, ierr)
    else if Le(x0, Fin(0.7)) then
      var p := EndFromW(lib, Add(w, lv.bpser(a0, b, x0, eps, false)), doSwap, logP);
      Done(p.0, p.1, ierr)
    else L140GratSpec(lib, lv, w, a0, b, x0, y0, eps, doSwap, logP)
  }

  /** The end of `l140` for x0 > 0.7: a second `bup` that moves a0 past 15,
      then `bgrat` on the accumulated w. */
  function L140GratSpec(lib: Libm.Libm, lv: Leaves, w: Double, a0: Double, b: Double, x0: Double, y0: Double,
                        eps: Double, doSwap: bool, logP: bool): (o: Outcome)
    ensures GratStatus(o)
  {
    var grow := Le(a0, Fin(15.0));
    var w2 := if grow then Add(w, BupValue(lib, lv, a0, b, x0, y0, 20, eps, false)) else w;
    var a2 := if grow then Add(a0, Fin(20.0)) else a0;
    BgratEndSpec(lib, lv, w2, a2, b, x0, y0, doSwap, logP)
  }

  /** `bgrat` on (a, b, x, y) followed by `l_end_from_w`: an abort, or the
      pair and 10 plus the status of `bgrat`. */
  function BgratEndSpec(lib: Libm.Libm, lv: Leaves, w: Double, a: Double, b: Double, x: Double, y: Double,
                        doSwap: bool, logP: bool): (o: Outcome)
    ensures GratStatus(o)
  {
    var code := BgratCode(lib, lv, a, b, x, y);
    if code == 0 then Aborted
    else
      var p := EndFromW(lib, w, doSwap, logP);
      Done(p.0, p.1, 10 + code)
  }

  /** `l140`.  It is entered with 1 < b0 < 40; the outcome carries the new
      (w, w1, ierr). */
  method L140(lib: Libm.Libm, lv: Leaves, a0: Double, b0: Double, x0: Double, y0: Double, eps: Double,
              doSwap: bool, ierr: int, logP: bool) returns (o: Outcome)
    requires b0.Fin? && 1.0 < b0.v < 40.0
    ensures o == L140Spec(lib, lv, a0, b0, x0, y0, eps, doSwap, ierr, logP)
  {
    var n := AsI32(b0);
    var b := Sub(b0, Fin(n as real));
    if Eq(b, Fin(0.0)) {
      n := n - 1;
      b := Fin(1.0);
    }
    SplitB0Bounds(b0.v);
    assert (n, b) == SplitB0(b0);
    o := L140Split(lib, lv, n, a0, b, x0, y0, eps, doSwap, ierr, logP);
  }

  method L140Split(lib: Libm.Libm, lv: Leaves, n: int, a0: Double, b: Double, x0: Double, y0: Double,
                   eps: Double, doSwap: bool, ierr: int, logP: bool) returns (o: Outcome)
    requires n >= 1
    ensures o == L140SplitSpec(lib, lv, n, a0, b, x0, y0, eps, doSwap, ierr, logP)
  {
    var w := BupCall(lib, lv, b, a0, y0, x0, n, eps, false);
    o := L140AfterBup(lib, lv, w, n, a0, b, x0, y0, eps, doSwap, ierr, logP);
  }

  method L140AfterBup(lib: Libm.Libm, lv: Leaves, w: Double, n: int, a0: Double, b: Double, x0: Double,
                      y0: Double, eps: Double, doSwap: bool, ierr: int, logP: bool) returns (o: Outcome)
    ensures o == L140FromBup(lib, lv, w, n, a0, b, x0, y0, eps, doSwap, ierr, logP)
  {
    if Lt(w, Fin(DblMin)) && logP {
      var b1 := Add(b, Fin(n as real));
      var v, v1 := LWBpser(lib, lv, a0, b1, x0, eps, doSwap, logP);
      o := Done(v, v1, ierr);
    } else {
      o := L140Rest(lib, lv, w, n, a0, b, x0, y0, eps, doSwap, ierr, logP);
    }
  }

  method L140Rest(lib: Libm.Libm, lv: Leaves, w: Double, n: int, a0: Double, b: Double, x0: Double,
                  y0: Double, eps: Double, doSwap: bool, ierr: int, logP: bool) returns (o: Outcome)
    requires !(Lt(w, Fin(DblMin)) && logP)
    ensures o == L140FromBup(lib, lv, w, n, a0, b, x0, y0, eps, doSwap, ierr, logP)
  {
    if Le(x0, Fin(0.7)) {
      var v := Add(w, lv.bpser(a0, b, x0, eps, false));
      var v1;
      v, v1 := LEndFromW(lib, v, doSwap, logP);
      o := Done(v, v1, ierr);
    } else {
      o := L140Grat(lib, lv, w, a0, b, x0, y0, eps, doSwap, ierr, logP);
    }
  }

  method L140Grat(lib: Libm.Libm, lv: Leaves, wIn: Double, a0: Double, b: Double, x0: Double, y0: Double,
                  eps: Double, doSwap: bool, ierr: int, logP: bool) returns (o: Outcome)
    ensures o == L140GratSpec(lib, lv, wIn, a0, b, x0, y0, eps, doSwap, logP)
  {
    var w := wIn;
    var a := a0;
    if Le(a0, Fin(15.0)) {
      var u := BupCall(lib, lv, a0, b, x0, y0, 20, eps, false);
      w := Add(w, u);
      a := Add(a0, Fin(20.0));
    }
    o := BgratEnd(lib, lv, w, a, b, x0, y0, Mul(Fin(15.0), eps), doSwap, ierr, logP);
  }

  /** The `bgrat` call of `l140` (with its tolerance `eps15`) and the
      `l_end_from_w` after it. */
  method BgratEnd(lib: Libm.Libm, lv: Leaves, wIn: Double, a: Double, b: Double, x: Double, y: Double,
                  eps15: Double, doSwap: bool, ierrIn: int, logP: bool) returns (o: Outcome)
    ensures o == BgratEndSpec(lib, lv, wIn, a, b, x, y, doSwap, logP)
  {
    var w, code, panicked := Bgrat(lib, lv, a, b, x, y, wIn, eps15, 0, false);
    if panicked {
      o := Aborted;
    } else {
      var ierr := if code != 0 then 10 + code else ierrIn;
      var w1;
      w, w1 := LEndFromW(lib, w, doSwap, logP);
      o := Done(w, w1, ierr);
    }
  }

  /** `l131(a, b, x, n, a0, b0, x0, y0, w, w1, eps, ierr, ierr1, did_bup,
      do_swap, log_p)`: `bgrat` on the mirrored problem, then a retry on the
      log scale when its w1 is zero (or compares below DBL_MIN). */
  function L131Spec(lib: Libm.Libm, lv: Leaves, n: int, a0: Double, b0: Double, x0: Double, y0: Double,
                    w1: Double, eps: Double, didBup: bool, doSwap: bool, logP: bool): (o: Outcome)
    ensures GratStatus(o)
    ensures !logP && !NeedsRetry(w1) ==> o.Done? ==> Complementary(o.w, o.w1)
  {
    var code := BgratCode(lib, lv, b0, a0, y0, x0);
    if code == 0 then Aborted
    else if NeedsRetry(w1) then L131RetrySpec(lib, lv, n, a0, b0, x0, y0, eps, didBup, doSwap, logP)
    else
      var p := EndFromW1(lib, w1, doSwap, logP);
      Done(p.0, p.1, 10 + code)
  }

  /** The retry test of `l131`: w1 == 0, or 0 < w1 < DBL_MIN. */
  predicate NeedsRetry(w1: Double)
  {
    Eq(w1, Fin(0.0)) || (Lt(Fin(0.0), w1) && Lt(w1, Fin(DblMin)))
  }

  /** The retry: w1 restarts from log(bup(...)) when `bup` ran before, from
      -Inf otherwise, and `bgrat` is called again on the log scale. */
  function L131RetrySpec(lib: Libm.Libm, lv: Leaves, n: int, a0: Double, b0: Double, x0: Double, y0: Double,
                         eps: Double, didBup: bool, doSwap: bool, logP: bool): (o: Outcome)
    ensures GratStatus(o)
  {
    var w1 := if didBup then BupValue(lib, lv, Sub(b0, Fin(n as real)), a0, y0, x0, n, eps, true) else NegInf;
    RegratSpec(lib, lv, w1, a0, b0, x0, y0, doSwap, logP)
  }

  /** The second `bgrat` of `l131` and the `l_end_from_w1_log` after it. */
  function RegratSpec(lib: Libm.Libm, lv: Leaves, w1: Double, a0: Double, b0: Double, x0: Double, y0: Double,
                      doSwap: bool, logP: bool): (o: Outcome)
    ensures GratStatus(o)
  {
    var code := BgratCode(lib, lv, b0, a0, y0, x0);
    if code == 0 then Aborted
    else
      var p := EndFromW1Log(lib, lv, w1, doSwap, logP);
      Done(p.0, p.1, 10 + code)
  }

  /** `l131`. */
  method L131(lib: Libm.Libm, lv: Leaves, n: int, a0: Double, b0: Double, x0: Double, y0: Double,
              w1In: Double, eps: Double, ierr: int, didBup: bool, doSwap: bool, logP: bool) returns (o: Outcome)
    requires didBup ==> n >= 1
    ensures o == L131Spec(lib, lv, n, a0, b0, x0, y0, w1In, eps, didBup, doSwap, logP)
  {
    var w1, code, panicked := Bgrat(lib, lv, b0, a0, y0, x0, w1In, Mul(Fin(15.0), eps), 0, false);
    if panicked {
      o := Aborted;
    } else {
      o := L131Finish(lib, lv, n, a0, b0, x0, y0, w1, code, eps, ierr, didBup, doSwap, logP);
    }
  }

  method L131Finish(lib: Libm.Libm, lv: Leaves, n: int, a0: Double, b0: Double, x0: Double, y0: Double,
                    w1In: Double, code: int, eps: Double, ierrIn: int, didBup: bool, doSwap: bool, logP: bool)
    returns (o: Outcome)
    requires didBup ==> n >= 1
    requires code == BgratCode(lib, lv, b0, a0, y0, x0) && code != 0
    ensures o == L131Spec(lib, lv, n, a0, b0, x0, y0, w1In, eps, didBup, doSwap, logP)
  {
    if NeedsRetry(w1In) {
      o := L131Retry(lib, lv, n, a0, b0, x0, y0, code, eps, ierrIn, didBup, doSwap, logP);
    } else {
      var ierr := if code != 0 then 10 + code else ierrIn;
      var w, w1 := LEndFromW1(lib, w1In, doSwap, logP);
      o := Done(w, w1, ierr);
    }
  }

  method L131Retry(lib: Libm.Libm, lv: Leaves, n: int, a0: Double, b0: Double, x0: Double, y0: Double,
                   ierr1: int, eps: Double, ierr: int, didBup: bool, doSwap: bool, logP: bool) returns (o: Outcome)
    requires didBup ==> n >= 1
    ensures o == L131RetrySpec(lib, lv, n, a0, b0, x0, y0, eps, didBup, doSwap, logP)
  {
    var w1;
    if didBup {
      w1 := BupCall(lib, lv, Sub(b0, Fin(n as real)), a0, y0, x0, n, eps, true);
    } else {
      w1 := NegInf;
    }
    o := Regrat(lib, lv, w1, a0, b0, x0, y0, Mul(Fin(15.0), eps), ierr1, ierr, doSwap, logP);
  }

  method Regrat(lib: Libm.Libm, lv: Leaves, w1In: Double, a0: Double, b0: Double, x0: Double, y0: Double,
                eps15: Double, ierr1: int, ierrIn: int, doSwap: bool, logP: bool) returns (o: Outcome)
    ensures o == RegratSpec(lib, lv, w1In, a0, b0, x0, y0, doSwap, logP)
  {
    var w1, code, panicked := Bgrat(lib, lv, b0, a0, y0, x0, w1In, eps15, ierr1, true);
    if panicked {
      o := Aborted;
    } else {
      var ierr := if code != 0 then 10 + code else ierrIn;
      var w;
      w, w1 := LEndFromW1Log(lib, lv, w1, doSwap, logP);
      o := Done(w, w1, ierr);
    }
  }

  /** When `bgrat` cannot even start on the b0 > 15 path (w1 = 0 and no bup
      before), `l131` ends with the pair (1, 0) on the requested scale. */
  lemma L131WithoutBup(lib: Libm.Libm, lv: Leaves, a0: Double, b0: Double, x0: Double, y0: Double,
                       eps: Double, doSwap: bool, logP: bool)
    requires Libm.Valid(lib)
    ensures var o := L131Spec(lib, lv, 0, a0, b0, x0, y0, Fin(0.0), eps, false, doSwap, logP);
      o.Done? ==> (o.w, o.w1) == Oriented(doSwap, RD1(logP), RD0(logP))
  {
    EndFromW1LogAtNegInf(lib, lv, doSwap, logP);
  }

  // ---------------------------------------------------------------------
  // bratio_final_else: both a, b > 1

  /** lambda = a y - b x, in the form `bratio_final_else` picks: (a + b) y - b
      or a - (a + b) x while a + b is finite, a y - b x otherwise. */
  function Lambda(a: Double, b: Double, x: Double, y: Double): Double
  {
    if IsFinite(Add(a, b)) then
      if Gt(a, b) then Sub(Mul(Add(a, b), y), b) else Sub(a, Mul(Add(a, b), x))
    else Sub(Mul(a, y), Mul(b, x))
  }

  /** With y = 1 - x every form is a y - b x, so exchanging (a, x) with
      (b, y) negates lambda. */
  lemma LambdaForms(a: real, b: real, x: real, y: real)
    requires x + y == 1.0
    ensures Lambda(Fin(a), Fin(b), Fin(x), Fin(y)) == Fin(a * y - b * x)
    ensures Lambda(Fin(b), Fin(a), Fin(y), Fin(x)) == Neg(Lambda(Fin(a), Fin(b), Fin(x), Fin(y)))
  {
    assert (a + b) * y - b == a * y - b * x;
    assert a - (a + b) * x == a * y - b * x;
    assert (b + a) * x - a == b * x - a * y;
    assert b - (b + a) * y == b * x - a * y;
  }

  /** The (a0, b0, x0, y0) of a block: (b, a, y, x) when do_swap. */
  function Mirror(doSwap: bool, a: Double, b: Double, x: Double, y: Double): (Double, Double, Double, Double)
  {
    if doSwap then (b, a, y, x) else (a, b, x, y)
  }

  lemma MirrorInvolution(doSwap: bool, a: Double, b: Double, x: Double, y: Double)
    ensures var m := Mirror(doSwap, a, b, x, y);
      Mirror(doSwap, m.0, m.1, m.2, m.3) == (a, b, x, y)
    ensures Mirror(false, a, b, x, y) == (a, b, x, y)
  {
  }

  /** For a, b > 1 and y = 1 - x, do_swap holds exactly when a y < b x; the
      lambda handed on is |a y - b x| >= 0, and it is the lambda of the
      mirrored problem. */
  lemma FinalSwap(a: real, b: real, x: real, y: real)
    requires a > 1.0 && b > 1.0 && x + y == 1.0
    ensures var lam := Lambda(Fin(a), Fin(b), Fin(x), Fin(y));
      var doSwap := Lt(lam, Fin(0.0));
      var m := Mirror(doSwap, Fin(a), Fin(b), Fin(x), Fin(y));
      var lam0 := if doSwap then Neg(lam) else lam;
      && (doSwap <==> a * y < b * x)
      && lam0.Fin? && lam0.v >= 0.0
      && lam0 == Lambda(m.0, m.1, m.2, m.3)
  {
    LambdaForms(a, b, x, y);
  }

  datatype FinalChoice = FinalBpser | FinalL140 | FinalBfrac | FinalBasym

  /** The branch `bratio_final_else` takes for the oriented (a0, b0, x0) and
      the non-negative lambda. */
  function FinalRegime(a0: Double, b0: Double, x0: Double, lambda: Double, logP: bool): FinalChoice
  {
    if Lt(b0, Fin(40.0)) then
      if Le(Mul(b0, x0), Fin(0.7)) || (logP && Gt(lambda, Fin(650.0))) then FinalBpser else FinalL140
    else if Gt(a0, b0) then
      if Le(b0, Fin(100.0)) || Gt(lambda, Mul(b0, Fin(0.03))) then FinalBfrac else FinalBasym
    else if Le(a0, Fin(100.0)) then FinalBfrac
    else if Gt(lambda, Mul(a0, Fin(0.03))) then FinalBfrac
    else FinalBasym
  }

  /** The regime rule on finite arguments: below b0 = 40 bpser or l140;
      otherwise bfrac, except that basym takes over when the smaller
      parameter exceeds 100 and lambda is at most 3% of it. */
  lemma FinalRegimeRule(a0: real, b0: real, x0: real, lambda: real, logP: bool)
    ensures FinalRegime(Fin(a0), Fin(b0), Fin(x0), Fin(lambda), logP) ==
      if b0 < 40.0 then
        if b0 * x0 <= 0.7 || (logP && lambda > 650.0) then FinalBpser else FinalL140
      else if (a0 > b0 && b0 > 100.0 && lambda <= 0.03 * b0) || (a0 <= b0 && a0 > 100.0 && lambda <= 0.03 * a0)
      then FinalBasym
      else FinalBfrac
  {
  }

  function BasymPair(lib: Libm.Libm, lv: Leaves, a0: Double, b0: Double, lambda: Double, eps: Double,
                     doSwap: bool, logP: bool): (p: (Double, Double))
    ensures !logP ==> Complementary(p.0, p.1)
  {
    var v := lv.basym(a0, b0, lambda, Mul(eps, Fin(100.0)), logP);
    Oriented(doSwap, v, Complement(lib, lv, v, logP))
  }

  /** `bratio_final_else` once the problem is oriented. */
  function FinalBranchSpec(lib: Libm.Libm, lv: Leaves, a0: Double, b0: Double, x0: Double, y0: Double,
                           lambda: Double, eps: Double, doSwap: bool, ierr: int, logP: bool): (o: Outcome)
    ensures Settled(o, ierr, logP)
  {
    match FinalRegime(a0, b0, x0, lambda, logP)
    case FinalBpser =>
      var p := BpserPair(lib, lv, a0, b0, x0, eps, doSwap, logP); Done(p.0, p.1, ierr)
    case FinalL140 => L140Spec(lib, lv, a0, b0, x0, y0, eps, doSwap, ierr, logP)
    case FinalBfrac =>
      var p := BfracPair(lib, lv, a0, b0, x0, y0, lambda, eps, doSwap, logP); Done(p.0, p.1, ierr)
    case FinalBasym =>
      var p := BasymPair(lib, lv, a0, b0, lambda, eps, doSwap, logP); Done(p.0, p.1, ierr)
  }

  /** `bratio_final_else(a, b, x, y, eps, w, w1, ierr, ierr1, log_p)`. */
  function FinalElseSpec(lib: Libm.Libm, lv: Leaves, a: Double, b: Double, x: Double, y: Double,
                         eps: Double, ierr: int, logP: bool): (o: Outcome)
    ensures Settled(o, ierr, logP)
  {
    var lam := Lambda(a, b, x, y);
    var doSwap := Lt(lam, Fin(0.0));
    var m := Mirror(doSwap, a, b, x, y);
    FinalBranchSpec(lib, lv, m.0, m.1, m.2, m.3, if doSwap then Neg(lam) else lam, eps, doSwap, ierr, logP)
  }

  method BratioFinalElse(lib: Libm.Libm, lv: Leaves, a: Double, b: Double, x: Double, y: Double,
                         eps: Double, ierr: int, logP: bool) returns (o: Outcome)
    requires Gt(a, Fin(1.0)) && Gt(b, Fin(1.0))
    ensures o == FinalElseSpec(lib, lv, a, b, x, y, eps, ierr, logP)
  {
    var lambda := Lambda(a, b, x, y);
    var doSwap := Lt(lambda, Fin(0.0));
    var a0, b0, x0, y0;
    if doSwap {
      lambda := Neg(lambda);
      a0, x0, b0, y0 := b, y, a, x;
    } else {
      a0, x0, b0, y0 := a, x, b, y;
    }
    o := FinalBranch(lib, lv, a0, b0, x0, y0, lambda, eps, doSwap, ierr, logP);
  }

  method FinalBranch(lib: Libm.Libm, lv: Leaves, a0: Double, b0: Double, x0: Double, y0: Double,
                     lambda: Double, eps: Double, doSwap: bool, ierr: int, logP: bool) returns (o: Outcome)
    requires Gt(b0, Fin(1.0))
    ensures o == FinalBranchSpec(lib, lv, a0, b0, x0, y0, lambda, eps, doSwap, ierr, logP)
  {
    if FinalRegime(a0, b0, x0, lambda, logP) == FinalL140 {
      o := L140(lib, lv, a0, b0, x0, y0, eps, doSwap, ierr, logP);
    } else {
      o := FinalSeries(lib, lv, a0, b0, x0, y0, lambda, eps, doSwap, ierr, logP);
    }
  }

  /** The branches of `bratio_final_else` that evaluate one series:
      `l_w_bpser`, `l_bfrac`, or the inline `basym` block. */
  method FinalSeries(lib: Libm.Libm, lv: Leaves, a0: Double, b0: Double, x0: Double, y0: Double,
                     lambda: Double, eps: Double, doSwap: bool, ierr: int, logP: bool) returns (o: Outcome)
    requires FinalRegime(a0, b0, x0, lambda, logP) != FinalL140
    ensures o == FinalBranchSpec(lib, lv, a0, b0, x0, y0, lambda, eps, doSwap, ierr, logP)
  {
    if FinalRegime(a0, b0, x0, lambda, logP) == FinalBpser {
      var w, w1 := LWBpser(lib, lv, a0, b0, x0, eps, doSwap, logP);
      o := Done(w, w1, ierr);
    } else {
      o := FinalFraction(lib, lv, a0, b0, x0, y0, lambda, eps, doSwap, ierr, logP);
    }
  }

  /** The `l_bfrac` and `basym` branches of `bratio_final_else`. */
  method FinalFraction(lib: Libm.Libm, lv: Leaves, a0: Double, b0: Double, x0: Double, y0: Double,
                       lambda: Double, eps: Double, doSwap: bool, ierr: int, logP: bool) returns (o: Outcome)
    requires FinalRegime(a0, b0, x0, lambda, logP).FinalBfrac? || FinalRegime(a0, b0, x0, lambda, logP).FinalBasym?
    ensures o == FinalBranchSpec(lib, lv, a0, b0, x0, y0, lambda, eps, doSwap, ierr, logP)
  {
    var w, w1;
    if FinalRegime(a0, b0, x0, lambda, logP) == FinalBfrac {
      w, w1 := LBfrac(lib, lv, a0, b0, x0, y0, lambda, eps, doSwap, logP);
    } else {
      w := lv.basym(a0, b0, lambda, Mul(eps, Fin(100.0)), logP);
      w1 := if logP then RLog1Exp(lib, lv, w) else OneMinus(w);
      w, w1 := LEnd(w, w1, doSwap);
    }
    o := Done(w, w1, ierr);
  }

  // ---------------------------------------------------------------------
  // The a <= 1 or b <= 1 branch of bratio

  /** Mirrored so that x0 <= 1/2, as `bratio` promises before the branch:
      with y = 1 - x the point of the oriented problem satisfies
      x0 <= 1/2 <= y0. */
  lemma LowMirrorHalf(a: Double, b: Double, x: real, y: real)
    requires x + y == 1.0
    ensures var m := Mirror(Gt(Fin(x), Fin(0.5)), a, b, Fin(x), Fin(y));
      m.2.Fin? && m.3.Fin? && m.2.v <= 0.5 <= m.3.v && m.2.v + m.3.v == 1.0
  {
  }

  /** The test of the `fpser` branch: b0 < min(eps, eps a0). */
  predicate FpserTest(a0: Double, b0: Double, eps: Double)
  {
    Lt(b0, Min(eps, Mul(eps, a0)))
  }

  /** The test of the `apser` branch: a0 < min(eps, eps b0) and b0 x0 <= 1. */
  predicate ApserTest(a0: Double, b0: Double, x0: Double, eps: Double)
  {
    Lt(a0, Min(eps, Mul(eps, b0))) && Le(Mul(b0, x0), Fin(1.0))
  }

  datatype LowChoice = LowFpser | LowApser | LowWBpser | LowW1Bpser | LowL131 | LowBup

  /** The branch `bratio` takes for the oriented (a0, b0, x0) when
      min(a, b) <= 1, in the order of its tests. */
  function LowRegime(lib: Libm.Libm, a0: Double, b0: Double, x0: Double, eps: Double): LowChoice
  {
    if FpserTest(a0, b0, eps) then LowFpser
    else if ApserTest(a0, b0, x0, eps) then LowApser
    else if Gt(Max(a0, b0), Fin(1.0)) then
      if Le(b0, Fin(1.0)) then LowWBpser
      else if Ge(x0, Fin(0.29)) then LowW1Bpser
      else if Lt(x0, Fin(0.1)) && Le(lib.pow(Mul(x0, b0), a0), Fin(0.7)) then LowWBpser
      else if Gt(b0, Fin(15.0)) then LowL131
      else LowBup
    else
      if Ge(a0, Min(Fin(0.2), b0)) then LowWBpser
      else if Le(lib.pow(x0, a0), Fin(0.9)) then LowWBpser
      else if Ge(x0, Fin(0.3)) then LowW1Bpser
      else LowBup
  }

  /** The regime on finite non-negative arguments: `fpser` when b0 is below
      eps min(a0, 1); `apser` when instead a0 is below eps min(b0, 1) and
      b0 x0 <= 1; `bgrat` without `bup` exactly when neither applies, b0 > 15,
      x0 < 0.29 and the small-x0 test of bpser fails; and bpser whenever both
      parameters are at most 1 and a0 >= b0. */
  lemma LowRegimeRule(lib: Libm.Libm, a0: real, b0: real, x0: real, eps: real)
    requires 0.0 < eps && 0.0 <= a0 && 0.0 <= b0
    ensures b0 < eps * (if a0 < 1.0 then a0 else 1.0) ==> LowRegime(lib, Fin(a0), Fin(b0), Fin(x0), Fin(eps)) == LowFpser
    ensures !(b0 < eps * (if a0 < 1.0 then a0 else 1.0)) && a0 < eps * (if b0 < 1.0 then b0 else 1.0) && b0 * x0 <= 1.0 ==>
      LowRegime(lib, Fin(a0), Fin(b0), Fin(x0), Fin(eps)) == LowApser
    ensures LowRegime(lib, Fin(a0), Fin(b0), Fin(x0), Fin(eps)).LowL131? <==>
      && !(b0 < eps * (if a0 < 1.0 then a0 else 1.0))
      && !(a0 < eps * (if b0 < 1.0 then b0 else 1.0) && b0 * x0 <= 1.0)
      && b0 > 15.0 && x0 < 0.29
      && !(x0 < 0.1 && Le(lib.pow(Fin(x0 * b0), Fin(a0)), Fin(0.7)))
    ensures a0 <= 1.0 && b0 <= 1.0 && a0 >= b0 && !(b0 < eps * a0) && !(a0 < eps * b0 && b0 * x0 <= 1.0) ==>
      LowRegime(lib, Fin(a0), Fin(b0), Fin(x0), Fin(eps)) == LowWBpser
  {
    LowTests(a0, b0, x0, eps);
    LowRegimeL131(lib, a0, b0, x0, eps);
    if b0 <= a0 <= 1.0 {
      LowRegimeBothSmall(lib, a0, b0, x0, eps);
    }
  }

  /** The `fpser` and `apser` tests on finite arguments, as real inequalities. */
  lemma LowTests(a0: real, b0: real, x0: real, eps: real)
    requires 0.0 < eps
    ensures FpserTest(Fin(a0), Fin(b0), Fin(eps)) <==> b0 < eps * (if a0 < 1.0 then a0 else 1.0)
    ensures ApserTest(Fin(a0), Fin(b0), Fin(x0), Fin(eps)) <==>
      a0 < eps * (if b0 < 1.0 then b0 else 1.0) && b0 * x0 <= 1.0
  {
    EpsMin(eps, a0);
    EpsMin(eps, b0);
    assert Mul(Fin(b0), Fin(x0)) == Fin(b0 * x0);
  }

  /** The `bgrat`-without-`bup` path of `LowRegimeRule`. */
  lemma LowRegimeL131(lib: Libm.Libm, a0: real, b0: real, x0: real, eps: real)
    requires 0.0 < eps && 0.0 <= a0 && 0.0 <= b0
    ensures LowRegime(lib, Fin(a0), Fin(b0), Fin(x0), Fin(eps)).LowL131? <==>
      && !FpserTest(Fin(a0), Fin(b0), Fin(eps))
      && !ApserTest(Fin(a0), Fin(b0), Fin(x0), Fin(eps))
      && b0 > 15.0 && x0 < 0.29
      && !(x0 < 0.1 && Le(lib.pow(Fin(x0 * b0), Fin(a0)), Fin(0.7)))
  {
    assert Mul(Fin(x0), Fin(b0)) == Fin(x0 * b0);
    assert b0 > 15.0 ==> Gt(Max(Fin(a0), Fin(b0)), Fin(1.0));
  }

  /** The bpser path of `LowRegimeRule` for a0 >= b0, both at most 1. */
  lemma LowRegimeBothSmall(lib: Libm.Libm, a0: real, b0: real, x0: real, eps: real)
    requires 0.0 <= b0 <= a0 <= 1.0
    ensures !FpserTest(Fin(a0), Fin(b0), Fin(eps)) && !ApserTest(Fin(a0), Fin(b0), Fin(x0), Fin(eps)) ==>
      LowRegime(lib, Fin(a0), Fin(b0), Fin(x0), Fin(eps)) == LowWBpser
  {
    assert !Gt(Max(Fin(a0), Fin(b0)), Fin(1.0));
    assert Ge(Fin(a0), Min(Fin(0.2), Fin(b0)));
  }

  /** For eps > 0, min(eps, eps a) is eps min(a, 1). */
  lemma EpsMin(eps: real, a: real)
    requires eps > 0.0
    ensures Min(Fin(eps), Mul(Fin(eps), Fin(a))) == Fin(eps * (if a < 1.0 then a else 1.0))
  {
    if a < 1.0 {
      assert eps * a < eps * 1.0;
    } else {
      assert eps * 1.0 <= eps * a;
    }
  }

  function FpserPair(lib: Libm.Libm, lv: Leaves, a0: Double, b0: Double, x0: Double, eps: Double,
                     doSwap: bool, logP: bool): (p: (Double, Double))
    ensures !logP ==> Complementary(p.0, p.1)
  {
    var v := lv.fpser(a0, b0, x0, eps, logP);
    Oriented(doSwap, v, Complement(lib, lv, v, logP))
  }

  /** The `fpser` block of `bratio` (its label L80). */
  method LFpser(lib: Libm.Libm, lv: Leaves, a0: Double, b0: Double, x0: Double, eps: Double,
                doSwap: bool, logP: bool) returns (w: Double, w1: Double)
    ensures (w, w1) == FpserPair(lib, lv, a0, b0, x0, eps, doSwap, logP)
  {
    w := lv.fpser(a0, b0, x0, eps, logP);
    w1 := if logP then RLog1Exp(lib, lv, w) else OneMinus(w);
    w, w1 := LEnd(w, w1, doSwap);
  }

  /** The a <= 1 or b <= 1 branch once the problem is oriented.  The direct
      `l131` starts from w1 = 0 with n = 0; the `bup` path adds n = 20 terms
      first, moves b0 up by 20 and starts `l131` from their sum. */
  function LowBranchSpec(lib: Libm.Libm, lv: Leaves, a0: Double, b0: Double, x0: Double, y0: Double,
                         eps: Double, doSwap: bool, ierr: int, logP: bool): (o: Outcome)
    ensures Settled(o, ierr, logP)
  {
    match LowRegime(lib, a0, b0, x0, eps)
    case LowFpser =>
      var p := FpserPair(lib, lv, a0, b0, x0, eps, doSwap, logP); Done(p.0, p.1, ierr)
    case LowApser =>
      var p := EndFromW1(lib, lv.apser(a0, b0, x0, eps), doSwap, logP); Done(p.0, p.1, ierr)
    case LowWBpser =>
      var p := BpserPair(lib, lv, a0, b0, x0, eps, doSwap, logP); Done(p.0, p.1, ierr)
    case LowW1Bpser =>
      var p := W1BpserPair(lib, lv, a0, b0, y0, eps, doSwap, logP); Done(p.0, p.1, ierr)
    case LowL131 =>
      L131Spec(lib, lv, 0, a0, b0, x0, y0, Fin(0.0), eps, false, doSwap, logP)
    case LowBup =>
      var w1 := BupValue(lib, lv, b0, a0, y0, x0, 20, eps, false);
      L131Spec(lib, lv, 20, a0, Add(b0, Fin(20.0)), x0, y0, w1, eps, true, doSwap, logP)
  }

  /** The a <= 1 or b <= 1 branch of `bratio`: mirrored when x > 1/2. */
  function LowSpec(lib: Libm.Libm, lv: Leaves, a: Double, b: Double, x: Double, y: Double,
                   eps: Double, ierr: int, logP: bool): (o: Outcome)
    ensures Settled(o, ierr, logP)
  {
    var doSwap := Gt(x, Fin(0.5));
    var m := Mirror(doSwap, a, b, x, y);
    LowBranchSpec(lib, lv, m.0, m.1, m.2, m.3, eps, doSwap, ierr, logP)
  }

  /** The a <= 1 or b <= 1 branch as `bratio` runs it. */
  method BratioLow(lib: Libm.Libm, lv: Leaves, a: Double, b: Double, x: Double, y: Double,
                   eps: Double, ierr: int, logP: bool) returns (o: Outcome)
    ensures o == LowSpec(lib, lv, a, b, x, y, eps, ierr, logP)
  {
    var doSwap := Gt(x, Fin(0.5));
    var a0, b0, x0, y0;
    if doSwap {
      a0, x0, b0, y0 := b, y, a, x;
    } else {
      a0, x0, b0, y0 := a, x, b, y;
    }
    o := LowBranch(lib, lv, a0, b0, x0, y0, eps, doSwap, ierr, logP);
  }

  /** The `fpser` test, then the rest. */
  method LowBranch(lib: Libm.Libm, lv: Leaves, a0: Double, b0: Double, x0: Double, y0: Double,
                   eps: Double, doSwap: bool, ierr: int, logP: bool) returns (o: Outcome)
    ensures o == LowBranchSpec(lib, lv, a0, b0, x0, y0, eps, doSwap, ierr, logP)
  {
    if FpserTest(a0, b0, eps) {
      var w, w1 := LFpser(lib, lv, a0, b0, x0, eps, doSwap, logP);
      o := Done(w, w1, ierr);
    } else {
      o := LowAfterFpser(lib, lv, a0, b0, x0, y0, eps, doSwap, ierr, logP);
    }
  }

  /** The `apser` test, then the rest. */
  method LowAfterFpser(lib: Libm.Libm, lv: Leaves, a0: Double, b0: Double, x0: Double, y0: Double,
                       eps: Double, doSwap: bool, ierr: int, logP: bool) returns (o: Outcome)
    requires !FpserTest(a0, b0, eps)
    ensures o == LowBranchSpec(lib, lv, a0, b0, x0, y0, eps, doSwap, ierr, logP)
  {
    if ApserTest(a0, b0, x0, eps) {
      var w, w1 := LEndFromW1(lib, lv.apser(a0, b0, x0, eps), doSwap, logP);
      o := Done(w, w1, ierr);
    } else {
      o := LowSeries(lib, lv, a0, b0, x0, y0, eps, doSwap, ierr, logP);
    }
  }

  /** The remaining tests split on max(a0, b0) > 1. */
  method LowSeries(lib: Libm.Libm, lv: Leaves, a0: Double, b0: Double, x0: Double, y0: Double,
                   eps: Double, doSwap: bool, ierr: int, logP: bool) returns (o: Outcome)
    requires !FpserTest(a0, b0, eps) && !ApserTest(a0, b0, x0, eps)
    ensures o == LowBranchSpec(lib, lv, a0, b0, x0, y0, eps, doSwap, ierr, logP)
  {
    if Gt(Max(a0, b0), Fin(1.0)) {
      o := LowOneLarge(lib, lv, a0, b0, x0, y0, eps, doSwap, ierr, logP);
    } else {
      o := LowBothSmall(lib, lv, a0, b0, x0, y0, eps, doSwap, ierr, logP);
    }
  }

  /** min(a, b) <= 1 < max(a, b): b0 <= 1 gives bpser. */
  method LowOneLarge(lib: Libm.Libm, lv: Leaves, a0: Double, b0: Double, x0: Double, y0: Double,
                     eps: Double, doSwap: bool, ierr: int, logP: bool) returns (o: Outcome)
    requires !FpserTest(a0, b0, eps) && !ApserTest(a0, b0, x0, eps) && Gt(Max(a0, b0), Fin(1.0))
    ensures o == LowBranchSpec(lib, lv, a0, b0, x0, y0, eps, doSwap, ierr, logP)
  {
    if Le(b0, Fin(1.0)) {
      var w, w1 := LWBpser(lib, lv, a0, b0, x0, eps, doSwap, logP);
      o := Done(w, w1, ierr);
    } else {
      o := LowLargeB(lib, lv, a0, b0, x0, y0, eps, doSwap, ierr, logP);
    }
  }

  /** b0 > 1: x0 >= 0.29 gives bpser at the mirrored point. */
  method LowLargeB(lib: Libm.Libm, lv: Leaves, a0: Double, b0: Double, x0: Double, y0: Double,
                   eps: Double, doSwap: bool, ierr: int, logP: bool) returns (o: Outcome)
    requires !FpserTest(a0, b0, eps) && !ApserTest(a0, b0, x0, eps) && Gt(Max(a0, b0), Fin(1.0))
    requires !Le(b0, Fin(1.0))
    ensures o == LowBranchSpec(lib, lv, a0, b0, x0, y0, eps, doSwap, ierr, logP)
  {
    if Ge(x0, Fin(0.29)) {
      var w, w1 := LW1Bpser(lib, lv, a0, b0, y0, eps, doSwap, logP);
      o := Done(w, w1, ierr);
    } else {
      o := LowLargeBSmallX(lib, lv, a0, b0, x0, y0, eps, doSwap, ierr, logP);
    }
  }

  /** x0 < 0.29: bpser when x0 < 0.1 and (x0 b0)^a0 <= 0.7. */
  method LowLargeBSmallX(lib: Libm.Libm, lv: Leaves, a0: Double, b0: Double, x0: Double, y0: Double,
                         eps: Double, doSwap: bool, ierr: int, logP: bool) returns (o: Outcome)
    requires !FpserTest(a0, b0, eps) && !ApserTest(a0, b0, x0, eps) && Gt(Max(a0, b0), Fin(1.0))
    requires !Le(b0, Fin(1.0)) && !Ge(x0, Fin(0.29))
    ensures o == LowBranchSpec(lib, lv, a0, b0, x0, y0, eps, doSwap, ierr, logP)
  {
    if Lt(x0, Fin(0.1)) && Le(lib.pow(Mul(x0, b0), a0), Fin(0.7)) {
      var w, w1 := LWBpser(lib, lv, a0, b0, x0, eps, doSwap, logP);
      o := Done(w, w1, ierr);
    } else {
      o := LowGrat(lib, lv, a0, b0, x0, y0, eps, doSwap, ierr, logP);
    }
  }

  /** b0 > 15 goes to `l131` with w1 = 0; otherwise through `bup`. */
  method LowGrat(lib: Libm.Libm, lv: Leaves, a0: Double, b0: Double, x0: Double, y0: Double,
                 eps: Double, doSwap: bool, ierr: int, logP: bool) returns (o: Outcome)
    requires !FpserTest(a0, b0, eps) && !ApserTest(a0, b0, x0, eps) && Gt(Max(a0, b0), Fin(1.0))
    requires !Le(b0, Fin(1.0)) && !Ge(x0, Fin(0.29))
    requires !(Lt(x0, Fin(0.1)) && Le(lib.pow(Mul(x0, b0), a0), Fin(0.7)))
    ensures o == LowBranchSpec(lib, lv, a0, b0, x0, y0, eps, doSwap, ierr, logP)
  {
    if Gt(b0, Fin(15.0)) {
      o := L131(lib, lv, 0, a0, b0, x0, y0, Fin(0.0), eps, ierr, false, doSwap, logP);
    } else {
      o := LowBupBranch(lib, lv, a0, b0, x0, y0, eps, doSwap, ierr, logP);
    }
  }

  /** a0, b0 <= 1: a0 >= min(0.2, b0) gives bpser. */
  method LowBothSmall(lib: Libm.Libm, lv: Leaves, a0: Double, b0: Double, x0: Double, y0: Double,
                      eps: Double, doSwap: bool, ierr: int, logP: bool) returns (o: Outcome)
    requires !FpserTest(a0, b0, eps) && !ApserTest(a0, b0, x0, eps) && !Gt(Max(a0, b0), Fin(1.0))
    ensures o == LowBranchSpec(lib, lv, a0, b0, x0, y0, eps, doSwap, ierr, logP)
  {
    if Ge(a0, Min(Fin(0.2), b0)) {
      var w, w1 := LWBpser(lib, lv, a0, b0, x0, eps, doSwap, logP);
      o := Done(w, w1, ierr);
    } else {
      o := LowBothSmallA(lib, lv, a0, b0, x0, y0, eps, doSwap, ierr, logP);
    }
  }

  /** x0^a0 <= 0.9 gives bpser. */
  method LowBothSmallA(lib: Libm.Libm, lv: Leaves, a0: Double, b0: Double, x0: Double, y0: Double,
                       eps: Double, doSwap: bool, ierr: int, logP: bool) returns (o: Outcome)
    requires !FpserTest(a0, b0, eps) && !ApserTest(a0, b0, x0, eps) && !Gt(Max(a0, b0), Fin(1.0))
    requires !Ge(a0, Min(Fin(0.2), b0))
    ensures o == LowBranchSpec(lib, lv, a0, b0, x0, y0, eps, doSwap, ierr, logP)
  {
    if Le(lib.pow(x0, a0), Fin(0.9)) {
      var w, w1 := LWBpser(lib, lv, a0, b0, x0, eps, doSwap, logP);
      o := Done(w, w1, ierr);
    } else {
      o := LowBothSmallFar(lib, lv, a0, b0, x0, y0, eps, doSwap, ierr, logP);
    }
  }

  /** x0 >= 0.3 gives bpser at the mirrored point; otherwise `bup`. */
  method LowBothSmallFar(lib: Libm.Libm, lv: Leaves, a0: Double, b0: Double, x0: Double, y0: Double,
                         eps: Double, doSwap: bool, ierr: int, logP: bool) returns (o: Outcome)
    requires !FpserTest(a0, b0, eps) && !ApserTest(a0, b0, x0, eps) && !Gt(Max(a0, b0), Fin(1.0))
    requires !Ge(a0, Min(Fin(0.2), b0)) && !Le(lib.pow(x0, a0), Fin(0.9))
    ensures o == LowBranchSpec(lib, lv, a0, b0, x0, y0, eps, doSwap, ierr, logP)
  {
    if Ge(x0, Fin(0.3)) {
      var w, w1 := LW1Bpser(lib, lv, a0, b0, y0, eps, doSwap, logP);
      o := Done(w, w1, ierr);
    } else {
      o := LowBupBranch(lib, lv, a0, b0, x0, y0, eps, doSwap, ierr, logP);
    }
  }

  /** The `bup` path: 20 terms of the mirrored problem, b0 moved up by 20,
      then `l131`. */
  method LowBupBranch(lib: Libm.Libm, lv: Leaves, a0: Double, b0In: Double, x0: Double, y0: Double,
                eps: Double, doSwap: bool, ierr: int, logP: bool) returns (o: Outcome)
    requires LowRegime(lib, a0, b0In, x0, eps) == LowBup
    ensures o == LowBranchSpec(lib, lv, a0, b0In, x0, y0, eps, doSwap, ierr, logP)
  {
    var n := 20;
    var w1 := BupCall(lib, lv, b0In, a0, y0, x0, n, eps, false);
    var b0 := Add(b0In, Fin(n as real));
    o := L131(lib, lv, n, a0, b0, x0, y0, w1, eps, ierr, true, doSwap, logP);
  }

  // ---------------------------------------------------------------------
  // bratio

  /** The argument checks of `bratio` in their order: 9 for a NaN, 1 for a
      negative parameter, 2 for a = b = 0, 3 and 4 for x or y outside [0, 1],
      5 when y is not 1 - x to within 3 DBL_EPSILON; 0 when all pass. */
  function InputError(a: Double, b: Double, x: Double, y: Double): int
  {
    if x.NaN? || y.NaN? || a.NaN? || b.NaN? then 9
    else if Lt(a, Fin(0.0)) || Lt(b, Fin(0.0)) then 1
    else if Eq(a, Fin(0.0)) && Eq(b, Fin(0.0)) then 2
    else if Lt(x, Fin(0.0)) || Gt(x, Fin(1.0)) then 3
    else if Lt(y, Fin(0.0)) || Gt(y, Fin(1.0)) then 4
    else if Gt(Abs(Sub(Sub(Add(x, y), Fin(0.5)), Fin(0.5))), Mul(Mul(Fin(2.0), D1mach(3)), Fin(3.0))) then 5
    else 0
  }

  /** A parameter `bratio` accepts: non-negative, possibly +Inf. */
  predicate NonNegParam(d: Double)
  {
    d.PosInf? || (d.Fin? && d.v >= 0.0)
  }

  /** A point `bratio` accepts: a finite value in [0, 1]. */
  predicate UnitPoint(d: Double)
  {
    d.Fin? && 0.0 <= d.v <= 1.0
  }

  /** The arguments on which `bratio` computes: no NaN, a, b >= 0 and not
      both 0, x and y in [0, 1] with |x + y - 1| <= 3 DBL_EPSILON. */
  predicate Admissible(a: Double, b: Double, x: Double, y: Double)
  {
    && NonNegParam(a) && NonNegParam(b) && !(a == Fin(0.0) && b == Fin(0.0))
    && UnitPoint(x) && UnitPoint(y)
    && -3.0 * DblEpsilon <= x.v + y.v - 1.0 <= 3.0 * DblEpsilon
  }

  /** The error code is 0 exactly on admissible arguments, 9 exactly when one
      argument is NaN, and otherwise one of 1 to 5. */
  lemma InputErrorCodes(a: Double, b: Double, x: Double, y: Double)
    ensures InputError(a, b, x, y) == 0 <==> Admissible(a, b, x, y)
    ensures InputError(a, b, x, y) == 9 <==> x.NaN? || y.NaN? || a.NaN? || b.NaN?
    ensures InputError(a, b, x, y) in {0, 1, 2, 3, 4, 5, 9}
  {
    D1machValues();
  }

  /** When both parameters are below eps/1000: w = a/(a+b)... on the scale
      asked for, written so that the logarithm of the smaller ratio is taken
      directly and the larger one by `log1p`. */
  function TinyPair(lib: Libm.Libm, a: Double, b: Double, logP: bool): (Double, Double)
  {
    var s := Add(a, b);
    if logP then
      if Lt(a, b) then (lib.log1p(Div(Neg(a), s)), lib.log(Div(a, s)))
      else (lib.log(Div(b, s)), lib.log1p(Div(Neg(b), s)))
    else (Div(b, s), Div(a, s))
  }

  /** `bratio(a, b, x, y, w, w1, ierr, log_p)`: I_x(a, b) in w and
      1 - I_x(a, b) in w1, or an error code with both set to r_d_0. */
  function BratioSpec(lib: Libm.Libm, lv: Leaves, a: Double, b: Double, x: Double, y: Double, logP: bool)
    : (o: Outcome)
    ensures o.Done? ==> o.ierr in {0, 1, 2, 3, 4, 5, 6, 7, 9, 11, 12}
    ensures InputError(a, b, x, y) == 0 && o.Done? ==> o.ierr in {0, 6, 7, 11, 12}
    ensures InputError(a, b, x, y) != 0 ==> o == Done(RD0(logP), RD0(logP), InputError(a, b, x, y))
    ensures !logP && o.Done? && o.ierr == 0 ==> Complementary(o.w, o.w1)
  {
    var e := InputError(a, b, x, y);
    if e != 0 then Done(RD0(logP), RD0(logP), e)
    else if Eq(x, Fin(0.0)) then
      if Eq(a, Fin(0.0)) then Done(RD0(logP), RD0(logP), 6) else Done(RD0(logP), RD1(logP), 0)
    else if Eq(y, Fin(0.0)) then
      if Eq(b, Fin(0.0)) then Done(RD0(logP), RD0(logP), 7) else Done(RD1(logP), RD0(logP), 0)
    else if Eq(a, Fin(0.0)) then Done(RD1(logP), RD0(logP), 0)
    else if Eq(b, Fin(0.0)) then Done(RD0(logP), RD1(logP), 0)
    else BratioInteriorSpec(lib, lv, a, b, x, y, logP)
  }

  /** The computing part of `bratio`, for 0 < x, y and a, b > 0. */
  function BratioInteriorSpec(lib: Libm.Libm, lv: Leaves, a: Double, b: Double, x: Double, y: Double,
                              logP: bool): (o: Outcome)
    requires InputError(a, b, x, y) == 0 && !Eq(a, Fin(0.0)) && !Eq(b, Fin(0.0))
    ensures Settled(o, 0, logP)
  {
    var eps := Max(Mul(Fin(2.0), D1mach(3)), Fin(1e-15));
    if Lt(if Lt(a, b) then b else a, Mul(eps, Fin(0.001))) then
      TinyComplementary(lib, a, b);
      var p := TinyPair(lib, a, b, logP); Done(p.0, p.1, 0)
    else if Le(Min(a, b), Fin(1.0)) then LowSpec(lib, lv, a, b, x, y, eps, 0, logP)
    else FinalElseSpec(lib, lv, a, b, x, y, eps, 0, logP)
  }

  /** For positive finite a, b the linear-scale ratios b/(a+b) and a/(a+b)
      are complementary. */
  lemma TinyComplementary(lib: Libm.Libm, a: Double, b: Double)
    requires a.Fin? && b.Fin? && a.v > 0.0 && b.v > 0.0
    ensures Complementary(TinyPair(lib, a, b, false).0, TinyPair(lib, a, b, false).1)
  {
    RatiosSumToOne(a.v, b.v);
    var s := Add(a, b);
    assert TinyPair(lib, a, b, false) == (Div(b, s), Div(a, s));
    assert OneMinus(Div(b, s)) == Div(a, s);
  }

  lemma RatiosSumToOne(a: real, b: real)
    requires a > 0.0 && b > 0.0
    ensures 0.5 - b / (a + b) + 0.5 == a / (a + b)
  {
    var s := a + b;
    assert b / s + a / s == (b + a) / s;
    assert (b + a) / s == s / s == 1.0;
    assert a / s == 1.0 - b / s;
  }

  /** The ratios of the tiny-parameter case (label L230 of `bratio`). */
  method TinyRatios(lib: Libm.Libm, a: Double, b: Double, logP: bool) returns (w: Double, w1: Double)
    ensures (w, w1) == TinyPair(lib, a, b, logP)
  {
    if logP {
      if Lt(a, b) {
        w := lib.log1p(Div(Neg(a), Add(a, b)));
        w1 := lib.log(Div(a, Add(a, b)));
      } else {
        w := lib.log(Div(b, Add(a, b)));
        w1 := lib.log1p(Div(Neg(b), Add(a, b)));
      }
    } else {
      w := Div(b, Add(a, b));
      w1 := Div(a, Add(a, b));
    }
  }

  /** `bratio`.  Its result is the `Outcome`: the final w, w1 and ierr, or
      `Aborted` when `bgrat` panics. */
  method Bratio(lib: Libm.Libm, lv: Leaves, a: Double, b: Double, x: Double, y: Double, logP: bool)
    returns (o: Outcome)
    ensures o == BratioSpec(lib, lv, a, b, x, y, logP)
  {
    var e := InputError(a, b, x, y);
    if e != 0 {
      o := Done(RD0(logP), RD0(logP), e);
    } else {
      o := BratioAtZeroX(lib, lv, a, b, x, y, logP);
    }
  }

  /** x = 0. */
  method BratioAtZeroX(lib: Libm.Libm, lv: Leaves, a: Double, b: Double, x: Double, y: Double, logP: bool)
    returns (o: Outcome)
    requires InputError(a, b, x, y) == 0
    ensures o == BratioSpec(lib, lv, a, b, x, y, logP)
  {
    if Eq(x, Fin(0.0)) {
      o := if Eq(a, Fin(0.0)) then Done(RD0(logP), RD0(logP), 6) else Done(RD0(logP), RD1(logP), 0);
    } else {
      o := BratioAtZeroY(lib, lv, a, b, x, y, logP);
    }
  }

  /** y = 0. */
  method BratioAtZeroY(lib: Libm.Libm, lv: Leaves, a: Double, b: Double, x: Double, y: Double, logP: bool)
    returns (o: Outcome)
    requires InputError(a, b, x, y) == 0 && !Eq(x, Fin(0.0))
    ensures o == BratioSpec(lib, lv, a, b, x, y, logP)
  {
    if Eq(y, Fin(0.0)) {
      o := if Eq(b, Fin(0.0)) then Done(RD0(logP), RD0(logP), 7) else Done(RD1(logP), RD0(logP), 0);
    } else {
      o := BratioAtZeroA(lib, lv, a, b, x, y, logP);
    }
  }

  /** a = 0. */
  method BratioAtZeroA(lib: Libm.Libm, lv: Leaves, a: Double, b: Double, x: Double, y: Double, logP: bool)
    returns (o: Outcome)
    requires InputError(a, b, x, y) == 0 && !Eq(x, Fin(0.0)) && !Eq(y, Fin(0.0))
    ensures o == BratioSpec(lib, lv, a, b, x, y, logP)
  {
    if Eq(a, Fin(0.0)) {
      o := Done(RD1(logP), RD0(logP), 0);
    } else {
      o := BratioAtZeroB(lib, lv, a, b, x, y, logP);
    }
  }

  /** b = 0. */
  method BratioAtZeroB(lib: Libm.Libm, lv: Leaves, a: Double, b: Double, x: Double, y: Double, logP: bool)
    returns (o: Outcome)
    requires InputError(a, b, x, y) == 0 && !Eq(x, Fin(0.0)) && !Eq(y, Fin(0.0)) && !Eq(a, Fin(0.0))
    ensures o == BratioSpec(lib, lv, a, b, x, y, logP)
  {
    if Eq(b, Fin(0.0)) {
      o := Done(RD0(logP), RD1(logP), 0);
    } else {
      o := BratioInterior(lib, lv, a, b, x, y, logP);
    }
  }

  /** eps = max(DBL_EPSILON, 1e-15), then the tiny-parameter case. */
  method BratioInterior(lib: Libm.Libm, lv: Leaves, a: Double, b: Double, x: Double, y: Double, logP: bool)
    returns (o: Outcome)
    requires InputError(a, b, x, y) == 0 && !Eq(a, Fin(0.0)) && !Eq(b, Fin(0.0))
    ensures o == BratioInteriorSpec(lib, lv, a, b, x, y, logP)
  {
    var eps := Max(Mul(Fin(2.0), D1mach(3)), Fin(1e-15));
    var aLtB := Lt(a, b);
    if Lt(if aLtB then b else a, Mul(eps, Fin(0.001))) {
      var w, w1 := TinyRatios(lib, a, b, logP);
      o := Done(w, w1, 0);
    } else {
      o := BratioMain(lib, lv, a, b, x, y, eps, logP);
    }
  }

  /** min(a, b) <= 1, or both above 1. */
  method BratioMain(lib: Libm.Libm, lv: Leaves, a: Double, b: Double, x: Double, y: Double, eps: Double,
                    logP: bool) returns (o: Outcome)
    requires InputError(a, b, x, y) == 0 && !Eq(a, Fin(0.0)) && !Eq(b, Fin(0.0))
    requires eps == Max(Mul(Fin(2.0), D1mach(3)), Fin(1e-15))
    requires !Lt(if Lt(a, b) then b else a, Mul(eps, Fin(0.001)))
    ensures o == BratioInteriorSpec(lib, lv, a, b, x, y, logP)
  {
    if Le(Min(a, b), Fin(1.0)) {
      o := BratioLow(lib, lv, a, b, x, y, eps, 0, logP);
    } else {
      o := BratioFinalElse(lib, lv, a, b, x, y, eps, 0, logP);
    }
  }

  /** The boundary cases on admissible arguments: I_0(a, b) = 0 for a > 0,
      I_x(a, b) = 1 at y = 0 for b > 0, the point mass at 0 when a = 0 and at
      1 when b = 0, and the errors 6 and 7 for the undefined 0/0 cases. */
  lemma BratioBoundary(lib: Libm.Libm, lv: Leaves, a: Double, b: Double, x: Double, y: Double, logP: bool)
    requires Admissible(a, b, x, y)
    ensures var o := BratioSpec(lib, lv, a, b, x, y, logP);
      && (x == Fin(0.0) && a != Fin(0.0) ==> o == Done(RD0(logP), RD1(logP), 0))
      && (y == Fin(0.0) && b != Fin(0.0) ==> o == Done(RD1(logP), RD0(logP), 0))
      && (a == Fin(0.0) && x != Fin(0.0) ==> o == Done(RD1(logP), RD0(logP), 0))
      && (b == Fin(0.0) && y != Fin(0.0) ==> o == Done(RD0(logP), RD1(logP), 0))
      && (x == Fin(0.0) && a == Fin(0.0) ==> o.ierr == 6)
      && (y == Fin(0.0) && b == Fin(0.0) ==> o.ierr == 7)
  {
    InputErrorCodes(a, b, x, y);
    D1machValues();
    if x == Fin(0.0) {
      assert y != Fin(0.0);
    } else if y == Fin(0.0) {
    } else if a == Fin(0.0) {
    } else if b == Fin(0.0) {
    }
  }

  /** When both parameters are below 1e-18 the result does not depend on the
      interior point x, and on the linear scale it is (b/(a+b), a/(a+b)). */
  lemma BratioTiny(lib: Libm.Libm, lv: Leaves, a: real, b: real, x: real, y: real, x2: real, y2: real,
                   logP: bool)
    requires 0.0 < a < 1e-18 && 0.0 < b < 1e-18
    requires Admissible(Fin(a), Fin(b), Fin(x), Fin(y)) && Admissible(Fin(a), Fin(b), Fin(x2), Fin(y2))
    requires x != 0.0 && y != 0.0 && x2 != 0.0 && y2 != 0.0
    ensures BratioSpec(lib, lv, Fin(a), Fin(b), Fin(x), Fin(y), logP) ==
            BratioSpec(lib, lv, Fin(a), Fin(b), Fin(x2), Fin(y2), logP)
    ensures !logP ==>
      BratioSpec(lib, lv, Fin(a), Fin(b), Fin(x), Fin(y), logP) == Done(Fin(b / (a + b)), Fin(a / (a + b)), 0)
  {
    BratioTinyAt(lib, lv, a, b, x, y, logP);
    BratioTinyAt(lib, lv, a, b, x2, y2, logP);
    TinyLinear(lib, a, b);
  }

  /** `BratioTiny` at one interior point: the tiny-parameter pair. */
  lemma BratioTinyAt(lib: Libm.Libm, lv: Leaves, a: real, b: real, x: real, y: real, logP: bool)
    requires 0.0 < a < 1e-18 && 0.0 < b < 1e-18
    requires Admissible(Fin(a), Fin(b), Fin(x), Fin(y)) && x != 0.0 && y != 0.0
    ensures var p := TinyPair(lib, Fin(a), Fin(b), logP);
      BratioSpec(lib, lv, Fin(a), Fin(b), Fin(x), Fin(y), logP) == Done(p.0, p.1, 0)
  {
    InputErrorCodes(Fin(a), Fin(b), Fin(x), Fin(y));
    D1machValues();
    var eps := Max(Mul(Fin(2.0), D1mach(3)), Fin(1e-15));
    assert eps == Fin(1e-15);
    assert Lt(if Lt(Fin(a), Fin(b)) then Fin(b) else Fin(a), Mul(eps, Fin(0.001)));
  }

  /** The linear-scale tiny-parameter pair as reals. */
  lemma TinyLinear(lib: Libm.Libm, a: real, b: real)
    requires a > 0.0 && b > 0.0
    ensures TinyPair(lib, Fin(a), Fin(b), false) == (Fin(b / (a + b)), Fin(a / (a + b)))
  {
    var s := a + b;
    assert s > 0.0;
    assert Add(Fin(a), Fin(b)) == Fin(s);
    assert Div(Fin(b), Fin(s)) == Fin(b / s);
    assert Div(Fin(a), Fin(s)) == Fin(a / s);
  }
}
