/** The beta distribution function of src/pbeta.rs: `pbeta` checks its
    arguments, `pbeta_raw` settles the degenerate cases (x outside (0, 1),
    zero or infinite parameters) and hands the rest to `bratio`, returning
    the lower or the upper tail of the pair it computes.

    The result is an `Option`: `None` stands for the panic that `bgrat` can
    raise inside `bratio`, `Some(p)` for a returned probability p. */
module Pbeta {
  import opened Ieee
  import opened Opt
  import Libm
  import Dpq
  import Toms708

  /** The parameters for which `pbeta_raw` does not call `bratio` on
      x in (0, 1): a zero or a non-finite a or b. */
  predicate Degenerate(a: Double, b: Double)
  {
    Eq(a, Fin(0.0)) || Eq(b, Fin(0.0)) || !IsFinite(a) || !IsFinite(b)
  }

  /** The value `pbeta_raw` returns for degenerate parameters, below x = 1:
      the point masses at 0 and 1 (half each when a = b = 0), or at 1/2 when
      a = b = Inf. */
  function DegenerateValue(x: Double, a: Double, b: Double, lowerTail: bool, logP: bool): Double
  {
    if Eq(a, Fin(0.0)) && Eq(b, Fin(0.0)) then (if logP then Fin(-Toms708.MLn2) else Fin(0.5))
    else if Eq(a, Fin(0.0)) || Eq(Div(a, b), Fin(0.0)) then Dpq.RDt1(lowerTail, logP)
    else if Eq(b, Fin(0.0)) || Eq(Div(b, a), Fin(0.0)) then Dpq.RDt0(lowerTail, logP)
    else if Lt(x, Fin(0.5)) then Dpq.RDt0(lowerTail, logP)
    else Dpq.RDt1(lowerTail, logP)
  }

  /** The cases `pbeta_raw` decides before `bratio`, in its order: x >= 1,
      degenerate parameters, x <= 0.  None when none of them applies. */
  function PbetaEdge(x: Double, a: Double, b: Double, lowerTail: bool, logP: bool): Option<Double>
  {
    if Ge(x, Fin(1.0)) then Some(Dpq.RDt1(lowerTail, logP))
    else if Degenerate(a, b) then Some(DegenerateValue(x, a, b, lowerTail, logP))
    else if Le(x, Fin(0.0)) then Some(Dpq.RDt0(lowerTail, logP))
    else None
  }

  /** The `bratio` call of `pbeta_raw`, with y = 0.5 - x + 0.5. */
  function BratioCall(lib: Libm.Libm, lv: Toms708.Leaves, x: Double, a: Double, b: Double, logP: bool)
    : Toms708.Outcome
  {
    Toms708.BratioSpec(lib, lv, a, b, x, Toms708.OneMinus(x), logP)
  }

  /** The tail `pbeta_raw` returns from the pair of `bratio`: w for the lower
      tail, w1 (`wc`) for the upper one. */
  function TailOf(o: Toms708.Outcome, lowerTail: bool): Option<Double>
  {
    if o.Aborted? then None else Some(if lowerTail then o.w else o.w1)
  }

  /** `pbeta_raw` when its `bratio` call, if it is made, has the outcome o. */
  function RawWith(o: Toms708.Outcome, x: Double, a: Double, b: Double, lowerTail: bool, logP: bool)
    : Option<Double>
  {
    var e := PbetaEdge(x, a, b, lowerTail, logP);
    if e.Some? then e else TailOf(o, lowerTail)
  }

  /** `pbeta` when the `bratio` call, if it is made, has the outcome o. */
  function PbetaWith(o: Toms708.Outcome, x: Double, a: Double, b: Double, lowerTail: bool, logP: bool)
    : Option<Double>
  {
    if x.NaN? || a.NaN? || b.NaN? then Some(Add(Add(x, a), b))
    else if Lt(a, Fin(0.0)) || Lt(b, Fin(0.0)) then Some(NaN)
    else RawWith(o, x, a, b, lowerTail, logP)
  }

  /** `pbeta_raw(x, a, b, lower_tail, log_p)`. */
  function PbetaRawSpec(lib: Libm.Libm, lv: Toms708.Leaves, x: Double, a: Double, b: Double,
                        lowerTail: bool, logP: bool): Option<Double>
  {
    RawWith(BratioCall(lib, lv, x, a, b, logP), x, a, b, lowerTail, logP)
  }

  /** `pbeta(x, a, b, lower_tail, log_p)`. */
  function PbetaSpec(lib: Libm.Libm, lv: Toms708.Leaves, x: Double, a: Double, b: Double,
                     lowerTail: bool, logP: bool): Option<Double>
  {
    PbetaWith(BratioCall(lib, lv, x, a, b, logP), x, a, b, lowerTail, logP)
  }

  /** `pbeta`. */
  method Pbeta(lib: Libm.Libm, lv: Toms708.Leaves, x: Double, a: Double, b: Double,
               lowerTail: bool, logP: bool) returns (r: Option<Double>)
    ensures r == PbetaSpec(lib, lv, x, a, b, lowerTail, logP)
  {
    if x.NaN? || a.NaN? || b.NaN? {
      r := Some(Add(Add(x, a), b));
    } else {
      r := PbetaChecked(lib, lv, x, a, b, lowerTail, logP);
    }
  }

  /** The negative-parameter check of `pbeta`, then `pbeta_raw`. */
  method PbetaChecked(lib: Libm.Libm, lv: Toms708.Leaves, x: Double, a: Double, b: Double,
                      lowerTail: bool, logP: bool) returns (r: Option<Double>)
    requires !(x.NaN? || a.NaN? || b.NaN?)
    ensures r == PbetaSpec(lib, lv, x, a, b, lowerTail, logP)
  {
    if Lt(a, Fin(0.0)) || Lt(b, Fin(0.0)) {
      r := Some(NaN);
    } else {
      r := PbetaRaw(lib, lv, x, a, b, lowerTail, logP);
    }
  }

  /** `pbeta_raw`: x >= 1 first. */
  method PbetaRaw(lib: Libm.Libm, lv: Toms708.Leaves, x: Double, a: Double, b: Double,
                  lowerTail: bool, logP: bool) returns (r: Option<Double>)
    ensures r == PbetaRawSpec(lib, lv, x, a, b, lowerTail, logP)
  {
    if Ge(x, Fin(1.0)) {
      r := Some(Dpq.RDt1(lowerTail, logP));
    } else {
      r := PbetaRawBelowOne(lib, lv, x, a, b, lowerTail, logP);
    }
  }

  /** The degenerate parameters, below x = 1. */
  method PbetaRawBelowOne(lib: Libm.Libm, lv: Toms708.Leaves, x: Double, a: Double, b: Double,
                          lowerTail: bool, logP: bool) returns (r: Option<Double>)
    requires !Ge(x, Fin(1.0))
    ensures r == PbetaRawSpec(lib, lv, x, a, b, lowerTail, logP)
  {
    if Degenerate(a, b) {
      r := Some(DegenerateValue(x, a, b, lowerTail, logP));
    } else {
      r := PbetaRawProper(lib, lv, x, a, b, lowerTail, logP);
    }
  }

  /** Finite positive parameters: x <= 0, or the `bratio` call. */
  method PbetaRawProper(lib: Libm.Libm, lv: Toms708.Leaves, x: Double, a: Double, b: Double,
                        lowerTail: bool, logP: bool) returns (r: Option<Double>)
    requires !Ge(x, Fin(1.0)) && !Degenerate(a, b)
    ensures r == PbetaRawSpec(lib, lv, x, a, b, lowerTail, logP)
  {
    if Le(x, Fin(0.0)) {
      r := Some(Dpq.RDt0(lowerTail, logP));
    } else {
      var x1 := Toms708.OneMinus(x);
      var o := Toms708.Bratio(lib, lv, a, b, x, x1, logP);
      r := if o.Aborted? then None else Some(if lowerTail then o.w else o.w1);
    }
  }

  // ---------------------------------------------------------------------
  // Properties
  //
  // The lemmas about the cases decided before `bratio` are stated for an
  // arbitrary outcome o of the `bratio` call: they hold whatever `bratio`
  // would compute, that is, `bratio` is not consulted.

  /** A NaN argument gives NaN: x + a + b propagates it. */
  lemma PbetaNaN(o: Toms708.Outcome, x: Double, a: Double, b: Double, lowerTail: bool, logP: bool)
    requires x.NaN? || a.NaN? || b.NaN?
    ensures PbetaWith(o, x, a, b, lowerTail, logP) == Some(NaN)
  {
  }

  /** A negative parameter (no NaN) gives NaN. */
  lemma PbetaNegativeParameter(o: Toms708.Outcome, x: Double, a: Double, b: Double,
                               lowerTail: bool, logP: bool)
    requires !x.NaN? && !a.NaN? && !b.NaN?
    requires Lt(a, Fin(0.0)) || Lt(b, Fin(0.0))
    ensures PbetaWith(o, x, a, b, lowerTail, logP) == Some(NaN)
  {
  }

  /** Accepted parameters: non-negative, possibly +Inf. */
  predicate Accepted(x: Double, a: Double, b: Double)
  {
    !x.NaN? && Toms708.NonNegParam(a) && Toms708.NonNegParam(b)
  }

  /** For x >= 1 the result is the top of the tail, whatever the (accepted)
      parameters are, even a = b = 0. */
  lemma PbetaAtLeastOne(o: Toms708.Outcome, x: Double, a: Double, b: Double, lowerTail: bool, logP: bool)
    requires Accepted(x, a, b)
    requires x.PosInf? || (x.Fin? && x.v >= 1.0)
    ensures PbetaWith(o, x, a, b, lowerTail, logP) == Some(Dpq.RDt1(lowerTail, logP))
  {
  }

  /** a = b = 0 puts mass 1/2 at 0 and at 1: below x = 1 the result is 1/2
      (-ln 2 on the log scale) in either tail, also at and below x = 0. */
  lemma PbetaBothZero(o: Toms708.Outcome, x: Double, lowerTail: bool, logP: bool)
    requires x.NegInf? || (x.Fin? && x.v < 1.0)
    ensures PbetaWith(o, x, Fin(0.0), Fin(0.0), lowerTail, logP) ==
      Some(if logP then Fin(-Toms708.MLn2) else Fin(0.5))
  {
  }

  /** The other degenerate parameters below x = 1: the mass sits at 0 when a
      = 0 or b = Inf with a finite (so the result is the top of the tail, at
      every x < 1), at 1 when b = 0 or a = Inf with b finite (the bottom of
      the tail), and at 1/2 when a = b = Inf. */
  lemma PbetaPointMass(o: Toms708.Outcome, x: Double, a: Double, b: Double, lowerTail: bool, logP: bool)
    requires Accepted(x, a, b) && !(a == Fin(0.0) && b == Fin(0.0))
    requires x.NegInf? || (x.Fin? && x.v < 1.0)
    ensures var r := PbetaWith(o, x, a, b, lowerTail, logP);
      && (a == Fin(0.0) || (a.Fin? && b.PosInf?) ==> r == Some(Dpq.RDt1(lowerTail, logP)))
      && (b == Fin(0.0) || (b.Fin? && a.PosInf?) ==> r == Some(Dpq.RDt0(lowerTail, logP)))
      && (a.PosInf? && b.PosInf? ==>
            r == Some(if Lt(x, Fin(0.5)) then Dpq.RDt0(lowerTail, logP) else Dpq.RDt1(lowerTail, logP)))
  {
  }

  /** Finite positive parameters, the open unit interval for x. */
  predicate Interior(x: Double, a: Double, b: Double)
  {
    a.Fin? && b.Fin? && a.v > 0.0 && b.v > 0.0 && x.Fin? && 0.0 < x.v < 1.0
  }

  /** With finite positive parameters, x <= 0 gives the bottom of the tail. */
  lemma PbetaNonPositive(o: Toms708.Outcome, x: Double, a: Double, b: Double, lowerTail: bool, logP: bool)
    requires a.Fin? && b.Fin? && a.v > 0.0 && b.v > 0.0
    requires x.NegInf? || (x.Fin? && x.v <= 0.0)
    ensures PbetaWith(o, x, a, b, lowerTail, logP) == Some(Dpq.RDt0(lowerTail, logP))
  {
  }

  /** Among accepted arguments, exactly the interior ones reach `bratio`:
      there the result is the tail of the outcome, elsewhere an edge value. */
  lemma PbetaConsultsBratio(o: Toms708.Outcome, x: Double, a: Double, b: Double, lowerTail: bool, logP: bool)
    requires Accepted(x, a, b)
    ensures Interior(x, a, b) <==> PbetaEdge(x, a, b, lowerTail, logP).None?
    ensures Interior(x, a, b) ==> PbetaWith(o, x, a, b, lowerTail, logP) == TailOf(o, lowerTail)
    ensures !Interior(x, a, b) ==> PbetaWith(o, x, a, b, lowerTail, logP) == PbetaEdge(x, a, b, lowerTail, logP)
  {
  }

  /** The interior arguments pass all of the argument checks of `bratio`
      with y = 1 - x, so it either panics or ends with status 0, 11 or 12,
      and the result is its w in the lower tail and its w1 in the upper
      one. */
  lemma PbetaInterior(lib: Libm.Libm, lv: Toms708.Leaves, x: Double, a: Double, b: Double,
                      lowerTail: bool, logP: bool)
    requires Interior(x, a, b)
    ensures var o := BratioCall(lib, lv, x, a, b, logP);
      && PbetaSpec(lib, lv, x, a, b, lowerTail, logP) == TailOf(o, lowerTail)
      && Toms708.InputError(a, b, x, Toms708.OneMinus(x)) == 0
      && (o.Done? ==> o.ierr in {0, 11, 12})
  {
    PbetaConsultsBratio(BratioCall(lib, lv, x, a, b, logP), x, a, b, lowerTail, logP);
    Toms708.InputErrorCodes(a, b, x, Toms708.OneMinus(x));
    Toms708.D1machValues();
  }

  /** On the linear scale the two tails are complementary (they are 0 and 1,
      or 1/2 and 1/2) in every case decided before `bratio`. */
  lemma PbetaEdgeTails(o: Toms708.Outcome, x: Double, a: Double, b: Double)
    requires Accepted(x, a, b) && !Interior(x, a, b)
    ensures var lo := PbetaWith(o, x, a, b, true, false);
      var up := PbetaWith(o, x, a, b, false, false);
      lo.Some? && up.Some? && Toms708.Complementary(lo.value, up.value)
  {
    EdgeTails(x, a, b);
    PbetaConsultsBratio(o, x, a, b, true, false);
    PbetaConsultsBratio(o, x, a, b, false, false);
  }

  /** `PbetaEdgeTails` on the edge cases alone. */
  lemma EdgeTails(x: Double, a: Double, b: Double)
    requires Accepted(x, a, b) && !Interior(x, a, b)
    ensures PbetaEdge(x, a, b, true, false).Some? && PbetaEdge(x, a, b, false, false).Some?
    ensures Toms708.Complementary(PbetaEdge(x, a, b, true, false).value, PbetaEdge(x, a, b, false, false).value)
  {
    if Ge(x, Fin(1.0)) {
      TailEnds(x, a, b);
    } else if Degenerate(a, b) {
      DegenerateEdge(x, a, b);
    } else {
      assert Le(x, Fin(0.0));
      TailEnds(x, a, b);
    }
  }

  lemma DegenerateEdge(x: Double, a: Double, b: Double)
    requires !Ge(x, Fin(1.0)) && Degenerate(a, b)
    ensures PbetaEdge(x, a, b, true, false) == Some(DegenerateValue(x, a, b, true, false))
    ensures PbetaEdge(x, a, b, false, false) == Some(DegenerateValue(x, a, b, false, false))
    ensures Toms708.Complementary(PbetaEdge(x, a, b, true, false).value, PbetaEdge(x, a, b, false, false).value)
  {
    DegenerateTails(x, a, b);
  }

  lemma TailEnds(x: Double, a: Double, b: Double)
    requires Ge(x, Fin(1.0)) || (!Degenerate(a, b) && Le(x, Fin(0.0)))
    ensures PbetaEdge(x, a, b, true, false).Some? && PbetaEdge(x, a, b, false, false).Some?
    ensures Toms708.Complementary(PbetaEdge(x, a, b, true, false).value, PbetaEdge(x, a, b, false, false).value)
  {
    Toms708.OneMinusValues(Fin(0.0));
  }

  /** Both tails of a degenerate case take the same branch, so they are
      complementary on the linear scale. */
  lemma DegenerateTails(x: Double, a: Double, b: Double)
    ensures Toms708.Complementary(DegenerateValue(x, a, b, true, false), DegenerateValue(x, a, b, false, false))
  {
    if Eq(a, Fin(0.0)) && Eq(b, Fin(0.0)) {
      assert Toms708.OneMinus(Fin(0.5)) == Fin(0.5);
    } else {
      DegenerateSide(x, a, b, true);
      DegenerateSide(x, a, b, false);
      Toms708.OneMinusValues(Fin(0.0));
    }
  }

  /** Where a degenerate case (other than a = b = 0) puts its mass: true
      when `pbeta_raw` returns the top of the tail. */
  predicate TopOfTail(x: Double, a: Double, b: Double)
  {
    Eq(a, Fin(0.0)) || Eq(Div(a, b), Fin(0.0)) ||
    (!(Eq(b, Fin(0.0)) || Eq(Div(b, a), Fin(0.0))) && !Lt(x, Fin(0.5)))
  }

  /** Apart from a = b = 0, the degenerate value is one end of the tail, the
      same end for both orientations. */
  lemma DegenerateSide(x: Double, a: Double, b: Double, lowerTail: bool)
    requires !(Eq(a, Fin(0.0)) && Eq(b, Fin(0.0)))
    ensures DegenerateValue(x, a, b, lowerTail, false) ==
      if TopOfTail(x, a, b) then Dpq.RDt1(lowerTail, false) else Dpq.RDt0(lowerTail, false)
  {
  }

  /** In the interior the two tails are the two halves of one `bratio` pair,
      so on the linear scale they are complementary whenever `bratio` ends
      with status 0. */
  lemma PbetaBratioTails(lib: Libm.Libm, lv: Toms708.Leaves, x: Double, a: Double, b: Double)
    requires Interior(x, a, b)
    ensures var lo := PbetaSpec(lib, lv, x, a, b, true, false);
      var up := PbetaSpec(lib, lv, x, a, b, false, false);
      var o := BratioCall(lib, lv, x, a, b, false);
      o.Done? && o.ierr == 0 ==> lo == Some(o.w) && up == Some(o.w1) && Toms708.Complementary(lo.value, up.value)
  {
    PbetaInterior(lib, lv, x, a, b, true, false);
    PbetaInterior(lib, lv, x, a, b, false, false);
  }

  /** The fixed values for degenerate arguments that R's own regression tests
      assert, whatever `bratio` would compute. */
  lemma PbetaRegressionValues(o: Toms708.Outcome)
    ensures PbetaWith(o, Fin(0.0), Fin(0.0), Fin(3.0), true, false) == Some(Fin(1.0))
    ensures PbetaWith(o, Fin(1.0), Fin(0.1), Fin(0.0), true, false) == Some(Fin(1.0))
    ensures PbetaWith(o, Fin(1.1), Fin(3.0), Fin(0.0), true, false) == Some(Fin(1.0))
    ensures PbetaWith(o, Fin(0.0), Fin(0.0), Fin(0.0), true, false) == Some(Fin(0.5))
    ensures PbetaWith(o, Fin(1.0), Fin(0.0), Fin(0.0), true, false) == Some(Fin(1.0))
  {
  }
}
