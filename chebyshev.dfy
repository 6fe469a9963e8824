/** The Chebyshev helpers of src/chebyshev.rs (after W. Fullerton's `initds`
    and `dcsevl`): choosing how many terms of an orthogonal series are needed
    for a given error, and evaluating an n-term Chebyshev series by the
    Clenshaw recurrence.  Coefficients are exact reals (finite doubles); the
    argument x and the tolerance eta are doubles, so NaN reaches the range and
    tolerance tests. */
module Chebyshev {
  import opened Ieee
  import opened Opt

  function AbsR(r: real): real
  {
    if r < 0.0 then -r else r
  }

  /** Sum of |dos[j]| for j >= i: the truncation error bound when the terms
      from i on are dropped. */
  function SuffixSum(dos: seq<real>, i: nat): real
    requires i <= |dos|
    decreases |dos| - i
  {
    if i == |dos| then 0.0 else AbsR(dos[i]) + SuffixSum(dos, i + 1)
  }

  lemma {:induction false} SuffixSumMonotone(dos: seq<real>, i: nat, j: nat)
    requires i <= j <= |dos|
    ensures SuffixSum(dos, i) >= SuffixSum(dos, j) >= 0.0
    decreases j - i
  {
    if i < j {
      SuffixSumMonotone(dos, i + 1, j);
    } else {
      SuffixSumNonneg(dos, j);
    }
  }

  lemma {:induction false} SuffixSumNonneg(dos: seq<real>, i: nat)
    requires i <= |dos|
    ensures SuffixSum(dos, i) >= 0.0
    decreases |dos| - i
  {
    if i < |dos| {
      SuffixSumNonneg(dos, i + 1);
    }
  }

  /** `chebyshev_init`: None for an empty series; otherwise the largest index
      i whose suffix sum exceeds eta (so the terms after i are within eta),
      or 0 when no suffix sum does.  Because suffix sums only grow towards the
      front, every index up to a non-zero result also exceeds eta, and a
      negative eta selects the last index. */
  method ChebyshevInit(dos: seq<real>, eta: Double) returns (r: Option<nat>)
    ensures dos == [] <==> r == None
    ensures r.Some? ==> r.value < |dos|
    ensures r.Some? ==> forall j :: r.value < j < |dos| ==> !Gt(Fin(SuffixSum(dos, j)), eta)
    ensures r.Some? && r.value > 0 ==> forall j :: 0 <= j <= r.value ==> Gt(Fin(SuffixSum(dos, j)), eta)
    ensures dos != [] && Lt(eta, Fin(0.0)) ==> r == Some(|dos| - 1)
  {
    if |dos| == 0 {
      return None;
    }
    var err := 0.0;
    var i := |dos|;
    while i > 0
      invariant 0 <= i <= |dos|
      invariant err == SuffixSum(dos, i) && err >= 0.0
      invariant Lt(eta, Fin(0.0)) ==> i == |dos|
      invariant forall j :: i <= j < |dos| ==> !Gt(Fin(SuffixSum(dos, j)), eta)
    {
      i := i - 1;
      err := err + AbsR(dos[i]);
      if Gt(Fin(err), eta) {
        forall j | 0 <= j <= i
          ensures Gt(Fin(SuffixSum(dos, j)), eta)
        {
          SuffixSumMonotone(dos, j, i);
        }
        return Some(i);
      }
    }
    return Some(0);
  }

  /** The Chebyshev polynomial of the first kind T_k. */
  function T(k: nat, x: real): real
  {
    if k == 0 then 1.0 else if k == 1 then x else 2.0 * x * T(k - 1, x) - T(k - 2, x)
  }

  /** k |-> T_k(x), extended by T_{-1} = T_1 = x so that the three-term
      recurrence T_{k+1} = 2x T_k - T_{k-1} also holds at k = 0. */
  function ChebT(x: real): int -> real
  {
    (k: int) => if k < 0 then x else T(k, x)
  }

  /** The three-term recurrence of t at index k. */
  predicate RecurrenceAt(t: int -> real, x: real, k: nat)
  {
    t(k + 1) == 2.0 * x * t(k) - t(k - 1)
  }

  /** t is k |-> T_k(x) (with T_{-1} = x): the initial values and the
      recurrence determine it on every index from -1 up. */
  ghost predicate IsChebyshev(t: int -> real, x: real)
  {
    t(-1) == x && t(0) == 1.0 && forall k: nat :: RecurrenceAt(t, x, k)
  }

  lemma ChebTIsChebyshev(x: real) returns (t: int -> real)
    ensures t == ChebT(x) && IsChebyshev(t, x)
  {
    t := ChebT(x);
    forall k: nat
      ensures RecurrenceAt(t, x, k)
    {
    }
  }

  lemma {:induction false} ChebyshevUnique(t: int -> real, u: int -> real, x: real, k: nat)
    requires IsChebyshev(t, x) && IsChebyshev(u, x)
    ensures t(k) == u(k) && t(k - 1) == u(k - 1)
  {
    if k > 0 {
      ChebyshevUnique(t, u, x, k - 1);
      assert RecurrenceAt(t, x, k - 1) && RecurrenceAt(u, x, k - 1);
    }
  }

  lemma {:induction false} SeriesUnique(c: seq<real>, t: int -> real, u: int -> real, x: real, k: nat)
    requires k <= |c|
    requires IsChebyshev(t, x) && IsChebyshev(u, x)
    ensures Series(c, t, k) == Series(c, u, k)
    decreases |c| - k
  {
    if k < |c| {
      ChebyshevUnique(t, u, x, k);
      SeriesUnique(c, t, u, x, k + 1);
    }
  }

  /** Sum of c[j] * t(j) for j >= k. */
  function Series(c: seq<real>, t: int -> real, k: nat): real
    requires k <= |c|
    decreases |c| - k
  {
    if k == |c| then 0.0 else c[k] * t(k) + Series(c, t, k + 1)
  }

  /** The n-term Chebyshev series in the convention of `dcsevl`: the leading
      coefficient is halved, c[0]/2 + sum of c[k] T_k(x) for 1 <= k < n. */
  function ChebyshevSeries(c: seq<real>, x: real): real
    requires |c| >= 1
  {
    Series(c, ChebT(x), 0) - c[0] / 2.0
  }

  /** Some sequence obeying the Chebyshev recurrence at x, with nothing else
      known about it: the Clenshaw loop is proved for any such sequence. */
  lemma ChebyshevValues(x: real) returns (t: int -> real)
    ensures IsChebyshev(t, x)
  {
    t := ChebTIsChebyshev(x);
  }

  lemma ClenshawAlgebra(s0: real, s1: real, ak: real, x: real, t: real, tp: real, tn: real, b0: real, b1: real, b2: real)
    requires s0 == ak * t + s1 && s1 == b1 * tn - b2 * t
    requires tn == 2.0 * x * t - tp
    requires b0 == x * 2.0 * b1 - b2 + ak
    ensures s0 == b0 * t - b1 * tp
  {
  }

  /** One step of the Clenshaw recurrence b_k = c[k] + 2x b_{k+1} - b_{k+2}
      keeps the suffix identity Series(c, t, k) == b_k t(k) - b_{k+1} t(k-1)
      for any t obeying the three-term recurrence at k. */
  lemma ClenshawStep(c: seq<real>, x: real, t: int -> real, i: nat, b0: real, b1: real, b2: real)
    requires i < |c|
    requires t(i + 1) == 2.0 * x * t(i) - t(i - 1)
    requires Series(c, t, i + 1) == b1 * t(i + 1) - b2 * t(i)
    requires b0 == x * 2.0 * b1 - b2 + c[i]
    ensures Series(c, t, i) == b0 * t(i) - b1 * t(i - 1)
  {
    ClenshawAlgebra(Series(c, t, i), Series(c, t, i + 1), c[i], x, t(i), t(i - 1), t(i + 1), b0, b1, b2);
  }

  lemma ClenshawFinish(c0: real, x: real, b0: real, b1: real, b2: real, s: real)
    requires s == b0 * 1.0 - b1 * x
    requires b0 == x * 2.0 * b1 - b2 + c0
    ensures (b0 - b2) * 0.5 == s - c0 / 2.0
  {
  }

  /** `chebyshev_eval`: NaN for an invalid term count or an argument outside
      [-1.1, 1.1] (NaN included); otherwise the value of the series made of
      the first n coefficients, and nothing beyond them is read. */
  method ChebyshevEval(x: Double, a: seq<real>, n: nat) returns (r: Double)
    ensures n < 1 || n > |a| || n > 1000 ==> r == NaN
    ensures !(Le(Fin(-1.1), x) && Le(x, Fin(1.1))) ==> r == NaN
    ensures 1 <= n <= |a| && n <= 1000 && x.Fin? && -1.1 <= x.v <= 1.1 ==>
      r == Fin(ChebyshevSeries(a[..n], x.v))
  {
    if n < 1 || n > |a| || n > 1000 {
      return NaN;
    }
    if !(Le(Fin(-1.1), x) && Le(x, Fin(1.1))) {
      return NaN;
    }
    var v := ClenshawSum(x.v, a, n);
    return Fin(v);
  }

  /** The backward recurrence of `chebyshev_eval` over the first n
      coefficients, at a finite point t. */
  method ClenshawSum(t: real, a: seq<real>, n: nat) returns (v: real)
    requires 1 <= n <= |a|
    ensures v == ChebyshevSeries(a[..n], t)
  {
    var twox := t * 2.0;
    ghost var c := a[..n];
    ghost var tf := ChebyshevValues(t);
    var b2, b1, b0 := 0.0, 0.0, 0.0;
    var i := n;
    while i > 0
      invariant 0 <= i <= n
      invariant Series(c, tf, i) == b0 * tf(i) - b1 * tf(i - 1)
      invariant i < n ==> b0 == twox * b1 - b2 + c[i]
    {
      i := i - 1;
      var coeff := a[i];
      assert RecurrenceAt(tf, t, i);
      ClenshawStep(c, t, tf, i, twox * b0 - b1 + coeff, b0, b1);
      b2 := b1;
      b1 := b0;
      b0 := twox * b1 - b2 + coeff;
    }
    ClenshawFinish(c[0], t, b0, b1, b2, Series(c, tf, 0));
    var u := ChebTIsChebyshev(t);
    SeriesUnique(c, tf, u, t, 0);
    v := (b0 - b2) * 0.5;
  }

  lemma {:induction false} TAtOne(k: nat)
    ensures T(k, 1.0) == 1.0
  {
    if k >= 2 {
      TAtOne(k - 1);
      TAtOne(k - 2);
    }
  }

  function Sum(c: seq<real>, k: nat): real
    requires k <= |c|
    decreases |c| - k
  {
    if k == |c| then 0.0 else c[k] + Sum(c, k + 1)
  }

  /** At x = 1 every T_k is 1, so the series is the plain coefficient sum
      (with the leading coefficient halved in `ChebyshevSeries`). */
  lemma {:induction false} SeriesAtOne(c: seq<real>, k: nat)
    requires k <= |c|
    ensures Series(c, ChebT(1.0), k) == Sum(c, k)
    decreases |c| - k
  {
    if k < |c| {
      TAtOne(k);
      SeriesAtOne(c, k + 1);
    }
  }
}
