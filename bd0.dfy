/** The deviance term bd0(x, M) = x log(x/M) + M - x of src/bd0.rs: Loader's
    `bd0` (a Taylor series near x = M, the direct formula elsewhere) and
    Welinder's `ebd0`, which aims at the same quantity as an unevaluated sum
    yh + yl of an integral high part and a small low part, built with a
    129-row table of logarithms split in four f32 parts.  As written, `ebd0`
    returns d + x (row i - row 0) + M - M fg with d = -x log1pmx((M fg - x)/x).
    Its scale f = floor(1024 / (1/2 + i/256 + 1/2)) lies in [682, 1024], not in
    the [1024, 2048] the table rows are built for, and row 0 is subtracted
    without the factor e.  That sum is therefore not x log(x/M) + M - x
    (`ScaleFRange`, `ScaledQuotientBelow`, `Ebd0AtOneTwo`). */
module Bd0 {
  import opened Ieee
  import opened Opt
  import Libm

  function AbsR(a: real): real
  {
    if a < 0.0 then -a else a
  }

  // ---------------------------------------------------------------- bd0

  /** The Taylor state (s, ej) after j terms, from s0 = (x - M) v and
      e0 = 2 x v with v = (x - M)/(x + M) and v2 = v^2: each term multiplies
      ej by v2 and adds ej/(2j + 1) to s.  `round` is the rounding of that
      addition; the loop stops when it leaves s unchanged. */
  function Taylor(s0: real, e0: real, v2: real, round: real -> real, j: nat): (real, real)
  {
    if j == 0 then (s0, e0)
    else
      var prev := Taylor(s0, e0, v2, round, j - 1);
      var e := Scale(prev.1, v2);
      (round(prev.0 + Term(e, j)), e)
  }

  /** The j-th Taylor term ej/(2j + 1). */
  function Term(e: real, j: nat): real
  {
    e / (2 * j + 1) as real
  }

  /** The product a b, named so that the recurrences above stay linear for
      the solver. */
  function Scale(a: real, b: real): real
  {
    a * b
  }

  /** Addition without rounding. */
  function Exact(a: real): real
  {
    a
  }

  /** The j-th term left the sum unchanged. */
  predicate Stalls(s0: real, e0: real, v2: real, round: real -> real, j: nat)
    requires j >= 1
  {
    Taylor(s0, e0, v2, round, j).0 == Taylor(s0, e0, v2, round, j - 1).0
  }

  /** |x - M| < 0.1 (x + M): the Taylor branch is tried. */
  predicate NearBranch(x: real, np: real)
  {
    AbsR(x - np) < 0.1 * (x + np)
  }

  function V(x: real, np: real): real
    requires NearBranch(x, np)
  {
    (x - np) / (x + np)
  }

  /** The state before the first term: s0 = (x - M) v, e0 = 2 x v, v^2. */
  function Start(x: real, np: real): (real, real, real)
    requires NearBranch(x, np)
  {
    var v := V(x, np);
    ((x - np) * v, 2.0 * x * v, v * v)
  }

  /** x log(x/M) + M - x, evaluated directly. */
  function Direct(lib: Libm.Libm, x: Double, np: Double): Double
  {
    Sub(Add(Mul(x, lib.log(Div(x, np))), np), x)
  }

  /** `bd0`: NaN for a non-finite argument or M = 0.  In the Taylor branch the
      result is the partial sum at the first of the terms 1..999 that leaves
      the sum unchanged (and `terms` is its index); otherwise, and also when
      the Taylor branch is never entered, the direct formula is returned and
      the convergence warning is issued (`warned`).  The early exit on
      |s| < DBL_MIN never fires, because DBL_MIN is negative. */
  method Bd0(lib: Libm.Libm, round: real -> real, x: Double, np: Double)
    returns (r: Double, warned: bool, terms: nat)
    ensures !x.Fin? || !np.Fin? || np.v == 0.0 ==> r == NaN && !warned && terms == 0
    ensures x.Fin? && np.Fin? && np.v != 0.0 && !NearBranch(x.v, np.v) ==>
      r == Direct(lib, x, np) && warned && terms == 0
    ensures x.Fin? && np.Fin? && np.v != 0.0 && NearBranch(x.v, np.v) ==>
      var (s0, e0, v2) := Start(x.v, np.v);
      && (terms == 0 <==> warned)
      && (terms > 0 ==>
            terms <= 999 && Stalls(s0, e0, v2, round, terms) && r == Fin(Taylor(s0, e0, v2, round, terms).0))
      && (forall k :: 1 <= k < terms || (warned && 1 <= k <= 999) ==> !Stalls(s0, e0, v2, round, k))
      && (warned ==> r == Direct(lib, x, np))
  {
    if !x.Fin? || !np.Fin? || np.v == 0.0 {
      return NaN, false, 0;
    }
    if NearBranch(x.v, np.v) {
      var start := Start(x.v, np.v);
      var s := start.0;
      if AbsR(s) < DblMin {
        return Fin(s), false, 0;
      }
      var ej := start.1;
      var v := start.2;
      var sum, k := TaylorSum(s, ej, v, round);
      if k > 0 {
        return Fin(sum), false, k;
      }
    }
    r := Direct(lib, x, np);
    warned, terms := true, 0;
  }

  /** The loop `for j in 1..1000` of `bd0`: the first j whose term leaves the
      sum unchanged, with the sum at that point, or 0 when none of the 999
      terms does. */
  method TaylorSum(s0: real, e0: real, v2: real, round: real -> real) returns (s: real, terms: nat)
    ensures terms <= 999
    ensures terms > 0 ==> Stalls(s0, e0, v2, round, terms) && s == Taylor(s0, e0, v2, round, terms).0
    ensures forall k :: 1 <= k < terms || (terms == 0 && 1 <= k <= 999) ==> !Stalls(s0, e0, v2, round, k)
  {
    s := s0;
    var ej := e0;
    var j := 1;
    while j < 1000
      invariant 1 <= j <= 1000
      invariant s == Taylor(s0, e0, v2, round, j - 1).0 && ej == Taylor(s0, e0, v2, round, j - 1).1
      invariant forall k :: 1 <= k < j ==> !Stalls(s0, e0, v2, round, k)
    {
      ej := ej * v2;
      assert ej == Scale(Taylor(s0, e0, v2, round, j - 1).1, v2);
      var s' := s;
      s := s + ej / (2 * j + 1) as real;
      assert s == s' + Term(ej, j);
      s := round(s);
      assert s == Taylor(s0, e0, v2, round, j).0 && ej == Taylor(s0, e0, v2, round, j).1;
      if s == s' {
        assert Stalls(s0, e0, v2, round, j);
        return s, j;
      }
      j := j + 1;
    }
    terms := 0;
  }

  lemma {:induction false} TaylorNonzero(s0: real, e0: real, v2: real, j: nat)
    requires e0 != 0.0 && v2 != 0.0
    ensures Taylor(s0, e0, v2, Exact, j).1 != 0.0
  {
    if j > 0 {
      TaylorNonzero(s0, e0, v2, j - 1);
      NonzeroProduct(Taylor(s0, e0, v2, Exact, j - 1).1, v2);
    }
  }

  /** In exact arithmetic the series never stops early when x differs from M
      and from 0: every term is non-zero, so all 999 terms are taken and the
      direct formula is returned. */
  lemma ExactSeriesNeverStalls(x: real, np: real, k: nat)
    requires NearBranch(x, np) && x != np && x != 0.0 && 1 <= k
    ensures var (s0, e0, v2) := Start(x, np);
      !Stalls(s0, e0, v2, Exact, k)
  {
    var (s0, e0, v2) := Start(x, np);
    StartNonzero(x, np);
    TaylorNonzero(s0, e0, v2, k);
    ExactStall(s0, e0, v2, k);
  }

  lemma StartNonzero(x: real, np: real)
    requires NearBranch(x, np) && x != np && x != 0.0
    ensures Start(x, np).1 != 0.0 && Start(x, np).2 != 0.0
  {
    var v := V(x, np);
    assert x + np > 0.0;
    assert v != 0.0;
    NonzeroProduct(2.0 * x, v);
    NonzeroProduct(v, v);
  }

  lemma NonzeroProduct(a: real, b: real)
    requires a != 0.0 && b != 0.0
    ensures a * b != 0.0
  {
  }

  /** Without rounding a term leaves the sum unchanged only if it is zero. */
  lemma ExactStall(s0: real, e0: real, v2: real, k: nat)
    requires k >= 1
    ensures Stalls(s0, e0, v2, Exact, k) ==> Taylor(s0, e0, v2, Exact, k).1 == 0.0
  {
    var prev := Taylor(s0, e0, v2, Exact, k - 1);
    var e := Scale(prev.1, v2);
    assert Taylor(s0, e0, v2, Exact, k) == (prev.0 + Term(e, k), e);
    ZeroQuotient(e, (2 * k + 1) as real);
  }

  lemma ZeroQuotient(e: real, d: real)
    requires d > 0.0
    ensures e / d == 0.0 ==> e == 0.0
  {
  }

  /** At x = M the first term is zero, so the series stops there with 0. */
  lemma ExactSeriesAtMean(np: real)
    requires np > 0.0
    ensures NearBranch(np, np) && V(np, np) == 0.0
    ensures Stalls(0.0, 0.0, 0.0, Exact, 1) && Taylor(0.0, 0.0, 0.0, Exact, 1).0 == 0.0
  {
  }

  // ---------------------------------------------------------------- ebd0

  /** One row of BD0_SCALE: a logarithm split into four f32 parts. */
  datatype Row = Row(c0: real, c1: real, c2: real, c3: real)

  function Column(row: Row, j: nat): real
    requires j < 4
  {
    if j == 0 then row.c0 else if j == 1 then row.c1 else if j == 2 then row.c2 else row.c3
  }

  /** BD0_SCALE, 129 rows; row 0 is log 2 (0.6931472 + ...) and row 128 is
      log 1 = 0. */
  const Bd0Scale: seq<Row> := [
      Row(0.6931472, -1.9046542e-9, -8.783184e-17, 3.0618407e-24),
      Row(0.68530405, -4.2578264e-8, -1.1723105e-15, 6.2033926e-23),
      Row(0.6773988, 2.274189e-8, 1.441192e-15, 7.0463845e-23),
      Row(0.6699306, -4.8293856e-8, -8.6647955e-16, 7.049558e-24),
      Row(0.6624061, -4.7916025e-8, -2.1615082e-15, 7.0929684e-23),
      Row(0.6548245, 6.2377152e-9, 1.18067e-16, 6.6603235e-25),
      Row(0.6471851, -4.220867e-8, -1.3817589e-15, -1.11599324e-23),
      Row(0.6400019, -4.97917e-8, 4.887014e-16, 1.6847466e-23),
      Row(0.6327667, -5.4061772e-8, -2.7224545e-15, -2.907078e-23),
      Row(0.62495613, 3.2859354e-8, 1.201673e-16, -8.668233e-24),
      Row(0.61813736, -6.4061895e-11, 3.550581e-18, -3.6236794e-25),
      Row(0.6107416, 4.2298538e-8, 1.5481433e-15, -5.446353e-23),
      Row(0.6032908, 5.5158175e-8, 2.1193637e-15, 1.2471098e-22),
      Row(0.5963222, 3.2813539e-9, -1.403347e-16, 5.544062e-24),
      Row(0.58930457, 4.3079986e-8, -3.2446652e-15, -2.5697824e-23),
      Row(0.5822375, -3.9830674e-8, 2.9387906e-15, 1.612443e-22),
      Row(0.57512, 2.242384e-9, -2.2045164e-17, 4.0785438e-25),
      Row(0.5685047, 4.4228706e-8, 2.7879957e-16, -9.741709e-24),
      Row(0.5618454, 2.1471614e-8, 1.3374919e-15, -2.3269223e-23),
      Row(0.5545808, 4.577835e-9, 2.633146e-16, 2.0709959e-23),
      Row(0.54782784, -7.668e-9, 6.1990953e-16, 6.341979e-24),
      Row(0.541029, -3.730232e-8, -3.3801781e-15, 1.4469198e-22),
      Row(0.5347557, 4.382892e-8, -8.601821e-16, -8.7759506e-24),
      Row(0.5278671, 1.0839715e-8, -4.480281e-16, 3.8840996e-23),
      Row(0.5215105, 4.2031594e-8, 1.21101e-15, -2.3206745e-23),
      Row(0.5145297, -1.2322941e-8, 2.8200845e-16, 1.8800266e-23),
      Row(0.5080875, -1.2297127e-8, -4.2958356e-16, -1.8036626e-23),
      Row(0.5016035, 5.914538e-8, 1.2728561e-15, -5.8240944e-23),
      Row(0.49507725, 1.4409851e-8, -6.38191e-17, -3.5005094e-25),
      Row(0.48910707, 2.7457986e-8, -1.4470419e-15, 4.211867e-23),
      Row(0.48249847, 1.7622455e-8, 4.1286752e-16, 2.6082692e-23),
      Row(0.47645253, -1.24702435e-8, -9.162194e-17, 3.7657825e-24),
      Row(0.46975946, -5.450354e-9, -4.304847e-16, 2.0747103e-25),
      Row(0.46363574, -1.7013047e-9, 7.601623e-18, -2.0415879e-25),
      Row(0.4574743, 6.9436845e-10, -2.546131e-17, 5.5412533e-25),
      Row(0.45127463, 1.0731865e-8, 6.374e-16, 3.9015473e-23),
      Row(0.4450363, 2.8650657e-8, -9.155353e-16, -4.7365878e-23),
      Row(0.43938833, 2.6186132e-8, 1.3619602e-15, -5.2672795e-23),
      Row(0.4330752, 1.9065734e-8, 1.0143192e-15, 1.0145671e-22),
      Row(0.4273591, -1.1413594e-8, 1.3242045e-16, -1.0240056e-23),
      Row(0.4209693, -1.2778509e-8, 6.1435257e-16, 1.4192422e-23),
      Row(0.41518337, -7.767916e-9, 5.955443e-16, 2.732668e-23),
      Row(0.40936375, 1.880755e-9, 1.9153331e-16, -5.6208063e-24),
      Row(0.4035101, -2.0416604e-8, -2.93405e-16, 1.894347e-24),
      Row(0.39762193, 1.0016001e-9, 2.2863242e-17, 9.458134e-25),
      Row(0.3916989, 1.5459097e-8, 1.0962823e-15, 3.1083022e-23),
      Row(0.3864044, -2.0764124e-9, 1.5073465e-16, 7.4124495e-24),
      Row(0.38041437, -8.244395e-9, 1.4866225e-16, -3.9272927e-24),
      Row(0.37438822, 9.15853e-9, 5.656919e-16, 3.4213475e-23),
      Row(0.36900103, -2.2253591e-8, 6.2314054e-16, -2.1564751e-23),
      Row(0.36358464, -2.6778729e-8, -9.943908e-16, -4.7049297e-24),
      Row(0.3574559, -2.0330361e-8, -1.5794492e-15, 6.318678e-23),
      Row(0.3519764, 2.8503859e-8, -9.566435e-16, -6.409595e-24),
      Row(0.34646678, -1.2362653e-8, -6.003368e-16, -2.8609015e-24),
      Row(0.3409266, -6.1104133e-10, 1.7467136e-17, 1.9962587e-25),
      Row(0.33535552, 2.1672726e-8, -1.0918773e-15, -3.0475748e-23),
      Row(0.3304553, -1.608884e-8, -3.833435e-16, -7.683742e-24),
      Row(0.3248254, 2.8016704e-8, -2.0725721e-16, 1.3160778e-23),
      Row(0.31916368, 2.622263e-8, -1.3995223e-15, 8.599884e-23),
      Row(0.31418324, 2.6826626e-8, -9.792556e-16, 2.2954961e-23),
      Row(0.30846077, 1.3683509e-8, 5.591995e-16, -1.19387014e-23),
      Row(0.30342662, -8.629042e-9, -5.222554e-16, 3.2287708e-23),
      Row(0.29836696, 8.688424e-9, 2.7641168e-16, -1.0171859e-23),
      Row(0.292553, -4.9163145e-9, 2.5622847e-16, -2.6341576e-23),
      Row(0.28743792, -1.3782396e-8, 7.2903935e-16, -4.431978e-24),
      Row(0.28229648, 2.3770866e-8, 6.4492284e-16, 3.417537e-23),
      Row(0.27712852, 1.4733029e-8, 6.793364e-16, 3.593898e-24),
      Row(0.27193373, -1.893332e-8, 7.779394e-16, 2.5919724e-23),
      Row(0.26671177, 1.4300387e-11, -7.458877e-19, 4.2474188e-26),
      Row(0.262214, 7.802219e-9, 5.022431e-16, -2.4063175e-23),
      Row(0.2569409, 2.961805e-8, 7.279528e-16, 2.6385561e-23),
      Row(0.2516399, -6.447878e-9, 4.1220281e-16, 7.427559e-24),
      Row(0.24707368, -1.998183e-9, -1.0909758e-16, 6.236552e-24),
      Row(0.24171993, 5.523086e-9, -2.6865476e-16, -2.764496e-24),
      Row(0.23710808, 1.0085374e-8, -4.775627e-16, 2.3306206e-23),
      Row(0.2317006, -1.3946384e-8, 1.0970921e-17, 3.2299094e-25),
      Row(0.2270422, -6.451285e-9, -4.2529948e-16, -1.0260255e-23),
      Row(0.22236198, 1.4110645e-8, 6.025569e-16, 1.938518e-23),
      Row(0.2176598, -8.286783e-9, 5.232364e-16, 5.0784435e-23),
      Row(0.2121458, -8.254219e-9, 3.2555531e-16, 1.57143e-23),
      Row(0.2073952, -1.614928e-9, 2.1131593e-17, 1.4275617e-24),
      Row(0.2026219, 8.59764e-9, -3.380462e-16, 2.5623236e-24),
      Row(0.19782573, 1.3482966e-8, -3.202457e-16, -2.5712252e-23),
      Row(0.19300646, 9.95686e-10, 9.0016746e-17, -3.7547977e-24),
      Row(0.18897256, 4.241536e-9, 3.8086815e-16, -2.1147403e-23),
      Row(0.18411031, 6.931055e-9, -3.4784859e-16, 2.4665943e-23),
      Row(0.17922431, 5.0739235e-9, 3.222133e-16, -1.0379009e-23),
      Row(0.17431432, 3.7943853e-9, 3.190067e-16, 2.0292715e-23),
      Row(0.17020416, 3.4223344e-9, -1.8846417e-16, 1.1415315e-23),
      Row(0.16524959, -1.3210039e-8, -2.3213954e-16, 3.0430542e-24),
      Row(0.1602703, 6.007922e-9, -7.521048e-17, -1.2649106e-25),
      Row(0.15610191, -1.2301536e-8, 3.0175618e-16, -8.6338065e-24),
      Row(0.15191606, -1.4845572e-8, -3.2658303e-16, -1.5268152e-23),
      Row(0.14686978, -4.6748996e-9, -4.2942913e-16, 1.328296e-23),
      Row(0.142645, 9.186472e-9, -8.049373e-16, 1.4379988e-23),
      Row(0.13840231, 9.865117e-9, -8.8373065e-16, 7.295325e-24),
      Row(0.13328722, 9.990351e-10, 3.3169466e-17, 2.735144e-24),
      Row(0.12900457, -7.4612085e-9, -6.212113e-16, 1.8551873e-24),
      Row(0.12470348, -3.2924463e-9, -7.40412e-17, 1.3246956e-24),
      Row(0.120383814, 3.3791991e-9, 1.6214982e-16, -6.0007067e-24),
      Row(0.116045415, 3.5638392e-10, -7.35422e-18, 7.7943124e-26),
      Row(0.11168811, 3.136766e-9, -8.994406e-19, -7.9209376e-26),
      Row(0.10731174, -4.728528e-9, -4.297634e-16, 5.3511433e-24),
      Row(0.10291612, 2.8332008e-9, 4.9257428e-17, 2.7944368e-24),
      Row(0.0985011, 4.970725e-9, 4.1305128e-16, 6.3134496e-25),
      Row(0.094066516, -6.525851e-9, -1.3492817e-16, -9.07965e-24),
      Row(0.089612156, 2.5369618e-9, 1.6110665e-16, -5.1895045e-24),
      Row(0.08603434, -5.3047957e-9, 5.1275755e-17, 1.4636155e-24),
      Row(0.08154398, 2.0112156e-9, 8.0657693e-17, -3.015032e-24),
      Row(0.07703337, 5.749566e-9, -2.503851e-16, -1.8461431e-23),
      Row(0.07250233, 1.1776626e-9, -3.525477e-17, 1.3164078e-24),
      Row(0.06886266, -7.0435453e-9, 2.497124e-16, 1.06868825e-23),
      Row(0.06429435, -2.422082e-9, -2.0555896e-16, 8.602908e-24),
      Row(0.06062462, 7.905943e-12, -8.2704433e-19, -2.3533821e-26),
      Row(0.056018442, -5.1397453e-10, -3.8116516e-17, 1.9072195e-24),
      Row(0.052318163, -3.5574326e-9, 9.191156e-17, -5.321464e-24),
      Row(0.04767347, -1.8026349e-9, 1.0329634e-16, -2.228357e-24),
      Row(0.043942124, -1.7950057e-9, -5.3817403e-17, -1.3996197e-24),
      Row(0.0401968, 3.845193e-10, -2.4485453e-17, -7.386769e-26),
      Row(0.035495333, -3.5901654e-10, -2.0732078e-17, -2.4120972e-26),
      Row(0.03171818, 6.8723505e-10, -6.430478e-18, 1.3508692e-25),
      Row(0.027926706, 7.5687734e-10, -4.220316e-17, 2.5347606e-24),
      Row(0.024120804, -1.1255707e-9, 4.897006e-17, 1.4172215e-24),
      Row(0.019342963, 1.906861e-10, -1.0635946e-17, -5.3004895e-25),
      Row(0.015504187, -4.3701048e-10, 6.6110615e-18, 2.5398087e-25),
      Row(0.011650616, 9.16889e-10, -1.5848698e-17, -1.3504916e-24),
      Row(0.0077821407, -3.0465774e-10, 7.793436e-18, 4.6601e-25),
      Row(0.0038986406, -2.1324678e-10, 1.2541658e-19, 8.7450354e-27),
      Row(0.0, 0.0, 0.0, 0.0)
  ]

  lemma ScaleShape()
    ensures |Bd0Scale| == 129
    ensures Bd0Scale[128] == Row(0.0, 0.0, 0.0, 0.0)
  {
  }

  const Ln2: real := 0.6931471805599453

  /** `add1`: the hi/lo split of d, d1 = floor(d + 1/2) and d2 = d - d1. */
  function Split(d: Double): (Double, Double)
  {
    var d1 := Floor(Add(d, Fin(0.5)));
    (d1, Sub(d, d1))
  }

  /** A finite d splits into an integer and a remainder in [-1/2, 1/2) that
      sum to d. */
  lemma SplitContract(d: real)
    ensures var (h, l) := Split(Fin(d));
      h.Fin? && l.Fin? && IsInt(h.v) && -0.5 <= l.v < 0.5 && h.v + l.v == d
  {
  }

  function AddSplit(d: Double, yh: Double, yl: Double): (Double, Double)
  {
    var (d1, d2) := Split(d);
    (Add(yh, d1), Add(yl, d2))
  }

  /** `add1(d, &mut yh, &mut yl)`: the integral part of d goes to yh and the
      remainder to yl, so yh + yl grows by exactly d. */
  method Add1(d: Double, yh: Double, yl: Double) returns (h: Double, l: Double)
    ensures (h, l) == AddSplit(d, yh, yl)
    ensures d.Fin? && yh.Fin? && yl.Fin? ==>
      h.Fin? && l.Fin? && h.v + l.v == yh.v + yl.v + d.v &&
      IsInt(h.v - yh.v) && -0.5 <= l.v - yl.v < 0.5
  {
    var d1 := Floor(Add(d, Fin(0.5)));
    var d2 := Sub(d, d1);
    h := Add(yh, d1);
    l := Add(yl, d2);
    if d.Fin? {
      SplitContract(d.v);
    }
  }

  /** The table loop from column j on, on row i and row 0. */
  function ScaleColumns(x: Double, row: Row, row0: Row, j: nat, yh: Double, yl: Double): (Double, Double)
    requires j <= 4
    decreases 4 - j
  {
    if j == 4 then (yh, yl)
    else
      var (h1, l1) := AddSplit(Mul(x, Fin(Column(row, j))), yh, yl);
      var (h2, l2) := AddSplit(Mul(Neg(x), Fin(Column(row0, j))), h1, l1);
      ScaleColumns(x, row, row0, j + 1, h2, l2)
  }

  /** Sum over the columns from j on of row minus row0. */
  function ScaleDiff(row: Row, row0: Row, j: nat): real
    requires j <= 4
    decreases 4 - j
  {
    if j == 4 then 0.0
    else Column(row, j) - Column(row0, j) + ScaleDiff(row, row0, j + 1)
  }

  /** The table index of a frexp fraction r: floor((r - 1/2) 256 + 1/2) as i32. */
  function TableIndex(r: Double): int
  {
    AsI32(Floor(Add(Mul(Sub(r, Fin(0.5)), Fin(256.0)), Fin(0.5))))
  }

  /** The 10-bit scale f = floor(1024 / (1/2 + i/256 + 1/2)). */
  function ScaleF(i: int): Double
  {
    Floor(Div(Fin(1024.0), Add(Add(Fin(0.5), Div(Fin(i as real), Fin(256.0))), Fin(0.5))))
  }

  /** As written, the scale f = floor(1024 / (1/2 + i/256 + 1/2)) of a table
      index in [0, 128] lies in [682, 1024], from 1024 at i = 0 down to 682
      at i = 128.  The table rows hold log(f/1024) for the f in [1024, 2048]
      of floor(1024 / (1/2 + i/256) + 1/2): row 0 is log(2048/1024), row 128
      log(1024/1024). */
  lemma ScaleFRange(i: int)
    requires 0 <= i <= 128
    ensures ScaleF(i).Fin? && 682.0 <= ScaleF(i).v <= 1024.0
    ensures ScaleF(0) == Fin(1024.0) && ScaleF(128) == Fin(682.0)
  {
    var t := 0.5 + i as real / 256.0 + 0.5;
    assert ScaleF(i) == Fin((1024.0 / t).Floor as real);
    assert 1.0 <= t <= 1.5;
    QuotientRange(t);
    assert 1024.0 / 1.5 == 682.0 + 2.0 / 3.0;
  }

  lemma QuotientRange(t: real)
    requires 1.0 <= t <= 1.5
    ensures 682.0 <= 1024.0 / t <= 1024.0
  {
    assert 682.0 * t <= 1023.0;
  }

  /** As written, M fg / x lies in (0, 0.7) for all finite positive x and M
      whose scale fg is finite, so it is never close to 1. */
  lemma ScaledQuotientBelow(lib: Libm.Libm, x: real, m: real)
    requires Libm.Valid(lib) && x > 0.0 && m > 0.0
    ensures var (fr, e) := lib.frexp(Fin(m / x));
      var fg := Ldexp(ScaleF(TableIndex(fr)), -(e + 10));
      var q := Div(Mul(Fin(m), fg), Fin(x));
      fg.Fin? ==> q.Fin? && 0.0 < q.v < 0.7
  {
    PositiveQuotient(m, x);
    Libm.FrexpPositive(lib, m / x);
    var fe := lib.frexp(Fin(m / x));
    ScaledQuotientAt(x, m, fe.0.v, fe.1);
  }

  /** `ScaledQuotientBelow` for the pair (fr, e) that frexp returns. */
  lemma ScaledQuotientAt(x: real, m: real, fr: real, e: int)
    requires x > 0.0 && m > 0.0 && 0.5 <= fr < 1.0 && m / x == fr * Pow2(e)
    ensures var fg := Ldexp(ScaleF(TableIndex(Fin(fr))), -(e + 10));
      var q := Div(Mul(Fin(m), fg), Fin(x));
      fg.Fin? ==> q.Fin? && 0.0 < q.v < 0.7
  {
    var i := TableIndex(Fin(fr));
    IndexBound(fr);
    IndexNear(fr);
    ScaleFRange(i);
    ScaleTimesDivisor(i);
    ScaledQuotientOf(x, m, fr, e, 0.5 + i as real / 256.0 + 0.5, ScaleF(i).v);
  }

  /** The bound on M fg / x for a scale f with f t <= 1024, t the divisor. */
  lemma ScaledQuotientOf(x: real, m: real, fr: real, e: int, t: real, f: real)
    requires x > 0.0 && m > 0.0 && 0.5 <= fr < 1.0 && m / x == fr * Pow2(e)
    requires f >= 682.0 && t > 0.0 && f * t <= 1024.0
    requires (fr - 0.5) * 256.0 - 0.5 < (t - 1.0) * 256.0
    ensures var fg := Ldexp(Fin(f), -(e + 10));
      var q := Div(Mul(Fin(m), fg), Fin(x));
      fg.Fin? ==> q.Fin? && 0.0 < q.v < 0.7
  {
    var pe, p := Pow2(e), Pow2(-(e + 10));
    Pow2Cancel(e);
    QuotientProduct(m, x, fr, pe, f, p);
    LdexpValue(f, -(e + 10));
    QuotientBound(fr, f, t);
  }

  lemma LdexpValue(f: real, e: int)
    ensures Ldexp(Fin(f), e).Fin? ==> Ldexp(Fin(f), e).v == Scale(f, Pow2(e))
  {
  }

  /** 2^e 2^-(e + 10) = 1/1024. */
  lemma Pow2Cancel(e: int)
    ensures Pow2(e) * Pow2(-(e + 10)) == 1.0 / 1024.0
  {
    Pow2Add(e, -(e + 10));
    assert e + -(e + 10) == -10;
    assert Pow2(-10) == 1.0 / 1024.0;
  }

  /** The table index i of a fraction r in [1/2, 1) rounds (r - 1/2) 256. */
  lemma IndexNear(r: real)
    requires 0.5 <= r < 1.0
    ensures (r - 0.5) * 256.0 - 0.5 < TableIndex(Fin(r)) as real <= (r - 0.5) * 256.0 + 0.5
  {
    var a := (r - 0.5) * 256.0 + 0.5;
    assert Add(Mul(Sub(Fin(r), Fin(0.5)), Fin(256.0)), Fin(0.5)) == Fin(a);
    assert 0.5 <= a < 128.5;
    assert TableIndex(Fin(r)) == a.Floor;
  }

  /** f (1/2 + i/256 + 1/2) <= 1024 for the scale f of index i. */
  lemma ScaleTimesDivisor(i: int)
    requires 0 <= i <= 128
    ensures ScaleF(i).Fin? && ScaleF(i).v * (0.5 + i as real / 256.0 + 0.5) <= 1024.0
  {
    var t := 0.5 + i as real / 256.0 + 0.5;
    assert ScaleF(i) == Fin((1024.0 / t).Floor as real);
    FloorTimes(1024.0 / t, t);
  }

  lemma FloorTimes(q: real, t: real)
    requires t > 0.0
    ensures q.Floor as real * t <= q * t
  {
  }

  lemma QuotientProduct(m: real, x: real, fr: real, pe: real, f: real, p: real)
    requires x > 0.0 && m / x == fr * pe && pe * p == 1.0 / 1024.0
    ensures Div(Mul(Fin(m), Fin(Scale(f, p))), Fin(x)) == Fin(Scale(fr, f) / 1024.0)
  {
    calc {
      m * (f * p) / x;
      (m / x) * (f * p);
      (fr * pe) * (f * p);
      fr * f * (pe * p);
    }
  }

  lemma QuotientBound(fr: real, f: real, t: real)
    requires 0.5 <= fr < 1.0 && f >= 682.0 && t > 0.0 && f * t <= 1024.0
    requires (fr - 0.5) * 256.0 - 0.5 < (t - 1.0) * 256.0
    ensures 0.0 < Scale(fr, f) / 1024.0 < 0.7
  {
    assert t > fr + 255.0 / 512.0;
    assert fr < 0.7 * t;
    assert fr * (f * t) <= fr * 1024.0;
    assert fr * 1024.0 < 716.8 * t;
    CancelFactor(fr * f, 716.8, t);
  }

  lemma CancelFactor(a: real, b: real, t: real)
    requires t > 0.0 && a * t < b * t
    ensures a < b
  {
  }

  /** The value of `ebd0(x, M)`; None when the table access is out of bounds,
      which aborts the Rust program. */
  function Ebd0Spec(lib: Libm.Libm, log1pmx: Double -> Double, x: Double, m: Double): Option<(Double, Double)>
  {
    if Eq(x, m) then Some((Fin(0.0), Fin(0.0)))
    else if Eq(x, Fin(0.0)) then Some((m, Fin(0.0)))
    else if Eq(m, Fin(0.0)) then Some((PosInf, Fin(0.0)))
    else Ebd0Scaled(lib, log1pmx, x, m)
  }

  /** Overflow guard on the binary exponent e of M/x:
      M_LN2 (-e) > 1 + DBL_MAX / x. */
  predicate ExponentOverflows(x: Double, e: int)
  {
    Gt(Mul(Fin(Ln2), Fin((-e) as real)), Add(Fin(1.0), Div(Fin(DblMax), x)))
  }

  /** `ebd0` after its three special cases. */
  function Ebd0Scaled(lib: Libm.Libm, log1pmx: Double -> Double, x: Double, m: Double): Option<(Double, Double)>
  {
    var (fr, e) := lib.frexp(Div(m, x));
    Ebd0Reduced(log1pmx, x, m, fr, e)
  }

  /** `ebd0` once frexp has split M/x into the fraction fr and exponent e. */
  function Ebd0Reduced(log1pmx: Double -> Double, x: Double, m: Double, fr: Double, e: int): Option<(Double, Double)>
  {
    if ExponentOverflows(x, e) then Some((PosInf, Fin(0.0)))
    else
      var i := TableIndex(fr);
      var fg := Ldexp(ScaleF(i), -(e + 10));
      if Eq(fg, PosInf) then Some((fg, Fin(0.0)))
      else
        var (yh, yl) := AddSplit(FirstTerm(log1pmx, x, m, fg), Fin(0.0), Fin(0.0));
        if Eq(fg, Fin(1.0)) then Some((yl, yh))
        else if !(0 <= i <= 128) then None
        else Some(Ebd0Table(x, m, Bd0Scale[i], Bd0Scale[0], fg, yh, yl))
  }

  /** -x log1pmx((M fg - x)/x). */
  function FirstTerm(log1pmx: Double -> Double, x: Double, m: Double, fg: Double): Double
  {
    Mul(Neg(x), log1pmx(Div(Sub(Mul(m, fg), x), x)))
  }

  /** The table loop over row i and row 0, the finiteness guard and the last
      two additions. */
  function Ebd0Table(x: Double, m: Double, row: Row, row0: Row, fg: Double, yh: Double, yl: Double): (Double, Double)
  {
    var c := ScaleColumns(x, row, row0, 0, yh, yl);
    if !c.0.Fin? then (PosInf, Fin(0.0))
    else
      var c1 := AddSplit(m, c.0, c.1);
      AddSplit(Mul(Neg(m), fg), c1.0, c1.1)
  }

  /** The loop over the four table columns of `ebd0`: per column, add x times
      row (row i of the table) and -x times row0 (row 0). */
  method ScaleLoop(x: Double, row: Row, row0: Row, yh0: Double, yl0: Double) returns (yh: Double, yl: Double)
    ensures (yh, yl) == ScaleColumns(x, row, row0, 0, yh0, yl0)
  {
    yh, yl := yh0, yl0;
    for j := 0 to 4
      invariant ScaleColumns(x, row, row0, j, yh, yl) == ScaleColumns(x, row, row0, 0, yh0, yl0)
    {
      yh, yl := Add1(Mul(x, Fin(Column(row, j))), yh, yl);
      yh, yl := Add1(Mul(Neg(x), Fin(Column(row0, j))), yh, yl);
    }
  }

  /** `ebd0`, proved against `Ebd0Spec`; `panicked` is the out-of-bounds
      abort. */
  method Ebd0(lib: Libm.Libm, log1pmx: Double -> Double, x: Double, m: Double)
    returns (r: (Double, Double), panicked: bool)
    ensures panicked <==> Ebd0Spec(lib, log1pmx, x, m) == None
    ensures !panicked ==> r == Ebd0Spec(lib, log1pmx, x, m).value
  {
    var yh, yl := Fin(0.0), Fin(0.0);
    if Eq(x, m) {
      return (yh, yl), false;
    }
    if Eq(x, Fin(0.0)) {
      yh := m;
      return (yh, yl), false;
    }
    if Eq(m, Fin(0.0)) {
      yh := PosInf;
      return (yh, yl), false;
    }
    assert Ebd0Spec(lib, log1pmx, x, m) == Ebd0Scaled(lib, log1pmx, x, m);
    var (fr, e) := lib.frexp(Div(m, x));
    assert Ebd0Spec(lib, log1pmx, x, m) == Ebd0Reduced(log1pmx, x, m, fr, e);
    if ExponentOverflows(x, e) {
      yh := PosInf;
      return (yh, yl), false;
    }
    var i := TableIndex(fr);
    var f := ScaleF(i);
    var fg := Ldexp(f, -(e + 10));
    if Eq(fg, PosInf) {
      yh := fg;
      return (yh, yl), false;
    }
    yh, yl := Add1(FirstTerm(log1pmx, x, m, fg), yh, yl);
    if Eq(fg, Fin(1.0)) {
      return (yl, yh), false;
    }
    if !(0 <= i <= 128) {
      return (yh, yl), true;
    }
    assert Ebd0Spec(lib, log1pmx, x, m) == Some(Ebd0Table(x, m, Bd0Scale[i], Bd0Scale[0], fg, yh, yl));
    r := TablePart(x, m, Bd0Scale[i], Bd0Scale[0], fg, yh, yl);
    return r, false;
  }

  /** The table loop of `ebd0` and what follows it. */
  method TablePart(x: Double, m: Double, row: Row, row0: Row, fg: Double, yh0: Double, yl0: Double) returns (r: (Double, Double))
    ensures r == Ebd0Table(x, m, row, row0, fg, yh0, yl0)
  {
    var yh, yl := ScaleLoop(x, row, row0, yh0, yl0);
    if !yh.Fin? {
      yh := PosInf;
      yl := Fin(0.0);
      return (yh, yl);
    }
    yh, yl := Add1(m, yh, yl);
    yh, yl := Add1(Mul(Neg(m), fg), yh, yl);
    return (yh, yl);
  }

  /** The special cases, in order: x = M gives (0, 0), then x = 0 gives (M, 0),
      then M = 0 gives (+Inf, 0). */
  lemma Ebd0SpecialCases(lib: Libm.Libm, log1pmx: Double -> Double, x: Double, m: Double)
    ensures Eq(x, m) ==> Ebd0Spec(lib, log1pmx, x, m) == Some((Fin(0.0), Fin(0.0)))
    ensures !Eq(x, m) && Eq(x, Fin(0.0)) ==> Ebd0Spec(lib, log1pmx, x, m) == Some((m, Fin(0.0)))
    ensures !Eq(x, m) && !Eq(x, Fin(0.0)) && Eq(m, Fin(0.0)) ==> Ebd0Spec(lib, log1pmx, x, m) == Some((PosInf, Fin(0.0)))
  {
  }

  /** The three overflow exits after the special cases: when the exponent of
      M/x would overflow later, when the scale fg is +Inf, and when the table
      loop leaves a non-finite high part, `ebd0` returns (+Inf, 0). The last
      exit is reached only past the fg = 1 exit and with the index in range. */
  lemma Ebd0OverflowExits(lib: Libm.Libm, log1pmx: Double -> Double, x: Double, m: Double)
    requires !Eq(x, m) && !Eq(x, Fin(0.0)) && !Eq(m, Fin(0.0))
    ensures var p := lib.frexp(Div(m, x));
      ExponentOverflows(x, p.1) ==> Ebd0Spec(lib, log1pmx, x, m) == Some((PosInf, Fin(0.0)))
    ensures var p := lib.frexp(Div(m, x));
      Ldexp(ScaleF(TableIndex(p.0)), -(p.1 + 10)) == PosInf ==> Ebd0Spec(lib, log1pmx, x, m) == Some((PosInf, Fin(0.0)))
    ensures var p := lib.frexp(Div(m, x));
      var i := TableIndex(p.0);
      var fg := Ldexp(ScaleF(i), -(p.1 + 10));
      var y := AddSplit(FirstTerm(log1pmx, x, m, fg), Fin(0.0), Fin(0.0));
      !Eq(fg, Fin(1.0)) && 0 <= i <= 128 && !ScaleColumns(x, Bd0Scale[i], Bd0Scale[0], 0, y.0, y.1).0.Fin? ==>
        Ebd0Spec(lib, log1pmx, x, m) == Some((PosInf, Fin(0.0)))
  {
  }

  /** For a frexp fraction r in [1/2, 1) the table index lies in [0, 128]. */
  lemma IndexBound(r: real)
    requires 0.5 <= r < 1.0
    ensures 0 <= TableIndex(Fin(r)) <= 128
  {
    var a := (r - 0.5) * 256.0 + 0.5;
    assert Add(Mul(Sub(Fin(r), Fin(0.5)), Fin(256.0)), Fin(0.5)) == Fin(a);
    assert 0.5 <= a < 128.5;
  }

  /** With finite positive x and M the frexp contract puts the fraction of
      M/x in [1/2, 1), so both table rows read are in bounds and `ebd0`
      cannot abort. */
  lemma Ebd0InBounds(lib: Libm.Libm, log1pmx: Double -> Double, x: real, m: real)
    requires Libm.Valid(lib) && x > 0.0 && m > 0.0
    ensures 0 <= TableIndex(lib.frexp(Fin(m / x)).0) <= 128
    ensures Ebd0Spec(lib, log1pmx, Fin(x), Fin(m)).Some?
  {
    PositiveQuotient(m, x);
    Libm.FrexpPositive(lib, m / x);
    IndexBound(lib.frexp(Fin(m / x)).0.v);
  }

  lemma PositiveQuotient(a: real, b: real)
    requires a > 0.0 && b > 0.0
    ensures a / b > 0.0
  {
  }

  /** The table loop from column j on keeps every value finite and grows
      yh + yl by exactly x times the row difference. */
  lemma {:induction false} ScaleColumnsSum(x: real, row: Row, row0: Row, j: nat, yh: real, yl: real)
    returns (h: Double, l: Double)
    requires j <= 4
    decreases 4 - j
    ensures (h, l) == ScaleColumns(Fin(x), row, row0, j, Fin(yh), Fin(yl))
    ensures h.Fin? && l.Fin?
    ensures h.v + l.v == yh + yl + Scale(x, ScaleDiff(row, row0, j))
  {
    if j < 4 {
      var a, b := Column(row, j), Column(row0, j);
      var da, db := Scale(x, a), Scale(-x, b);
      MulFin(x, a);
      MulFin(-x, b);
      var h2, l2, k2 := ColumnStep(da, db, yh, yl);
      assert ScaleColumns(Fin(x), row, row0, j, Fin(yh), Fin(yl)) == ScaleColumns(Fin(x), row, row0, j + 1, h2, l2);
      h, l := ScaleColumnsSum(x, row, row0, j + 1, h2.v, l2.v);
      SumAlgebra(x, a, b, ScaleDiff(row, row0, j + 1));
    } else {
      h, l := Fin(yh), Fin(yl);
      assert ScaleDiff(row, row0, j) == 0.0;
    }
  }

  /** The same loop adds an integer k to yh and moves yl by at most 4 - j. */
  lemma {:induction false} ScaleColumnsParts(x: real, row: Row, row0: Row, j: nat, yh: real, yl: real)
    returns (h: Double, l: Double, k: int)
    requires j <= 4
    decreases 4 - j
    ensures (h, l) == ScaleColumns(Fin(x), row, row0, j, Fin(yh), Fin(yl))
    ensures h.Fin? && l.Fin? && h.v == yh + k as real
    ensures -(4 - j) as real <= l.v - yl <= (4 - j) as real
  {
    if j < 4 {
      var a, b := Column(row, j), Column(row0, j);
      var da, db := Scale(x, a), Scale(-x, b);
      MulFin(x, a);
      MulFin(-x, b);
      var h2, l2, k2 := ColumnStep(da, db, yh, yl);
      assert ScaleColumns(Fin(x), row, row0, j, Fin(yh), Fin(yl)) == ScaleColumns(Fin(x), row, row0, j + 1, h2, l2);
      var k3;
      h, l, k3 := ScaleColumnsParts(x, row, row0, j + 1, h2.v, l2.v);
      k := k2 + k3;
    } else {
      h, l, k := Fin(yh), Fin(yl), 0;
    }
  }

  lemma MulFin(a: real, b: real)
    ensures Mul(Fin(a), Fin(b)) == Fin(Scale(a, b))
  {
  }

  lemma NegScale(a: real, b: real)
    ensures Scale(-a, b) == -Scale(a, b)
  {
  }

  lemma SumAlgebra(x: real, a: real, b: real, rest: real)
    ensures Scale(x, a) + Scale(-x, b) + Scale(x, rest) == Scale(x, a - b + rest)
  {
  }

  /** One column of the table loop: two `add1` steps, of da and then db. */
  lemma ColumnStep(da: real, db: real, yh: real, yl: real) returns (h2: Double, l2: Double, k: int)
    ensures (h2, l2) == AddSplit(Fin(db), AddSplit(Fin(da), Fin(yh), Fin(yl)).0, AddSplit(Fin(da), Fin(yh), Fin(yl)).1)
    ensures h2.Fin? && l2.Fin? && h2.v == yh + k as real && -1.0 <= l2.v - yl < 1.0
    ensures h2.v + l2.v == yh + yl + da + db
  {
    var h1, l1, k1 := AddSplitContract(da, yh, yl);
    var k2;
    h2, l2, k2 := AddSplitContract(db, h1.v, l1.v);
    k := k1 + k2;
  }

  /** `add1` on finite values: yh grows by the integer k, yl by less than
      1/2 in magnitude, and yh + yl by exactly d. */
  lemma AddSplitContract(d: real, yh: real, yl: real) returns (h: Double, l: Double, k: int)
    ensures (h, l) == AddSplit(Fin(d), Fin(yh), Fin(yl))
    ensures h.Fin? && l.Fin? && h.v == yh + k as real && -0.5 <= l.v - yl < 0.5
    ensures h.v + l.v == yh + yl + d
  {
    SplitContract(d);
    var p := AddSplit(Fin(d), Fin(yh), Fin(yl));
    h, l := p.0, p.1;
    k := Split(Fin(d)).0.v.Floor;
  }

  /** The normal exit of `ebd0`: starting from the split of the first term
      d, the result is finite (so the non-finite guard after the table loop
      never fires on exact arithmetic), its high part is the integer k, its low
      part is within 5.5 of zero, and the two add up to
      d + x (row - row0) + M - M fg. */
  lemma Ebd0TableSum(x: real, m: real, row: Row, row0: Row, fg: real, d: real) returns (p: (Double, Double), k: int)
    ensures p == Ebd0Table(Fin(x), Fin(m), row, row0, Fin(fg),
      AddSplit(Fin(d), Fin(0.0), Fin(0.0)).0, AddSplit(Fin(d), Fin(0.0), Fin(0.0)).1)
    ensures p.0.Fin? && p.1.Fin? && p.0.v == k as real && -5.5 <= p.1.v <= 5.5
    ensures p.0.v + p.1.v == d + Scale(x, ScaleDiff(row, row0, 0)) + m - Scale(m, fg)
  {
    var yh, yl, k0 := AddSplitContract(d, 0.0, 0.0);
    var h, l := ScaleColumnsSum(x, row, row0, 0, yh.v, yl.v);
    var h', l', k1 := ScaleColumnsParts(x, row, row0, 0, yh.v, yl.v);
    var h2, l2, k2 := ColumnStep(m, Scale(-m, fg), h.v, l.v);
    assert h == Fin(h.v) && l == Fin(l.v);
    p := TableFinish(x, m, row, row0, fg, yh, yl, h.v, l.v);
    assert p == (h2, l2);
    NegScale(m, fg);
    FinishArithmetic(d, Scale(x, ScaleDiff(row, row0, 0)), m, Scale(-m, fg),
      yh.v, yl.v, k0, h.v, l.v, k1, h2.v, l2.v, k2);
    k := k0 + k1 + k2;
  }

  lemma FinishArithmetic(d: real, s: real, m: real, t: real, yh: real, yl: real, k0: int,
                         h: real, l: real, k1: int, h2: real, l2: real, k2: int)
    requires yh == k0 as real && -0.5 <= yl < 0.5 && yh + yl == d
    requires h == yh + k1 as real && -4.0 <= l - yl <= 4.0 && h + l == yh + yl + s
    requires h2 == h + k2 as real && -1.0 <= l2 - l < 1.0 && h2 + l2 == h + l + m + t
    ensures h2 == (k0 + k1 + k2) as real && -5.5 <= l2 <= 5.5 && h2 + l2 == d + s + m + t
  {
  }

  /** Ebd0Table once the column loop has produced (h, l). */
  lemma TableFinish(x: real, m: real, row: Row, row0: Row, fg: real, yh: Double, yl: Double, h: real, l: real)
    returns (p: (Double, Double))
    requires ScaleColumns(Fin(x), row, row0, 0, yh, yl) == (Fin(h), Fin(l))
    ensures p == Ebd0Table(Fin(x), Fin(m), row, row0, Fin(fg), yh, yl)
    ensures p == AddSplit(Fin(Scale(-m, fg)), AddSplit(Fin(m), Fin(h), Fin(l)).0, AddSplit(Fin(m), Fin(h), Fin(l)).1)
  {
    MulFin(-m, fg);
    p := Ebd0Table(Fin(x), Fin(m), row, row0, Fin(fg), yh, yl);
  }

  /** When the scale fg is exactly 1 the table is skipped and the pair comes
      back in the order (yl, yh): the fractional part of the first term d
      first, its integral part k second. */
  lemma Ebd0UnitScale(log1pmx: Double -> Double, x: real, m: real, fr: Double, e: int) returns (k: int)
    requires !ExponentOverflows(Fin(x), e)
    requires Ldexp(ScaleF(TableIndex(fr)), -(e + 10)) == Fin(1.0)
    requires FirstTerm(log1pmx, Fin(x), Fin(m), Fin(1.0)).Fin?
    ensures var d := FirstTerm(log1pmx, Fin(x), Fin(m), Fin(1.0)).v;
      var p := Ebd0Reduced(log1pmx, Fin(x), Fin(m), fr, e);
      && p.Some? && p.value.0.Fin? && p.value.1.Fin?
      && -0.5 <= p.value.0.v < 0.5 && p.value.1.v == k as real
      && p.value.0.v + p.value.1.v == d
  {
    var d := FirstTerm(log1pmx, Fin(x), Fin(m), Fin(1.0)).v;
    var yh, yl;
    yh, yl, k := AddSplitContract(d, 0.0, 0.0);
  }

  /** The shape of a normal `ebd0` result: an integral high part k, a low
      part within 5.5 of zero, and a sum equal to target. */
  predicate NormalResult(p: (Double, Double), k: int, target: real)
  {
    p.0.Fin? && p.1.Fin? && p.0.v == k as real && -5.5 <= p.1.v <= 5.5 && p.0.v + p.1.v == target
  }

  /** `ebd0` after frexp, for a fraction in [1/2, 1) and the normal exit. */
  lemma Ebd0ReducedNormal(log1pmx: Double -> Double, x: real, m: real, fr: real, e: int) returns (k: int)
    requires 0.5 <= fr < 1.0
    requires !ExponentOverflows(Fin(x), e)
    requires Ldexp(ScaleF(TableIndex(Fin(fr))), -(e + 10)).Fin?
    requires Ldexp(ScaleF(TableIndex(Fin(fr))), -(e + 10)).v != 1.0
    requires FirstTerm(log1pmx, Fin(x), Fin(m), Ldexp(ScaleF(TableIndex(Fin(fr))), -(e + 10))).Fin?
    ensures var i := TableIndex(Fin(fr));
      var fg := Ldexp(ScaleF(i), -(e + 10));
      var p := Ebd0Reduced(log1pmx, Fin(x), Fin(m), Fin(fr), e);
      && 0 <= i <= 128 && p.Some?
      && NormalResult(p.value, k, FirstTerm(log1pmx, Fin(x), Fin(m), fg).v
           + Scale(x, ScaleDiff(Bd0Scale[i], Bd0Scale[0], 0)) + m - Scale(m, fg.v))
  {
    var i := TableIndex(Fin(fr));
    IndexBound(fr);
    var fg := Ldexp(ScaleF(i), -(e + 10));
    var d := FirstTerm(log1pmx, Fin(x), Fin(m), fg);
    var row, row0 := Bd0Scale[i], Bd0Scale[0];
    assert Ebd0Reduced(log1pmx, Fin(x), Fin(m), Fin(fr), e)
      == Some(Ebd0Table(Fin(x), Fin(m), row, row0, fg,
           AddSplit(d, Fin(0.0), Fin(0.0)).0, AddSplit(d, Fin(0.0), Fin(0.0)).1));
    var p;
    p, k := Ebd0TableSum(x, m, row, row0, fg.v, d.v);
  }

  /** `ebd0(x, M)` for finite positive x != M on its normal exit (no exponent
      overflow, a finite scale fg other than 1, a finite first term d): no
      abort, and yh + yl = d + x (row i - row 0) + M - M fg with an integral
      yh and a small yl. */
  lemma Ebd0Normal(lib: Libm.Libm, log1pmx: Double -> Double, x: real, m: real) returns (k: int)
    requires Libm.Valid(lib) && x > 0.0 && m > 0.0 && x != m
    ensures var (fr, e) := lib.frexp(Fin(m / x));
      var i := TableIndex(fr);
      var fg := Ldexp(ScaleF(i), -(e + 10));
      var d := FirstTerm(log1pmx, Fin(x), Fin(m), fg);
      var p := Ebd0Spec(lib, log1pmx, Fin(x), Fin(m));
      !ExponentOverflows(Fin(x), e) && fg.Fin? && fg.v != 1.0 && d.Fin? ==>
        && 0 <= i <= 128 && p.Some?
        && NormalResult(p.value, k, d.v + Scale(x, ScaleDiff(Bd0Scale[i], Bd0Scale[0], 0)) + m - Scale(m, fg.v))
  {
    PositiveQuotient(m, x);
    Libm.FrexpPositive(lib, m / x);
    var fe := lib.frexp(Fin(m / x));
    k := Ebd0NormalAt(lib, log1pmx, x, m, fe.0, fe.1);
  }

  /** `ebd0(1, 2)` as written: frexp(2) = (1/2, 2), so i = 0, f = 1024 and
      fg = 1/4, which makes M fg / x = 1/2; both table rows read are row 0, so
      the table adds nothing, and yh + yl = 3/2 - log1pmx(-1/2), not
      bd0(1, 2) = 1 - log 2. */
  lemma Ebd0AtOneTwo(lib: Libm.Libm, log1pmx: Double -> Double) returns (k: int)
    requires Libm.Valid(lib) && log1pmx(Fin(-0.5)).Fin?
    ensures lib.frexp(Fin(2.0)) == (Fin(0.5), 2)
    ensures TableIndex(Fin(0.5)) == 0 && Ldexp(ScaleF(0), -(2 + 10)) == Fin(0.25)
    ensures var p := Ebd0Spec(lib, log1pmx, Fin(1.0), Fin(2.0));
      p.Some? && NormalResult(p.value, k, 1.5 - log1pmx(Fin(-0.5)).v)
  {
    FrexpTwo(lib);
    OneTwoScale();
    SpecReduces(lib, log1pmx, 1.0, 2.0);
    k := OneTwoReduced(log1pmx);
  }

  /** Past its special cases, `ebd0` of finite x and M is `Ebd0Reduced` at
      frexp(M/x). */
  lemma SpecReduces(lib: Libm.Libm, log1pmx: Double -> Double, x: real, m: real)
    requires x != 0.0 && m != 0.0 && x != m
    ensures var fe := lib.frexp(Fin(m / x));
      Ebd0Spec(lib, log1pmx, Fin(x), Fin(m)) == Ebd0Reduced(log1pmx, Fin(x), Fin(m), fe.0, fe.1)
  {
    assert Div(Fin(m), Fin(x)) == Fin(m / x);
  }

  /** The index, scale and exponent guard of `ebd0(1, 2)`. */
  lemma OneTwoScale()
    ensures TableIndex(Fin(0.5)) == 0 && Ldexp(ScaleF(0), -(2 + 10)) == Fin(0.25)
    ensures !ExponentOverflows(Fin(1.0), 2)
  {
    IndexBound(0.5);
    ScaleFRange(0);
    assert Pow2(-12) == 1.0 / 4096.0;
  }

  /** `ebd0(1, 2)` once frexp has returned (1/2, 2). */
  lemma OneTwoReduced(log1pmx: Double -> Double) returns (k: int)
    requires log1pmx(Fin(-0.5)).Fin?
    ensures var p := Ebd0Reduced(log1pmx, Fin(1.0), Fin(2.0), Fin(0.5), 2);
      p.Some? && NormalResult(p.value, k, 1.5 - log1pmx(Fin(-0.5)).v)
  {
    OneTwoScale();
    var l := log1pmx(Fin(-0.5)).v;
    OneTwoFirstTerm(log1pmx);
    ScaleDiffSelf(Bd0Scale[0], 0);
    k := ReducedNormalAt(log1pmx, 1.0, 2.0, 0.5, 2, 0, 0.25, -l, 0.0);
  }

  /** The first term of `ebd0(1, 2)`: -log1pmx(-1/2). */
  lemma OneTwoFirstTerm(log1pmx: Double -> Double)
    requires log1pmx(Fin(-0.5)).Fin?
    ensures FirstTerm(log1pmx, Fin(1.0), Fin(2.0), Fin(0.25)) == Fin(-log1pmx(Fin(-0.5)).v)
  {
    assert Div(Sub(Mul(Fin(2.0), Fin(0.25)), Fin(1.0)), Fin(1.0)) == Fin(-0.5);
  }

  /** `Ebd0ReducedNormal` with the index i, the scale fg, the first term d and
      the table sum s given by name. */
  lemma ReducedNormalAt(log1pmx: Double -> Double, x: real, m: real, fr: real, e: int,
                        i: int, fg: real, d: real, s: real) returns (k: int)
    requires 0.5 <= fr < 1.0 && !ExponentOverflows(Fin(x), e)
    requires TableIndex(Fin(fr)) == i && Ldexp(ScaleF(i), -(e + 10)) == Fin(fg) && fg != 1.0
    requires FirstTerm(log1pmx, Fin(x), Fin(m), Fin(fg)) == Fin(d)
    requires 0 <= i <= 128 && ScaleDiff(Bd0Scale[i], Bd0Scale[0], 0) == s
    ensures var p := Ebd0Reduced(log1pmx, Fin(x), Fin(m), Fin(fr), e);
      p.Some? && NormalResult(p.value, k, d + Scale(x, s) + m - Scale(m, fg))
  {
    k := Ebd0ReducedNormal(log1pmx, x, m, fr, e);
  }

  /** frexp(2) = (1/2, 2) for every library meeting the C99 contract. */
  lemma FrexpTwo(lib: Libm.Libm)
    requires Libm.Valid(lib)
    ensures lib.frexp(Fin(2.0)) == (Fin(0.5), 2)
  {
    Libm.FrexpPositive(lib, 2.0);
    var (f, e) := lib.frexp(Fin(2.0));
    Pow2Add(3, e - 3);
    Pow2One(e - 3);
    Pow2Add(1, e - 1);
    Pow2One(e - 1);
    assert e == 2;
    assert Pow2(2) == 4.0;
  }

  /** A row minus itself sums to zero. */
  lemma {:induction false} ScaleDiffSelf(row: Row, j: nat)
    requires j <= 4
    ensures ScaleDiff(row, row, j) == 0.0
    decreases 4 - j
  {
    if j < 4 {
      ScaleDiffSelf(row, j + 1);
    }
  }

  /** `Ebd0Normal` for the pair (fr, e) that frexp returns. */
  lemma Ebd0NormalAt(lib: Libm.Libm, log1pmx: Double -> Double, x: real, m: real, fr: Double, e: int)
    returns (k: int)
    requires x > 0.0 && m > 0.0 && x != m
    requires lib.frexp(Fin(m / x)) == (fr, e) && fr.Fin? && 0.5 <= fr.v < 1.0
    ensures var i := TableIndex(fr);
      var fg := Ldexp(ScaleF(i), -(e + 10));
      var d := FirstTerm(log1pmx, Fin(x), Fin(m), fg);
      var p := Ebd0Spec(lib, log1pmx, Fin(x), Fin(m));
      !ExponentOverflows(Fin(x), e) && fg.Fin? && fg.v != 1.0 && d.Fin? ==>
        && 0 <= i <= 128 && p.Some?
        && NormalResult(p.value, k, d.v + Scale(x, ScaleDiff(Bd0Scale[i], Bd0Scale[0], 0)) + m - Scale(m, fg.v))
  {
    var fg := Ldexp(ScaleF(TableIndex(fr)), -(e + 10));
    k := 0;
    if !ExponentOverflows(Fin(x), e) && fg.Fin? && fg.v != 1.0 && FirstTerm(log1pmx, Fin(x), Fin(m), fg).Fin? {
      assert Div(Fin(m), Fin(x)) == Fin(m / x);
      assert Ebd0Spec(lib, log1pmx, Fin(x), Fin(m)) == Ebd0Reduced(log1pmx, Fin(x), Fin(m), fr, e);
      k := Ebd0ReducedNormal(log1pmx, x, m, fr.v, e);
    }
  }
}
