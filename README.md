# rmathlib core in Dafny

rmathlib is a Rust port of the special functions and probability
distributions of R's `nmath` library. This project models the part of it that
decides values and cases, and it proves what that part promises. The numeric
approximations themselves are left abstract. The modelled parts are:

- the incomplete-beta dispatcher `bratio` of ACM TOMS algorithm 708
  (`src/toms708.rs`). This covers its argument checks, boundary cases, tiny
  parameter case, the orientation ("swap") of the problem, the choice between
  the series, continued-fraction and asymptotic methods, and the labelled
  blocks `l140`, `l131`, `l_end*`, `l_w_bpser`, `l_w1_bpser` and `l_bfrac`.
  It also covers the index logic of `bup` and the error paths of `bgrat`;
- the beta distribution function `pbeta` / `pbeta_raw` (`src/pbeta.rs`), with
  its point masses, infinite parameters and tail selection;
- the tail and log-scale selectors of `src/dpq.rs`;
- `bd0` and `ebd0` (`src/bd0.rs`): the branch and termination structure of
  the deviance term, the special cases of `ebd0`, the bound on its
  scale-table index, the hi/lo splitting of `add1`, its overflow exits, and
  the sum its pair adds up to as written;
- `chebyshev_init` and `chebyshev_eval` (`src/chebyshev.rs`), with the
  Clenshaw recurrence proved against the Chebyshev series over the reals;
- the sign rule and the pole, NaN and magnitude dispatch of `lgammafn_sign`
  and `lgammafn` (`src/lgamma.rs`);
- the argument reduction and exact special values of `cospi`, `sinpi` and
  `tanpi`, in both crates (`src/cospi.rs`, `math/src/cospi.rs`);
- the integer constant table `i1mach` (`src/i1mach.rs`).

## How the model is built

- `Ieee.Double` is `NaN | NegInf | PosInf | Fin(real)`.
  - Finite arithmetic is exact.
  - The special values follow IEEE-754: NaN propagates, Inf - Inf and 0 * Inf
    are NaN, and a comparison with NaN is false.
  - Rust's `%` on `f64` is C `fmod` (section 7.12.10.1 of C99).
  - `as i32` truncates and saturates.
  - `ldexp` overflows to an infinity (section 7.12.6.6 of C99).
- `Libm.Libm` is a record of the platform functions (`log`, `log1p`, `exp`,
  `expm1`, `pow`, `sin`, `cos`, `tan`, `frexp`).
  - `Libm.Valid` states the few facts of C99 Annex F that the proofs use,
    such as log 0 = -Inf, exp(-Inf) = 0 and the `frexp` contract of section
    7.12.6.4.
  - Every property holds for every library that satisfies `Valid`, and most
    hold for every library at all.
- The numeric kernels of `toms708.rs` are fields of `Toms708.Leaves`, so the
  results hold whatever values they compute. These are `bpser`, `bfrac`,
  `basym`, `fpser`, `apser`, `brcmp1`, `rexpm1`, `alnrel`, `gam1` and
  `algdiv`. The same holds for `gammafn` and `lgammacor` in `Lgamma`, for
  `log1pmx` in `Bd0.Ebd0`, and for the rounding of the Taylor additions in
  `Bd0.Bd0`.
- Code that writes through `&mut` out-parameters or runs loops is a `method`.
  This covers `bratio` and its blocks, `bup`, `bgrat`, `bd0`, `ebd0`, `add1`,
  `chebyshev_init`, `chebyshev_eval` and `lgammafn_sign`.
  - Each method is proved against a specification function: `ensures o ==
    BratioSpec(...)`, a loop invariant tied to `Rise`/`Settle`, or
    `ChebyshevSeries`.
  - The properties are then lemmas about those functions.
  - The long `if` chains of the source are split into methods of two
    branches each, in the source's order of tests.
- A `bratio` block ends in `Toms708.Outcome`, which is either `Done(w, w1,
  ierr)` or `Aborted`. `Aborted` stands for the panic in `bgrat` (see below).
  `pbeta` returns `Option<Double>`, where `None` is that same panic.

Behaviour of the code as written, which the model keeps:

- `DBL_MIN` is `f64::MIN`, the most negative double (`src/toms708.rs:21`).
  Hence the tests `w < DBL_MIN` (`l140`), `0 < w1 < DBL_MIN` (`l131`) and
  `|s| < DBL_MIN` (`bd0`) never hold for finite values.
- `l_end_from_w` on the log scale writes `log1p(-w)` into both slots
  (`Toms708.EndFromWLogSlots`).
- `l_end_from_w1` on the log scale takes `log(-w1)`, which is NaN for a
  positive `w1` (`Toms708.EndFromW1LogSlot`).
- The term loop of `bgrat` starts at `n = 0` and computes `n - 1` on `usize`
  in its first step, which panics. A `bgrat` call therefore returns only
  through its two early exits, with status 1 or 2, and otherwise aborts
  (`Toms708.Bgrat`). So a computing `bratio` call ends with status 0, 11 or
  12, or aborts. The statuses 13 and 14, which the loop would report, cannot
  occur.
- The `fg == 1` exit of `ebd0` returns the pair as `(yl, yh)`
  (`Bd0.Ebd0UnitScale`).
- `ebd0` computes its scale as `floor(s / (0.5 + i/256 + 0.5))`
  (`src/bd0.rs:652`), with the second `0.5` inside the division. The scale f
  therefore lies in [682, 1024] (`Bd0.ScaleFRange`). The table rows hold
  log(f/1024) for f = floor(1024 / (1/2 + i/256) + 1/2), which lies in
  [1024, 2048]: row 0 is log(2048/1024) and row 128 is log(1024/1024).
  The quotient M fg / x, which the derivation at `src/bd0.rs:659-677` takes
  to be close to 1, stays in (0, 0.7) (`Bd0.ScaledQuotientBelow`).
- The table loop of `ebd0` subtracts `x * BD0_SCALE[0][j]`
  (`src/bd0.rs:685`) without the factor e that the identity
  x log(fg) = x (row i - e row 0) needs. So on its normal exit the pair adds
  up to d + x (row i - row 0) + M - M fg (`Bd0.Ebd0Normal`), which is not
  x log(x/M) + M - x. An example is `ebd0(1, 2)`: frexp(2) = (1/2, 2), so
  i = 0 and fg = 1/4. The pair then sums to 3/2 - log1pmx(-1/2), about 1.693,
  while bd0(1, 2) = 1 - log 2 is about 0.307 (`Bd0.Ebd0AtOneTwo`).
- In `pbeta_raw` the case `a == 0` returns the top of the tail for every
  x < 1, including x <= 0. The degenerate-parameter test comes before the
  `x <= 0` test (`Pbeta.PbetaPointMass`).

## Model

| member | source | states |
|---|---|---|
| Dpq.ScaleValues | src/dpq.rs:3-9 | probability 0 is 0 or -Inf and probability 1 is 1 or 0, on the linear and log scale |
| Dpq.TailSymmetry | src/dpq.rs:11-17 | flipping the tail exchanges r_dt_0 and r_dt_1, for all four flag combinations |
| Dpq.LowerTail | src/dpq.rs:11-17 | in the lower tail r_dt_0 and r_dt_1 are r_d__0 and r_d__1 |
| Dpq.LinearComplement | src/dpq.rs:11-17 | on the linear scale the two ends of either tail are finite and sum to 1 |
| Dpq.LogScaleIsLog | src/dpq.rs:3-17 | every log-scale value is the log of the linear-scale value, for any conforming log |
| I1mach.Entries | src/i1mach.rs:11-28 | the sixteen table entries: units, word size, single and double precision |
| I1mach.OutOfRange | src/i1mach.rs:29 | every argument outside 1..16 gives 0 |
| I1mach.Consistent | src/i1mach.rs:17-28 | bits per int = bits per char times size, INT_MAX = 2^31 - 1, emin = 3 - emax for both precisions |
| Chebyshev.ChebyshevInit | src/chebyshev.rs:27-40 | None exactly for an empty series; otherwise the largest index whose suffix sum of absolute values exceeds eta, or 0; all indices up to it exceed eta; eta < 0 selects the last index |
| Chebyshev.SuffixSumMonotone | src/chebyshev.rs:32-39 | suffix sums of absolute values only grow towards the front and are non-negative |
| Chebyshev.ChebyshevEval | src/chebyshev.rs:44-65 | NaN for n < 1, n > len or n > 1000 and for x outside [-1.1, 1.1] or NaN; otherwise exactly c0/2 + sum of c_k T_k(x) over the first n coefficients |
| Chebyshev.ClenshawSum | src/chebyshev.rs:55-64 | the backward recurrence b_k = 2x b_{k+1} - b_{k+2} + a_k ends with (b_0 - b_2)/2 equal to the Chebyshev series |
| Chebyshev.ClenshawStep | src/chebyshev.rs:58-62 | one recurrence step keeps the identity: suffix series = b_k T_k - b_{k+1} T_{k-1} |
| Chebyshev.ChebyshevUnique | src/chebyshev.rs:55-64 | two sequences obeying the three-term recurrence with the same start agree everywhere, so the proof does not depend on the choice of T |
| Chebyshev.SeriesAtOne | src/chebyshev.rs:55-64 | at x = 1 every T_k is 1 and the series is the coefficient sum |
| Cospi.NaNUnchanged | src/cospi.rs:6-8 | cospi, sinpi and tanpi return a NaN argument unchanged |
| Cospi.InfiniteArgument | src/cospi.rs:9-11 | an infinite argument is not rejected: it reduces to NaN and the platform function yields NaN |
| Cospi.CospiReduction | src/cospi.rs:13 | cospi reduces the absolute value of x to its representative modulo 2 in [0, 2) |
| Cospi.SinpiReduction | src/cospi.rs:34-40 | sinpi reduces x to its representative modulo 2 in (-1, 1] |
| Cospi.TanpiReduction | src/cospi.rs:61-67 | tanpi reduces x to its representative modulo 1 in (-1/2, 1/2] |
| Cospi.RepresentativeUnique | src/cospi.rs:13-40 | two representatives modulo the period that are closer than it coincide |
| Cospi.Periodic | src/cospi.rs:34-67 | sinpi has period 2 and tanpi period 1 |
| Cospi.CospiEven | src/cospi.rs:13 | cospi(-x) = cospi(x), NaN and infinities included |
| Cospi.CospiPeriodic | src/cospi.rs:13 | cospi has period 2 on the non-negative half-line |
| Cospi.CospiAtIntegers | src/cospi.rs:17-22 | cospi is 1 at even and -1 at odd integers |
| Cospi.CospiAtHalfIntegers | src/cospi.rs:14-16 | cospi is exactly 0 at every half-integer |
| Cospi.SinpiAtIntegers | src/cospi.rs:41-43 | sinpi is exactly 0 at every integer |
| Cospi.SinpiAtQuarterPeriods | src/cospi.rs:44-49 | sinpi is exactly 1 at 2m + 1/2 and -1 at 2m - 1/2 |
| Cospi.TanpiExactValues | src/cospi.rs:69-79 | tanpi is 0 at integers, NaN at half-integers, 1 at m + 1/4 and -1 at m - 1/4 |
| MathCospi.AgreesWithCore | math/src/cospi.rs:4-77 | the copy in the math crate computes the same three functions, argument by argument |
| MathCospi.SpecialArguments | math/src/cospi.rs:5-10 | NaN is returned unchanged and an infinite argument ends as NaN |
| MathCospi.CospiValues | math/src/cospi.rs:12-22 | cospi is even, 1 at even and -1 at odd integers, 0 at half-integers |
| MathCospi.SinpiValues | math/src/cospi.rs:33-48 | sinpi is 0 at integers, 1 at 2m + 1/2 and -1 at 2m - 1/2, with period 2 |
| MathCospi.TanpiValues | math/src/cospi.rs:59-76 | tanpi is 0, NaN, 1 and -1 at m, m + 1/2, m + 1/4, m - 1/4, with period 1 |
| Lgamma.LgammafnSign | src/lgamma.rs:31-91 | a supplied sign slot receives the sign rule for every x, before the NaN and pole checks; the result is the log-gamma value |
| Lgamma.Lgammafn | src/lgamma.rs:23-25 | lgammafn is lgammafn_sign without a slot |
| Lgamma.GammaSignRule | src/lgamma.rs:32-37 | the sign is -1 exactly for finite negative x with floor(-x) even, and 1 otherwise |
| Lgamma.TruncFixed | src/lgamma.rs:43 | x == trunc(x) holds exactly for the integral doubles and the infinities |
| Lgamma.NaNAndPoles | src/lgamma.rs:39-46 | NaN gives NaN; an integer x <= 0 or -Inf gives +Inf |
| Lgamma.Magnitude | src/lgamma.rs:48-60 | away from the poles: -log of x's magnitude below 1e-306, log of gammafn's magnitude up to 10; +Inf beyond XMAX and at +Inf |
| Lgamma.LargePositive | src/lgamma.rs:62-70 | 10 < x <= XMAX: x(log x - 1) above 1e17, Stirling without correction above 4934720, with lgammacor below |
| Lgamma.LargeNegative | src/lgamma.rs:72-90 | x < -10 non-integral: NaN when sinpi(-x) is 0; otherwise the reflection formula, or NaN when x is within half precision of a negative integer |
| Lgamma.GuardOutcome | src/lgamma.rs:83-89 | the precision guard either passes the answer or replaces it by NaN |
| Bd0.Bd0 | src/bd0.rs:52-79 | NaN for non-finite arguments or M = 0; in the Taylor branch the partial sum at the first of terms 1..999 that leaves it unchanged; otherwise, also when the branch is skipped, the direct formula with the warning |
| Bd0.TaylorSum | src/bd0.rs:57-76 | the loop stops at the first term that changes nothing, or reports none of the 999 |
| Bd0.ExactSeriesNeverStalls | src/bd0.rs:57-78 | without rounding, for x different from M and from 0, no term leaves the sum unchanged, so bd0 falls through to the direct formula |
| Bd0.ExactStall | src/bd0.rs:67-75 | without rounding a term leaves the sum unchanged only if it is zero |
| Bd0.ExactSeriesAtMean | src/bd0.rs:57-75 | at x = M the Taylor branch applies and the series stops at its first term with 0 |
| Bd0.ScaleShape | src/bd0.rs:82-602 | BD0_SCALE has 129 rows and its last row (log 1) is zero |
| Bd0.SplitContract | src/bd0.rs:604-611 | add1 splits d into an integer and a remainder in [-1/2, 1/2) that sum to d |
| Bd0.Add1 | src/bd0.rs:604-611 | yh grows by an integer, yl by less than 1/2 in magnitude, and yh + yl by exactly d |
| Bd0.Ebd0 | src/bd0.rs:619-695 | ebd0 computes the value of its specification, and it aborts exactly when the table index is out of range |
| Bd0.Ebd0SpecialCases | src/bd0.rs:627-639 | in order: x = M gives (0, 0), x = 0 gives (M, 0), M = 0 gives (+Inf, 0) |
| Bd0.Ebd0OverflowExits | src/bd0.rs:642-691 | past the special cases, the result is (+Inf, 0) when M_LN2 (-e) exceeds 1 + DBL_MAX / x (lines 645-648), when the scale fg is +Inf (lines 652-657), and, past the fg = 1 exit with the index in range, when the table loop leaves a non-finite high part (lines 687-691) |
| Bd0.IndexBound | src/bd0.rs:650 | for a frexp fraction in [1/2, 1) the table index lies in [0, 128] |
| Bd0.Ebd0InBounds | src/bd0.rs:642-686 | for finite positive x and M both table rows read are in bounds, so ebd0 cannot abort |
| Bd0.ScaleColumnsSum | src/bd0.rs:683-686 | the table loop keeps every value finite and grows yh + yl by exactly x times (row i - row 0) |
| Bd0.ScaleColumnsParts | src/bd0.rs:683-686 | the table loop adds an integer to yh and moves yl by a bounded amount |
| Bd0.Ebd0TableSum | src/bd0.rs:679-694 | from the split first term, the result is finite with an integral high part, a low part within 5.5, and the exact sum d + x(row i - row 0) + M - M fg |
| Bd0.Ebd0UnitScale | src/bd0.rs:680-682 | when fg is 1 the pair comes back as (yl, yh): fractional part first, integral part second, summing to the first term |
| Bd0.Ebd0Normal | src/bd0.rs:619-695 | for finite positive x different from M on the normal exit: no abort, an integral high part, a small low part, and yh + yl = d + x(row i - row 0) + M - M fg |
| Bd0.ScaleFRange | src/bd0.rs:650-652 | the scale f = floor(1024 / (1/2 + i/256 + 1/2)) of an index in [0, 128] lies in [682, 1024], with 1024 at i = 0 and 682 at i = 128 |
| Bd0.ScaledQuotientBelow | src/bd0.rs:642-659 | for finite positive x and M with a finite scale fg, M fg / x lies in (0, 0.7), so it is not close to 1 |
| Bd0.Ebd0AtOneTwo | src/bd0.rs:642-694 | ebd0(1, 2): frexp gives (1/2, 2), index 0 and fg = 1/4; the table adds nothing, and the pair sums to 3/2 - log1pmx(-1/2) |
| Toms708.MinMax | src/toms708.rs:28-42 | without NaN min and max are the smaller and larger argument; with a NaN both return the second argument |
| Toms708.Fmax2IsMax | src/toms708.rs:89-97 | fmax2 is NaN exactly when an argument is, is otherwise the larger one, and is symmetric |
| Toms708.SameAsDpq | src/toms708.rs:65-79 | the private r_d_0 and r_d_1 agree with r_d__0 and r_d__1 |
| Toms708.D1machValues | src/toms708.rs:54-63 | 2 d1mach(3) is DBL_EPSILON, max(DBL_EPSILON, 1e-15) is 1e-15, and d1mach(1) is the negative of d1mach(2) |
| Toms708.ExpargValues | src/toms708.rs:1769-1774 | exparg(0) and exparg(1) from the binary64 exponent range, truncating to 709 and 708 |
| Toms708.EsumSingleExp | src/toms708.rs:1778-1805 | esum is the plain sum on the log scale; one exponential exactly when mu lies between 0 and -x, otherwise the product of two |
| Toms708.RLog1ExpAtNegInf | src/toms708.rs:44-50 | r_log1_exp(-Inf) = 0 for a conforming library |
| Toms708.LEnd | src/toms708.rs:103-110 | w and w1 are exchanged exactly when do_swap, and left alone otherwise |
| Toms708.OrientedInvolution | src/toms708.rs:103-110 | orienting twice restores the pair |
| Toms708.OneMinusValues | src/toms708.rs:112-120 | 0.5 - u + 0.5 is the exact complement of a finite u and undoes itself; NaN stays NaN, infinities flip |
| Toms708.ComplementarySum | src/toms708.rs:103-130 | complementary finite values sum to 1, and the relation survives the swap |
| Toms708.EndFromW | src/toms708.rs:112-120 | on the linear scale l_end_from_w leaves a complementary pair |
| Toms708.EndFromW1 | src/toms708.rs:122-130 | on the linear scale l_end_from_w1 leaves a complementary pair |
| Toms708.LEndFromW | src/toms708.rs:112-120 | the block computes the pair EndFromW describes |
| Toms708.LEndFromW1 | src/toms708.rs:122-130 | the block computes the pair EndFromW1 describes |
| Toms708.LEndFromW1Log | src/toms708.rs:132-142 | the block computes the pair EndFromW1Log describes |
| Toms708.EndFromWLogSlots | src/toms708.rs:115 | on the log scale both slots receive log1p(-w) |
| Toms708.EndFromW1LogSlot | src/toms708.rs:125 | on the log scale a positive finite w1 leaves NaN in its slot |
| Toms708.EndFromW1LogAtNegInf | src/toms708.rs:132-142 | a log w1 of -Inf ends as the pair (1, 0) on the requested scale, oriented |
| Toms708.BpserPair | src/toms708.rs:298-316 | on the linear scale the l_w_bpser pair is complementary |
| Toms708.W1BpserPair | src/toms708.rs:319-337 | on the linear scale the l_w1_bpser pair is complementary |
| Toms708.BfracPair | src/toms708.rs:340-360 | on the linear scale the l_bfrac pair is complementary |
| Toms708.LWBpser | src/toms708.rs:298-316 | the block computes BpserPair |
| Toms708.LW1Bpser | src/toms708.rs:319-337 | the block computes W1BpserPair |
| Toms708.LBfrac | src/toms708.rs:340-360 | the block computes BfracPair |
| Toms708.Bgrat | src/toms708.rs:1414-1528 | w is unchanged; the call panics exactly when both early exits are passed; otherwise it reports status 1 (b z = 0) or 2 (log u = -Inf) |
| Toms708.BupScaleExponent | src/toms708.rs:919-929 | the scale exponent of bup is 0 or 708 |
| Toms708.PeakIndexBounds | src/toms708.rs:947-957 | the peak index k lies in [0, n - 1] |
| Toms708.SettleBounds | src/toms708.rs:969-977 | the second loop ends in [i, nm1], past i when it runs at all, and stops early only on convergence |
| Toms708.Bup | src/toms708.rs:913-986 | the value of bup; k is the peak index; in a ghost record of the loop indices, the loops visit the indices 0, 1, ... in increasing order, each of [0, n - 1) at most once, [0, k) before [k, ...) |
| Toms708.BupSummed | src/toms708.rs:941-985 | past the early return: the peak index, the visit order of both loops, and the scaled sum |
| Toms708.BupCall | src/toms708.rs:913-986 | a call of bup whose value alone is used |
| Toms708.BupValueSummed | src/toms708.rs:979-985 | past the early return the result is the leading factor times the sum, or plus its log |
| Toms708.BupLoops | src/toms708.rs:958-977 | the two loops visit k <= count <= nm1 indices, in order |
| Toms708.RiseLoop | src/toms708.rs:960-964 | the first loop visits exactly 0..k - 1 and computes Rise |
| Toms708.SettleLoop | src/toms708.rs:969-977 | the second loop continues the visit list in order and computes Settle |
| Toms708.SplitB0Bounds | src/toms708.rs:377-382 | for 1 < b0 the split is b0 = n + b0' with n >= 1 and 0 < b0' <= 1, and reverting it gives b0 back |
| Toms708.L140Spec | src/toms708.rs:364-423 | l140 either reports a bgrat status or keeps ierr; in the latter case on the linear scale it leaves a complementary pair |
| Toms708.L140GratSpec | src/toms708.rs:402-422 | the bgrat tail of l140 either aborts or reports 11 or 12 |
| Toms708.BgratEndSpec | src/toms708.rs:410-422 | bgrat followed by l_end_from_w: an abort, or the pair with 10 plus the bgrat status |
| Toms708.L140 | src/toms708.rs:364-423 | the block computes L140Spec for 1 < b0 < 40 |
| Toms708.L131Spec | src/toms708.rs:426-490 | l131 either aborts or reports 11 or 12; without the retry, on the linear scale it leaves a complementary pair |
| Toms708.L131 | src/toms708.rs:426-490 | the block computes L131Spec |
| Toms708.L131WithoutBup | src/toms708.rs:456-480 | when bgrat cannot start (w1 = 0, no bup before), l131 ends with the pair (1, 0) on the requested scale |
| Toms708.LambdaForms | src/toms708.rs:510-518 | with y = 1 - x every form of lambda is a y - b x, and mirroring negates it |
| Toms708.MirrorInvolution | src/toms708.rs:519-535 | mirroring twice restores (a, b, x, y); no swap changes nothing |
| Toms708.FinalSwap | src/toms708.rs:519-535 | for a, b > 1, do_swap holds exactly when a y < b x; the lambda handed on is non-negative and is the lambda of the mirrored problem |
| Toms708.FinalRegimeRule | src/toms708.rs:540-563 | below b0 = 40: bpser when b0 x0 <= 0.7 or, on the log scale, lambda > 650, else l140; otherwise bfrac, unless the smaller parameter exceeds 100 and lambda is at most 3% of it (basym) |
| Toms708.FinalBranchSpec | src/toms708.rs:540-571 | every branch for a, b > 1 keeps ierr or reports a bgrat status, and leaves a complementary pair on the linear scale when it keeps ierr |
| Toms708.FinalElseSpec | src/toms708.rs:493-572 | bratio_final_else, oriented, has the same status and complement property |
| Toms708.BratioFinalElse | src/toms708.rs:493-572 | the block computes FinalElseSpec |
| Toms708.LowMirrorHalf | src/toms708.rs:736-748 | after the swap on x > 1/2 the point satisfies x0 <= 1/2 <= y0 and x0 + y0 = 1 |
| Toms708.LowTests | src/toms708.rs:752-764 | the fpser and apser tests as real inequalities: b0 < eps min(a0, 1), and a0 < eps min(b0, 1) with b0 x0 <= 1 |
| Toms708.LowRegimeRule | src/toms708.rs:752-814 | fpser when b0 < eps min(a0, 1); then apser; bgrat without bup exactly when neither applies, b0 > 15, x0 < 0.29 and the small-x0 bpser test fails; bpser when a0 >= b0 and both are at most 1 |
| Toms708.LowBranchSpec | src/toms708.rs:752-814 | every branch for min(a, b) <= 1 keeps ierr or reports a bgrat status, with the complement property |
| Toms708.LowSpec | src/toms708.rs:733-814 | the same for the whole branch, after the swap |
| Toms708.BratioLow | src/toms708.rs:733-814 | the block computes LowSpec |
| Toms708.InputErrorCodes | src/toms708.rs:637-669 | the error code is 0 exactly on admissible arguments, 9 exactly when an argument is NaN, and otherwise one of 1 to 5 |
| Toms708.BratioSpec | src/toms708.rs:610-821 | bratio ends with a status in {0, ..., 7, 9, 11, 12} or aborts; input errors return (r_d_0, r_d_0) with the code; admissible computing calls end with 0, 6, 7, 11 or 12; status 0 on the linear scale gives a complementary pair |
| Toms708.Bratio | src/toms708.rs:610-821 | bratio computes BratioSpec |
| Toms708.BratioBoundary | src/toms708.rs:673-705 | x = 0 gives (0, 1) unless a = 0 (status 6); y = 0 gives (1, 0) unless b = 0 (status 7); then a = 0 gives (1, 0) and b = 0 gives (0, 1) |
| Toms708.TinyComplementary | src/toms708.rs:708-731 | the tiny-parameter ratios b/(a+b) and a/(a+b) are complementary |
| Toms708.TinyRatios | src/toms708.rs:708-731 | the block computes the tiny-parameter pair, with log and log1p on the log scale |
| Toms708.BratioTiny | src/toms708.rs:707-731 | when both parameters are below 1e-18 the result does not depend on x, and on the linear scale it is (b/(a+b), a/(a+b)) |
| Pbeta.Pbeta | src/pbeta.rs:60-67 | pbeta computes PbetaSpec |
| Pbeta.PbetaRaw | src/pbeta.rs:8-51 | pbeta_raw computes PbetaRawSpec |
| Pbeta.PbetaNaN | src/pbeta.rs:61-63 | a NaN in x, a or b gives NaN |
| Pbeta.PbetaNegativeParameter | src/pbeta.rs:64-66 | a negative parameter gives NaN |
| Pbeta.PbetaAtLeastOne | src/pbeta.rs:9-11 | x >= 1 gives the top of the tail, whatever the accepted parameters are |
| Pbeta.PbetaBothZero | src/pbeta.rs:15-17 | a = b = 0 with x < 1 gives 1/2 (-ln 2 on the log scale) in either tail, x <= 0 included |
| Pbeta.PbetaPointMass | src/pbeta.rs:18-31 | mass at 0 for a = 0 or b = Inf with a finite; at 1 for b = 0 or a = Inf with b finite; at 1/2 for a = b = Inf |
| Pbeta.PbetaNonPositive | src/pbeta.rs:33-35 | with finite positive parameters x <= 0 gives the bottom of the tail |
| Pbeta.PbetaConsultsBratio | src/pbeta.rs:9-50 | among accepted arguments exactly the interior ones reach bratio; there the result is w or wc of its pair, elsewhere an edge value |
| Pbeta.PbetaInterior | src/pbeta.rs:37-50 | interior arguments with y = 0.5 - x + 0.5 pass every bratio check; bratio aborts or ends with 0, 11 or 12; the result is w for the lower tail and wc for the upper |
| Pbeta.PbetaEdgeTails | src/pbeta.rs:9-35 | in every case decided before bratio the two linear tails are complementary |
| Pbeta.DegenerateSide | src/pbeta.rs:18-31 | apart from a = b = 0, a degenerate value is one end of the tail, the same end for both tails |
| Pbeta.PbetaBratioTails | src/pbeta.rs:37-50 | in the interior the two tails are the halves of one bratio pair, complementary when bratio ends with status 0 |
| Pbeta.PbetaRegressionValues | test/src/test_math/pbeta.rs:192-196 | the five fixed values for degenerate arguments that the regression tests assert |

## Left out

- Floating-point rounding: finite arithmetic is exact and signed zero is not modelled. Every threshold test is therefore idealised; for instance `x + y - 0.5 - 0.5` is exactly x + y - 1.
- The numeric kernels of `toms708.rs` (`bpser`, `bfrac`, `basym`, `fpser`, `apser`, `brcomp`, `brcmp1`, `grat_r`, `rexpm1`, `alnrel`, `rlog1`, `erf_` and the panic stubs `gam1`, `algdiv` and the rest) are opaque functions. Their values are series and rational approximations whose accuracy has no exact statement. The stubs are treated as functions, not as panics.
- `bup`: the values of its sums are computed by the model but nothing is proved about their accuracy; only the index logic and scaling are.
- `grat_r` and the series of `bgrat` after its two early exits are not modelled: the loop panics on its first step, so nothing after it runs.
- `Toms708.BratioSpec`: states the statuses and complement property, not the closeness of w to I_x(a, b), which depends on the kernels.
- `logspace_add`, `r_d_exp` and the other unused helpers of `toms708.rs` are not part of this model.
- The values of `log`, `exp`, `pow`, `sin`, `cos`, `tan`, `log1p`, `expm1` and `frexp` are taken from the platform library record; only the C99 facts in `Libm.Valid` are assumed of them.
- `println!`/`warn!` diagnostics and the NaN-returning warning helper `ml_warn_return_nan` of `src/nmath.rs` are not modelled, except that `Bd0.Bd0` reports whether its convergence warning would be printed.
- `pbeta_raw` imports `M_LN2` from the crate's `rmath` module, whose definition of it is not part of this model; the model uses the value written at the top of `src/toms708.rs`. `M_LN_SQRT_2PI` of `src/lgamma.rs` is a named constant with the value of log(sqrt(2 pi)) that `src/toms708.rs:14` writes.
- Chebyshev coefficients are modelled as reals and the evaluation as exact, so the bound on the truncation error is stated through the suffix sums only.
- `Bd0.Ebd0`: as written, the pair does not sum to x log(x/M) + M - x. The model states what the code computes, d + x (row i - row 0) + M - M fg, and proves nothing about its distance from the deviance.
- `Bd0.Bd0`: the rounding of the Taylor additions is a parameter; the series' convergence under IEEE rounding is not proved.
- `Bd0.ScaleColumnsParts`: the bound on the movement of yl is stated non-strictly.
- `Ieee.FModContract`: stated for the divisors 1 and 2 that the core uses, not for every divisor.
- `Cospi.CospiPeriodic`: stated for x >= 0; for negative x it follows from `Cospi.CospiEven`.
- `gammafn`, `lgammacor`, `log1pmx` and the other special-function files are opaque parameters or not part of this model.
