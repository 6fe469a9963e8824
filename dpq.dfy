/** The tail and log-scale selectors of src/dpq.rs: the probabilities 0 and 1
    written on the requested scale (`log_p`) and in the requested tail
    (`lower_tail`). */
module Dpq {
  import opened Ieee
  import Libm

  /** `r_d__0`: probability 0 on the requested scale. */
  function RD0(logP: bool): Double
  {
    if logP then NegInf else Fin(0.0)
  }

  /** `r_d__1`: probability 1 on the requested scale. */
  function RD1(logP: bool): Double
  {
    if logP then Fin(0.0) else Fin(1.0)
  }

  /** `r_dt_0`: the bottom of the requested tail. */
  function RDt0(lowerTail: bool, logP: bool): Double
  {
    if lowerTail then RD0(logP) else RD1(logP)
  }

  /** `r_dt_1`: the top of the requested tail. */
  function RDt1(lowerTail: bool, logP: bool): Double
  {
    if lowerTail then RD1(logP) else RD0(logP)
  }

  /** Probability 0 and 1 on the linear scale, and their logarithms
      (log 0 = -Inf) on the log scale. */
  lemma ScaleValues(logP: bool)
    ensures !logP ==> RD0(logP) == Fin(0.0) && RD1(logP) == Fin(1.0)
    ensures logP ==> RD0(logP) == NegInf && RD1(logP) == Fin(0.0)
  {
  }

  /** Flipping the tail exchanges the two ends. */
  lemma TailSymmetry(lowerTail: bool, logP: bool)
    ensures RDt0(lowerTail, logP) == RDt1(!lowerTail, logP)
    ensures RDt1(lowerTail, logP) == RDt0(!lowerTail, logP)
  {
  }

  /** In the lower tail the tail forms are the plain forms. */
  lemma LowerTail(logP: bool)
    ensures RDt0(true, logP) == RD0(logP)
    ensures RDt1(true, logP) == RD1(logP)
  {
  }

  /** On the linear scale the two ends of either tail are complementary. */
  lemma LinearComplement(lowerTail: bool)
    ensures RDt0(lowerTail, false).Fin? && RDt1(lowerTail, false).Fin?
    ensures RDt0(lowerTail, false).v + RDt1(lowerTail, false).v == 1.0
  {
  }

  /** Each log-scale value is the logarithm of the linear-scale value, for any
      C99-conforming `log`. */
  lemma LogScaleIsLog(lib: Libm.Libm, lowerTail: bool)
    requires Libm.Valid(lib)
    ensures RD0(true) == lib.log(RD0(false))
    ensures RD1(true) == lib.log(RD1(false))
    ensures RDt0(lowerTail, true) == lib.log(RDt0(lowerTail, false))
    ensures RDt1(lowerTail, true) == lib.log(RDt1(lowerTail, false))
  {
  }
}
