/**
 Background rejection, 1 / FPR. The script computes it in two places. At
 the target signal efficiency a zero FPR gives an infinite rejection. Along
 the ROC curve an entry is undefined (NaN) wherever the FPR is not positive.
 The FPR at the target comes from interpolating the ROC curve and is an
 input here.
 */
module Rejection {

  /** The signal efficiency (TPR) at which rejection is reported, for every process. */
  const TargetTpr: real := 0.5

  /** Rejection at the target efficiency. */
  datatype Rejection = Infinite | Finite(value: real)

  /** One entry of the rejection curve. */
  datatype CurveEntry = Undefined | Value(value: real)

  /** Rejection from `fprAtTarget`, the FPR the ROC curve reaches when
      interpolated at `TargetTpr`. */
  function RejectionAtTarget(fprAtTarget: real): (r: Rejection)
    ensures r.Infinite? <==> fprAtTarget == 0.0
    ensures r.Finite? ==> r.value * fprAtTarget == 1.0
  {
    if fprAtTarget == 0.0 then Infinite else Finite(1.0 / fprAtTarget)
  }

  /** One rejection-curve entry: 1/fpr where fpr is positive, otherwise undefined. */
  function CurveEntryAt(fpr: real): (e: CurveEntry)
    ensures e.Undefined? <==> fpr <= 0.0
    ensures e.Value? ==> e.value * fpr == 1.0 && e.value > 0.0
  {
    if fpr > 0.0 then Value(1.0 / fpr) else Undefined
  }

  /** The rejection curve over the ROC curve's FPR values, entry by entry. */
  function RejectionCurve(fpr: seq<real>): (r: seq<CurveEntry>)
    ensures |r| == |fpr|
    ensures forall i :: 0 <= i < |r| ==> (r[i].Undefined? <==> fpr[i] <= 0.0)
    ensures forall i :: 0 <= i < |r| ==> r[i].Value? ==> r[i].value * fpr[i] == 1.0
  {
    if |fpr| == 0 then [] else [CurveEntryAt(fpr[0])] + RejectionCurve(fpr[1..])
  }

  /** Where the FPR is positive the two computations agree; they differ only at
      a zero FPR (infinite versus undefined) and at a negative one. */
  lemma GuardsAgreeOnPositiveFpr(fpr: real)
    ensures fpr > 0.0 ==> RejectionAtTarget(fpr) == Finite(CurveEntryAt(fpr).value)
    ensures fpr == 0.0 ==> RejectionAtTarget(fpr) == Infinite && CurveEntryAt(fpr) == Undefined
  {
  }

  /** An FPR in (0, 1] gives a rejection of at least 1, at the target as on the curve. */
  lemma RejectionAtLeastOne(fpr: real)
    requires 0.0 < fpr <= 1.0
    ensures RejectionAtTarget(fpr).Finite? && RejectionAtTarget(fpr).value >= 1.0
    ensures CurveEntryAt(fpr).Value? && CurveEntryAt(fpr).value >= 1.0
  {
  }

  /** A lower FPR means a higher rejection. */
  lemma RejectionAntitone(f: real, g: real)
    requires 0.0 < f <= g
    ensures CurveEntryAt(f).value >= CurveEntryAt(g).value
  {
  }

  /** The ROC routine returns FPR values in non-decreasing order; the defined
      entries of the rejection curve are then non-increasing. */
  lemma {:induction false} CurveNonIncreasing(fpr: seq<real>, i: int, j: int)
    requires forall a, b :: 0 <= a <= b < |fpr| ==> fpr[a] <= fpr[b]
    requires 0 <= i <= j < |fpr|
    requires RejectionCurve(fpr)[i].Value?
    ensures RejectionCurve(fpr)[j].Value?
    ensures RejectionCurve(fpr)[i].value >= RejectionCurve(fpr)[j].value
  {
    CurveEntries(fpr, i);
    CurveEntries(fpr, j);
    RejectionAntitone(fpr[i], fpr[j]);
  }

  /** Entry `i` of the curve is the guarded rejection of `fpr[i]`. */
  lemma {:induction false} CurveEntries(fpr: seq<real>, i: int)
    requires 0 <= i < |fpr|
    ensures RejectionCurve(fpr)[i] == CurveEntryAt(fpr[i])
    decreases i
  {
    if i > 0 {
      CurveEntries(fpr[1..], i - 1);
    }
  }
}
