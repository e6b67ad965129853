/** The adaptive amount thresholds and `adjustLimits`, the feedback rule
    that moves them. The source computes in `double` with weight 0.2 and
    rounds up with `Math.ceil`; here the same quantities are exact:
    `ceil((1 - 0.2)·x ± 0.2·amount)` is `ceil((4x ± amount) / 5)`. */
module Limits {
  import opened Decision

  /** The pair `(maxAllowed, maxManual)` splitting the amount axis into
      the ALLOWED, MANUAL_PROCESSING and PROHIBITED zones. */
  datatype Thresholds = Thresholds(maxAllowed: int, maxManual: int)

  const InitialThresholds := Thresholds(200, 1500)

  /** The invariant the clamp restores after every adjustment. */
  predicate Ordered(t: Thresholds) {
    1 <= t.maxAllowed < t.maxManual
  }

  /** The least integer at or above `n / 5`. */
  function CeilFifth(n: int): (r: int)
    ensures 5 * r - 5 < n <= 5 * r
  {
    (n + 4) / 5
  }

  /** `ceil((1 - w)·x - w·amount)`: the update toward a stricter verdict.
      It never raises a bound that is at least `-amount`. */
  function Tighten(x: int, amount: int): (r: int)
    ensures 5 * r - 5 < 4 * x - amount <= 5 * r
    ensures x + amount >= 0 ==> r <= x
  {
    CeilFifth(4 * x - amount)
  }

  /** `ceil((1 - w)·x + w·amount)`: the update toward a looser verdict,
      a fifth of the way from the bound to the amount. */
  function Loosen(x: int, amount: int): (r: int)
    ensures 5 * r - 5 < 4 * x + amount <= 5 * r
    ensures x <= amount ==> x <= r <= amount
    ensures amount <= x ==> amount <= r <= x
  {
    CeilFifth(4 * x + amount)
  }

  function Max(a: int, b: int): int {
    if a >= b then a else b
  }

  /** The clamp at the end of `adjustLimits`: the least change that makes the pair ordered;
      an ordered pair is left alone. */
  function Clamp(t: Thresholds): (r: Thresholds)
    ensures Ordered(r)
    ensures r.maxAllowed == Max(1, t.maxAllowed)
    ensures r.maxManual == Max(t.maxManual, r.maxAllowed + 1)
    ensures Ordered(t) ==> r == t
  {
    var a := if t.maxAllowed <= 0 then 1 else t.maxAllowed;
    var m := if t.maxManual <= a then a + 1 else t.maxManual;
    Thresholds(a, m)
  }

  /** The bound that separates severity `b - 1` from severity `b`
      (`maxAllowed` for b = 1, `maxManual` for b = 2) is recomputed exactly
      when the original verdict and the feedback lie on different sides of
      it: lowered by (x + amount)/5, a fifth of the way toward -amount, when
      the feedback is stricter, and moved a fifth of the way toward the
      amount when it is looser (which lowers a bound that lies above the
      amount). Rounding up can leave a recomputed bound where it was. */
  function MoveBound(x: int, amount: int, original: Verdict, feedback: Verdict, b: nat): int {
    if (Severity(original) < b) == (Severity(feedback) < b) then x
    else if Severity(feedback) > Severity(original) then Tighten(x, amount)
    else Loosen(x, amount)
  }

  /** `adjustLimits`, in the case structure of the source. The
      result is always ordered, and for a feedback that differs from the
      original verdict it is the clamped per-case table, which reads: a
      bound is recomputed iff the correction crosses it, and the clamp may
      then raise either bound. */
  function AdjustLimits(t: Thresholds, amount: int, original: Verdict, feedback: Verdict): (r: Thresholds)
    ensures Ordered(r)
    ensures original != feedback ==>
      r == Clamp(Thresholds(MoveBound(t.maxAllowed, amount, original, feedback, 1),
                            MoveBound(t.maxManual, amount, original, feedback, 2)))
  {
    var raw :=
      if original == Allowed then
        if feedback == ManualProcessing then t.(maxAllowed := Tighten(t.maxAllowed, amount))
        else Thresholds(Tighten(t.maxAllowed, amount), Tighten(t.maxManual, amount))
      else if original == ManualProcessing then
        if feedback == Allowed then t.(maxAllowed := Loosen(t.maxAllowed, amount))
        else t.(maxManual := Tighten(t.maxManual, amount))
      else
        if feedback == Allowed then Thresholds(Loosen(t.maxAllowed, amount), Loosen(t.maxManual, amount))
        else t.(maxManual := Loosen(t.maxManual, amount));
    Clamp(raw)
  }

  /** ALLOWED corrected to PROHIBITED for amount 300 at (200, 1500) gives
      (ceil(0.8·200 − 60), ceil(0.8·1500 − 60)) = (100, 1140). A looser
      correction moves the bound toward the amount, which lowers it when the
      amount lies below: MANUAL_PROCESSING corrected to ALLOWED for amount
      100 gives ceil(0.8·200 + 20) = 180. A crossed bound can stay put:
      ALLOWED corrected to MANUAL_PROCESSING for amount 1 at (1, 10) gives
      ceil(0.8 - 0.2) = 1 again. */
  lemma AdjustExample()
    ensures AdjustLimits(InitialThresholds, 300, Allowed, Prohibited) == Thresholds(100, 1140)
    ensures AdjustLimits(InitialThresholds, 300, ManualProcessing, Allowed) == Thresholds(220, 1500)
    ensures AdjustLimits(InitialThresholds, 100, ManualProcessing, Allowed) == Thresholds(180, 1500)
    ensures AdjustLimits(Thresholds(1, 10), 1, Allowed, ManualProcessing) == Thresholds(1, 10)
  {
  }

  /** A stricter correction never raises either bound of an ordered pair. */
  lemma StricterNeverRaises(t: Thresholds, amount: int, original: Verdict, feedback: Verdict)
    requires Ordered(t) && amount >= 1
    requires Severity(feedback) > Severity(original)
    ensures AdjustLimits(t, amount, original, feedback).maxAllowed <= t.maxAllowed
    ensures AdjustLimits(t, amount, original, feedback).maxManual <= t.maxManual
  {
  }

  /** A looser correction for an amount at or above both bounds never
      lowers either bound. */
  lemma LooserNeverLowers(t: Thresholds, amount: int, original: Verdict, feedback: Verdict)
    requires Ordered(t) && amount >= t.maxManual
    requires Severity(feedback) < Severity(original)
    ensures AdjustLimits(t, amount, original, feedback).maxAllowed >= t.maxAllowed
    ensures AdjustLimits(t, amount, original, feedback).maxManual >= t.maxManual
  {
  }
}
