/** Acceptance window and neighbour guard (linien-gateway/app/lock_acceptance.py). */
module LockAcceptance {
  import opened Common

  const SIDEBAND_GUARD_FRACTION := 0.4

  datatype AcceptanceSettings = AcceptanceSettings(captureFraction: real, maxCorrectionSpan: real, settleMs: int)

  datatype AcceptanceWindow = AcceptanceWindow(tolerance: real, bound: Option<real>, tightened: bool)

  function CaptureTolerance(s: AcceptanceSettings, halfRange: real): real {
    Max(0.0, s.captureFraction) * Abs(halfRange)
  }

  function RejectionBound(s: AcceptanceSettings, halfRange: real, sideband: Option<real>): real {
    var bound := Max(0.0, s.maxCorrectionSpan) * Abs(halfRange);
    if sideband.Some? && Abs(sideband.value) > 0.0
    then Min(bound, SIDEBAND_GUARD_FRACTION * Abs(sideband.value))
    else bound
  }

  function AcceptanceWindowFor(s: AcceptanceSettings, halfRange: real, sideband: Option<real>): AcceptanceWindow {
    var rawBound := RejectionBound(s, halfRange, sideband);
    var tolerance := CaptureTolerance(s, halfRange);
    if rawBound <= 0.0 then AcceptanceWindow(tolerance, None, false)
    else if tolerance > 0.5 * rawBound then AcceptanceWindow(0.5 * rawBound, Some(rawBound), true)
    else AcceptanceWindow(tolerance, Some(rawBound), false)
  }

  /**
   * The two thresholds can never meet: wherever a guard exists there is a real
   * correction zone between them, an accepted landing is nearer to the feature
   * asked for than to a PDH neighbour one sideband spacing away, and the window is
   * only ever narrowed from what was configured.
   */
  lemma WindowLeavesCorrectionZone(s: AcceptanceSettings, halfRange: real, sideband: Option<real>, offset: real)
    ensures var w := AcceptanceWindowFor(s, halfRange, sideband);
            && 0.0 <= w.tolerance <= CaptureTolerance(s, halfRange)
            && (w.bound.Some? ==> w.tolerance < w.bound.value)
            && (w.tightened <==> w.tolerance < CaptureTolerance(s, halfRange))
            && (w.bound.None? <==> RejectionBound(s, halfRange, sideband) == 0.0)
            && (w.bound.Some? && sideband.Some? && sideband.value != 0.0 && Abs(offset) <= w.tolerance
                ==> Abs(offset) < Abs(offset - sideband.value) && Abs(offset) < Abs(offset + sideband.value))
  {
    var width := Abs(halfRange);
    assert Max(0.0, s.captureFraction) * width >= 0.0;
    assert Max(0.0, s.maxCorrectionSpan) * width >= 0.0;
  }

  /**
   * The window in full: an offset is accepted exactly if it is within the configured fraction of the feature's half-width
   * and, where there is a guard, less than half-way to it; the guard is the configured span, or 40 % of the sideband
   * spacing if that is nearer.
   */
  lemma AcceptedWithin(s: AcceptanceSettings, halfRange: real, sideband: Option<real>, offset: real)
    ensures var w := AcceptanceWindowFor(s, halfRange, sideband);
            var span := Max(0.0, s.maxCorrectionSpan) * Abs(halfRange);
            && (offset <= w.tolerance <==>
                  offset <= Max(0.0, s.captureFraction) * Abs(halfRange) && (w.bound.Some? ==> 2.0 * offset <= w.bound.value))
            && (w.bound.Some? <==> span > 0.0)
            && (w.bound.Some? ==>
                  (offset <= w.bound.value <==>
                     offset <= span && (sideband.Some? && sideband.value != 0.0 ==> offset <= 0.4 * Abs(sideband.value))))
  {
    hide CaptureTolerance, RejectionBound;
    ToleranceIs(s, halfRange);
    BoundWithin(s, halfRange, sideband, offset);
  }

  lemma ToleranceIs(s: AcceptanceSettings, halfRange: real)
    ensures CaptureTolerance(s, halfRange) == Max(0.0, s.captureFraction) * Abs(halfRange) >= 0.0
  {
  }

  lemma BoundWithin(s: AcceptanceSettings, halfRange: real, sideband: Option<real>, offset: real)
    ensures var bound, span := RejectionBound(s, halfRange, sideband), Max(0.0, s.maxCorrectionSpan) * Abs(halfRange);
            && (bound > 0.0 <==> span > 0.0)
            && (offset <= bound <==> offset <= span && (sideband.Some? && sideband.value != 0.0 ==> offset <= 0.4 * Abs(sideband.value)))
  {
  }
}
