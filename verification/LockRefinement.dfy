/**
 * Planner of the auto-lock trajectory-refinement walk
 * (linien-gateway/app/lock_refinement.py). Pure arithmetic on sweep volts.
 */
module LockRefinement {
  import opened Common
  import opened AutoLockSettings

  const STRICT_DETECTOR_SAMPLES := 10.0
  const NARROW_FACTOR := 0.75
  const COARSE_NARROW_FACTOR := 0.5
  const GENTLE_APPROACH := 4.0
  const MAX_REFINEMENT_STAGES: nat := 16
  const MAX_NARROW_FACTOR := 0.9
  const WINDOW_KEEP_FRACTION := 0.9
  const CENTER_MOVE_EPSILON := 0.000001
  const RAIL_EPSILON := 0.000000001
  const NARROW_SCHEDULE_EPSILON := 0.000000001
  const INNER_WINDOW_FRACTION := 0.5

  datatype Detector = Strict | Coarse

  datatype Action = Narrow | Recenter | Done | Refuse

  /** What keeps the centre from coming closer, as a refusal reports it. */
  datatype HeldBy = SweepRails | StageBudget | Reached

  datatype Reason =
    | GoalMet
    | ScheduleAtFloor
    | OutOfReach(heldBy: HeldBy)
    | Pinned
    | RecenterFirst
    | ScheduledNarrowing

  datatype RefinementStep = RefinementStep(action: Action, center: real, amplitude: real, reason: Reason)

  // ---------------------------------------------------------------------------
  // Bounded recentring
  // ---------------------------------------------------------------------------

  function RecenterBound(amplitude: real, signalWidth: Option<real>, maxWidths: real, budget: Option<real>): real {
    var byScan := 0.25 * Abs(amplitude);
    var byWidth :=
      if signalWidth.Some? && signalWidth.value != 0.0 && maxWidths > 0.0
      then Min(byScan, maxWidths * Abs(signalWidth.value)) else byScan;
    if budget.Some? then Min(byWidth, Max(0.0, budget.value)) else byWidth
  }

  /** One clamp of the target into the step bound, and into the rails when the centre already respects them. */
  function ClampStep(center: real, target: real, bound: real, railAmplitude: real): real {
    var railLo, railHi := -1.0 + railAmplitude, 1.0 - railAmplitude;
    var railed := railLo <= railHi && railLo - RAIL_EPSILON <= center <= railHi + RAIL_EPSILON;
    var lo := if railed then Max(center - bound, railLo) else center - bound;
    var hi := if railed then Min(center + bound, railHi) else center + bound;
    Min(hi, Max(lo, target))
  }

  function BoundedRecenter(center: real, target: real, amplitude: real, signalWidth: Option<real>,
                           maxWidths: real, railAmplitude: Option<real>, budget: Option<real>): real
  {
    ClampStep(center, target, RecenterBound(amplitude, signalWidth, maxWidths, budget),
              if railAmplitude.None? then Abs(amplitude) else Abs(railAmplitude.value))
  }

  lemma RecenterBoundNonnegative(amplitude: real, signalWidth: Option<real>, maxWidths: real, budget: Option<real>)
    ensures 0.0 <= RecenterBound(amplitude, signalWidth, maxWidths, budget)
    ensures RecenterBound(amplitude, signalWidth, maxWidths, budget) <= 0.25 * Abs(amplitude)
    ensures budget.Some? && budget.value >= 0.0 ==>
              RecenterBound(amplitude, signalWidth, maxWidths, budget) <= budget.value
    ensures signalWidth.Some? && signalWidth.value != 0.0 && maxWidths > 0.0 ==>
              RecenterBound(amplitude, signalWidth, maxWidths, budget) <= maxWidths * Abs(signalWidth.value)
  {
    if signalWidth.Some? && maxWidths > 0.0 {
      assert maxWidths * Abs(signalWidth.value) >= 0.0;
    }
  }

  /** The three limits of a step, and nothing else: a quarter half-range, the allowed signal widths, the stage budget. */
  lemma BoundIsAllThree(amplitude: real, signalWidth: Option<real>, maxWidths: real, budget: Option<real>, step: real)
    ensures step <= RecenterBound(amplitude, signalWidth, maxWidths, budget) <==>
              && 4.0 * step <= Abs(amplitude)
              && (signalWidth.Some? && signalWidth.value != 0.0 && maxWidths > 0.0 ==> step <= maxWidths * Abs(signalWidth.value))
              && (budget.Some? ==> step <= Max(0.0, budget.value))
  {
  }

  /**
   * One bounded step: it is never longer than the quarter half-range, the allowed
   * number of signal widths and the stage budget (up to the rail tolerance), it does
   * not lose ground on the target, and from a centre within the rail tolerance it
   * leaves the scan within the same tolerance.
   */
  lemma RecenterIsSafe(center: real, target: real, amplitude: real, signalWidth: Option<real>,
                       maxWidths: real, railAmplitude: Option<real>, budget: Option<real>)
    ensures var r := BoundedRecenter(center, target, amplitude, signalWidth, maxWidths, railAmplitude, budget);
            var rail := Abs(if railAmplitude.None? then amplitude else railAmplitude.value);
            && Abs(r - center) <= Max(0.25 * Abs(amplitude), RAIL_EPSILON)
            && (budget.Some? ==> Abs(r - center) <= Max(budget.value, RAIL_EPSILON))
            && (signalWidth.Some? && signalWidth.value != 0.0 && maxWidths > 0.0 ==>
                  Abs(r - center) <= Max(maxWidths * Abs(signalWidth.value), RAIL_EPSILON))
            && Abs(target - r) <= Abs(target - center) + RAIL_EPSILON
            && (Abs(r - center) > RAIL_EPSILON ==>
                  Abs(target - r) == Abs(target - center) - Abs(r - center))
            && (rail <= 1.0 && Abs(center) + rail <= 1.0 + RAIL_EPSILON ==>
                  Abs(r) + rail <= 1.0 + RAIL_EPSILON && Abs(r) <= Max(Abs(center), 1.0 - rail))
  {
    var bound := RecenterBound(amplitude, signalWidth, maxWidths, budget);
    RecenterBoundNonnegative(amplitude, signalWidth, maxWidths, budget);
    ClampStepIsSafe(center, target, bound, if railAmplitude.None? then Abs(amplitude) else Abs(railAmplitude.value));
  }

  lemma ClampStepIsSafe(center: real, target: real, bound: real, rail: real)
    requires 0.0 <= bound && 0.0 <= rail
    ensures var r := ClampStep(center, target, bound, rail);
            && Abs(r - center) <= Max(bound, RAIL_EPSILON)
            && Abs(target - r) <= Abs(target - center) + RAIL_EPSILON
            && (Abs(r - center) > RAIL_EPSILON ==> Abs(target - r) == Abs(target - center) - Abs(r - center))
            && (rail <= 1.0 && Abs(center) + rail <= 1.0 + RAIL_EPSILON ==>
                  Abs(r) + rail <= 1.0 + RAIL_EPSILON && Abs(r) <= Max(Abs(center), 1.0 - rail))
  {
  }

  // ---------------------------------------------------------------------------
  // Crop floor
  // ---------------------------------------------------------------------------

  function CenterStepAllowance(s: ScanSettings, amplitude: real, sideband: Option<real>): real {
    var allowance := 0.25 * Abs(amplitude);
    if sideband.Some? && s.maxCenterStepSignalWidths > 0.0
    then Min(allowance, s.maxCenterStepSignalWidths * 2.0 * Abs(sideband.value))
    else allowance
  }

  /** The movement allowance of a stage: a quarter half-range, and no more than the allowed number of full signal widths. */
  lemma AllowanceIsBoth(s: ScanSettings, amplitude: real, sideband: Option<real>, step: real)
    ensures step <= CenterStepAllowance(s, amplitude, sideband) <==>
              && 4.0 * step <= Abs(amplitude)
              && (sideband.Some? && s.maxCenterStepSignalWidths > 0.0 ==>
                    step <= s.maxCenterStepSignalWidths * 2.0 * Abs(sideband.value))
  {
  }

  function ShiftCoefficient(spf: Option<real>): real {
    if spf.Some? then Max(0.0, spf.value) else 0.0
  }

  /** Where the shrinking window meets the growing residual. */
  function Crossing(amplitude: real, offset: real, spf: real): real
    requires amplitude > 0.0 && spf >= 0.0
  {
    QuotientNonnegative(spf, amplitude);
    (offset + spf) / (WINDOW_KEEP_FRACTION + spf / amplitude)
  }

  function MinSafeAmplitude(amplitude0: real, offset0: real, spf0: Option<real>, floor: real): Option<real> {
    var amplitude, offset, spf := Abs(amplitude0), Abs(offset0), ShiftCoefficient(spf0);
    if amplitude <= 0.000000000001 then None
    else if offset >= WINDOW_KEEP_FRACTION * amplitude then None
    else
      var candidate := Max(floor, Crossing(amplitude, offset, spf));
      if candidate >= amplitude then None else Some(candidate)
  }

  /** Narrowing to `c` keeps the target in the inner 90% of the window, after the shift the narrowing causes. */
  predicate Holds(c: real, amplitude: real, offset: real, spf: real)
    requires amplitude > 0.0
  {
    WINDOW_KEEP_FRACTION * c >= offset + spf * (1.0 - c / amplitude)
  }

  /** The closed form is the crossing point of the two racing effects. */
  lemma CrossingPoint(c: real, amplitude: real, offset: real, spf: real)
    requires amplitude > 0.0 && spf >= 0.0
    ensures Holds(c, amplitude, offset, spf) <==> c >= Crossing(amplitude, offset, spf)
  {
    var slope := WINDOW_KEEP_FRACTION + spf / amplitude;
    QuotientNonnegative(spf, amplitude);
    var crossing := (offset + spf) / slope;
    assert crossing * slope == offset + spf;
    assert spf * (1.0 - c / amplitude) == spf - c * (spf / amplitude);
    assert Holds(c, amplitude, offset, spf) <==> c * slope - crossing * slope >= 0.0;
    assert c * slope - crossing * slope == (c - crossing) * slope;
    ProductSign(c - crossing, slope);
  }

  lemma QuotientNonnegative(x: real, y: real)
    requires x >= 0.0 && y > 0.0
    ensures x / y >= 0.0
  {
    var q := x / y;
    assert q * y == x;
    ProductSign(q, y);
  }

  lemma SelfQuotient(x: real)
    requires x > 0.0
    ensures x / x == 1.0
  {
    var q := x / x;
    assert q * x == x;
    assert (q - 1.0) * x == 0.0;
    ProductSign(q - 1.0, x);
    ProductSign(1.0 - q, x);
  }

  lemma ScalesByFraction(x: real, y: real, f: real)
    requires x <= y && f >= 0.0
    ensures x * f <= y * f
  {
    ProductNonnegative(y - x, f);
    assert (y - x) * f == y * f - x * f;
  }

  lemma ProductNonnegative(x: real, y: real)
    requires x >= 0.0 && y >= 0.0
    ensures x * y >= 0.0
  {
  }

  /** Once an amplitude holds the target, so does every wider one. */
  lemma HoldsIsUpwardClosed(c: real, d: real, amplitude: real, offset: real, spf: real)
    requires amplitude > 0.0 && spf >= 0.0
    requires Holds(c, amplitude, offset, spf) && c <= d
    ensures Holds(d, amplitude, offset, spf)
  {
    CrossingPoint(c, amplitude, offset, spf);
    CrossingPoint(d, amplitude, offset, spf);
  }

  lemma HoldsTransfers(c: real, amplitude: real, offset0: real, offset1: real, spf0: real, spf1: real)
    requires 0.0 < amplitude && c < amplitude
    requires offset0 <= offset1 && spf0 <= spf1
    requires Holds(c, amplitude, offset1, spf1)
    ensures Holds(c, amplitude, offset0, spf0)
  {
    DivisionThreshold(c, amplitude, 1.0);
    ScalesByFraction(spf0, spf1, 1.0 - c / amplitude);
  }

  ghost predicate SafeNarrowing(c: real, amplitude0: real, offset0: real, spf0: Option<real>, floor: real)
    requires Abs(amplitude0) > 0.0
  {
    floor <= c < Abs(amplitude0) && Holds(c, Abs(amplitude0), Abs(offset0), ShiftCoefficient(spf0))
  }

  /** MinSafeAmplitude is exact: the least safe narrowing, and None only when there is none at all. */
  lemma MinSafeAmplitudeIsLeast(amplitude0: real, offset0: real, spf0: Option<real>, floor: real, c: real)
    requires Abs(amplitude0) > 0.000000000001
    ensures var m := MinSafeAmplitude(amplitude0, offset0, spf0, floor);
            && (m.Some? ==> SafeNarrowing(m.value, amplitude0, offset0, spf0, floor))
            && (SafeNarrowing(c, amplitude0, offset0, spf0, floor) ==> m.Some? && m.value <= c)
  {
    hide Holds, Crossing;
    var amplitude, offset, spf := Abs(amplitude0), Abs(offset0), ShiftCoefficient(spf0);
    var m := MinSafeAmplitude(amplitude0, offset0, spf0, floor);
    CrossingPoint(c, amplitude, offset, spf);
    if m.Some? { CrossingPoint(m.value, amplitude, offset, spf); }
    if offset >= WINDOW_KEEP_FRACTION * amplitude { CrossingPastFullWidth(amplitude, offset, spf); }
  }

  /** At the full amplitude the shift term is gone: only the offset itself can put the crossing there or beyond. */
  lemma CrossingPastFullWidth(amplitude: real, offset: real, spf: real)
    requires amplitude > 0.0 && spf >= 0.0 && offset >= WINDOW_KEEP_FRACTION * amplitude
    ensures Crossing(amplitude, offset, spf) >= amplitude
  {
    QuotientNonnegative(spf, amplitude);
    var ratio := spf / amplitude;
    var slope, crossing := WINDOW_KEEP_FRACTION + ratio, Crossing(amplitude, offset, spf);
    assert crossing * slope == offset + spf;
    assert ratio * amplitude == spf;
    assert (crossing - amplitude) * slope == offset - WINDOW_KEEP_FRACTION * amplitude;
    ProductSign(crossing - amplitude, slope);
  }

  /** A larger offset or a more width-sensitive actuator never yields a lower floor. */
  lemma MinSafeAmplitudeIsMonotone(amplitude0: real, offset0: real, offset1: real,
                                   spf0: Option<real>, spf1: Option<real>, floor: real)
    requires Abs(amplitude0) > 0.000000000001
    requires Abs(offset0) <= Abs(offset1) && ShiftCoefficient(spf0) <= ShiftCoefficient(spf1)
    ensures var m0 := MinSafeAmplitude(amplitude0, offset0, spf0, floor);
            var m1 := MinSafeAmplitude(amplitude0, offset1, spf1, floor);
            m1.Some? ==> m0.Some? && m0.value <= m1.value
  {
    var m1 := MinSafeAmplitude(amplitude0, offset1, spf1, floor);
    if m1.Some? {
      var amplitude, c := Abs(amplitude0), m1.value;
      MinSafeAmplitudeIsLeast(amplitude0, offset1, spf1, floor, c);
      HoldsTransfers(c, amplitude, Abs(offset0), Abs(offset1), ShiftCoefficient(spf0), ShiftCoefficient(spf1));
      MinSafeAmplitudeIsLeast(amplitude0, offset0, spf0, floor, c);
    }
  }
}
