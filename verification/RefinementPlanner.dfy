/**
 * plan_refinement_step and what it guarantees about every geometry it hands out
 * (linien-gateway/app/lock_refinement.py).
 */
module RefinementPlanner {
  import opened Common
  import opened AutoLockSettings
  import opened LockRefinement

  /** What the planner sees of the walk: the geometry read back and the latest detection. */
  datatype View = View(
    center: real,
    amplitude: real,
    target: real,
    sideband: Option<real>,
    detector: Detector,
    traceLength: int,
    spf: Option<real>)

  /** The widest amplitude that satisfies the detector sample floor and the signal-fraction test. */
  function GoalAmplitude(s: ScanSettings, traceLength: int, sideband: Option<real>): real {
    var bySamples := s.halfRange * (traceLength - 1) as real / (2.0 * STRICT_DETECTOR_SAMPLES);
    var byWidth := MaxLockableAmplitude(s, sideband);
    if byWidth.Some? then Min(bySamples, byWidth.value) else bySamples
  }

  function Goal(s: ScanSettings, v: View): real {
    GoalAmplitude(s, v.traceLength, v.sideband)
  }

  function Allowance(s: ScanSettings, v: View): real {
    CenterStepAllowance(s, v.amplitude, v.sideband)
  }

  function ScheduleFactor(s: ScanSettings, v: View): real {
    if v.amplitude > GENTLE_APPROACH * Goal(s, v) then COARSE_NARROW_FACTOR else NARROW_FACTOR
  }

  function CappedFactor(s: ScanSettings, v: View): (factor: real)
    ensures 0.5 <= factor <= 0.9
  {
    if v.spf.Some? && v.spf.value > 0.000000001 then
      Min(MAX_NARROW_FACTOR, Max(ScheduleFactor(s, v), 1.0 - Allowance(s, v) / v.spf.value))
    else ScheduleFactor(s, v)
  }

  function CutTowards(amplitude: real, goal: real, factor: real): (next: real)
    requires 0.5 <= factor <= 0.9
    ensures next < amplitude ==>
              0.0 < amplitude && 0.5 * amplitude <= next && goal <= next
  {
    var cut := amplitude * factor;
    ScaledBy(amplitude, factor, cut);
    Min(amplitude, Max(goal, cut))
  }

  function ScheduledAmplitude(s: ScanSettings, v: View): (next: real)
    ensures next < v.amplitude ==> 0.0 < v.amplitude && 0.5 * v.amplitude <= next && Goal(s, v) <= next
  {
    CutTowards(v.amplitude, Goal(s, v), CappedFactor(s, v))
  }

  lemma ScaledBy(x: real, f: real, product: real)
    requires 0.5 <= f <= 0.9 && product == x * f
    ensures x <= 0.0 ==> product >= x
    ensures x > 0.0 ==> 0.5 * x <= product <= 0.9 * x
  {
    if x > 0.0 {
      ProductNonnegative(f - 0.5, x);
      assert (f - 0.5) * x == product - 0.5 * x;
      ProductNonnegative(0.9 - f, x);
      assert (0.9 - f) * x == 0.9 * x - product;
    } else {
      ProductNonnegative(-x, 1.0 - f);
      assert -x * (1.0 - f) == product - x;
    }
  }

  function CentreBudget(s: ScanSettings, v: View, next: real): real
    requires v.amplitude > 0.0
  {
    var predicted := (if v.spf.Some? then v.spf.value else 0.0) * Max(0.0, 1.0 - next / v.amplitude);
    Max(0.0, Allowance(s, v) - predicted)
  }

  function CombinedCenter(s: ScanSettings, v: View, next: real): real
    requires v.amplitude > 0.0
  {
    BoundedRecenter(v.center, v.target, v.amplitude,
                    if v.sideband.None? then None else Some(2.0 * Abs(v.sideband.value)),
                    s.maxCenterStepSignalWidths, Some(next), Some(CentreBudget(s, v, next)))
  }

  function Holder(v: View, next: real, center: real, budget: real): HeldBy {
    if Abs(center) >= 1.0 - Abs(next) - RAIL_EPSILON then SweepRails
    else if Abs(center - v.center) >= budget - CENTER_MOVE_EPSILON then StageBudget
    else Reached
  }

  function PlanRefinementStep(s: ScanSettings, v: View): RefinementStep {
    if v.detector == Strict && !ScanTooWideToLock(s, v.amplitude, v.sideband, Some(v.traceLength)) then
      RefinementStep(Done, v.center, v.amplitude, GoalMet)
    else
      var next := ScheduledAmplitude(s, v);
      if next >= v.amplitude - NARROW_SCHEDULE_EPSILON then
        RefinementStep(Done, v.center, v.amplitude, ScheduleAtFloor)
      else
        var center := CombinedCenter(s, v, next);
        var residual := v.target - center;
        if Abs(residual) > INNER_WINDOW_FRACTION * next then
          var safe := MinSafeAmplitude(v.amplitude, residual, v.spf, Goal(s, v));
          if safe.None? then
            RefinementStep(Refuse, v.center, v.amplitude,
                           OutOfReach(Holder(v, next, center, CentreBudget(s, v, next))))
          else if safe.value > next then
            FlooredStep(s, v, Min(v.amplitude, safe.value))
          else RefinementStep(Narrow, center, next, ScheduledNarrowing)
        else RefinementStep(Narrow, center, next, ScheduledNarrowing)
  }

  /** The crop floor raised the amplitude: recompute the centre for it, or move the centre alone. */
  function FlooredStep(s: ScanSettings, v: View, floored: real): RefinementStep
    requires v.amplitude > 0.0
  {
    var center := CombinedCenter(s, v, floored);
    if floored < v.amplitude - NARROW_SCHEDULE_EPSILON then
      RefinementStep(Narrow, center, floored, ScheduledNarrowing)
    else if Abs(center - v.center) > CENTER_MOVE_EPSILON then
      RefinementStep(Recenter, center, v.amplitude, RecenterFirst)
    else RefinementStep(Refuse, v.center, v.amplitude, Pinned)
  }

  predicate Moves(step: RefinementStep) {
    step.action == Narrow || step.action == Recenter
  }

  /** The amplitude a moving step evaluates its rails and its budget at. */
  function CommittedAmplitude(s: ScanSettings, v: View): real
    requires Moves(PlanRefinementStep(s, v))
  {
    var next := ScheduledAmplitude(s, v);
    var residual := v.target - CombinedCenter(s, v, next);
    if Abs(residual) > INNER_WINDOW_FRACTION * next
    then Max(next, MinSafeAmplitude(v.amplitude, residual, v.spf, Goal(s, v)).value)
    else next
  }

  lemma MinSafeIsNarrower(amplitude: real, offset: real, spf: Option<real>, floor: real)
    ensures var m := MinSafeAmplitude(amplitude, offset, spf, floor);
            m.Some? ==> floor <= m.value < Abs(amplitude)
  {
  }

  /** How a moving step is put together from the schedule, the combined centre and the crop floor. */
  lemma StepShape(s: ScanSettings, v: View)
    requires Moves(PlanRefinementStep(s, v))
    ensures var step, next, used := PlanRefinementStep(s, v), ScheduledAmplitude(s, v), CommittedAmplitude(s, v);
            var residual := v.target - CombinedCenter(s, v, next);
            var safe := MinSafeAmplitude(v.amplitude, residual, v.spf, Goal(s, v));
            && 0.0 < v.amplitude && next < v.amplitude - NARROW_SCHEDULE_EPSILON
            && 0.5 * v.amplitude <= next <= used < v.amplitude
            && Goal(s, v) <= used
            && step.center == CombinedCenter(s, v, used)
            && (if Abs(residual) > INNER_WINDOW_FRACTION * next then safe.Some? && used == Max(next, safe.value)
                else used == next)
            && (step.action == Narrow ==> step.amplitude == used < v.amplitude - NARROW_SCHEDULE_EPSILON)
            && (step.action == Recenter ==>
                  && step.amplitude == v.amplitude && v.amplitude - NARROW_SCHEDULE_EPSILON <= used
                  && Abs(step.center - v.center) > CENTER_MOVE_EPSILON)
  {
    hide CombinedCenter, Goal, CappedFactor, ScanTooWideToLock, MinSafeAmplitude, ScheduledAmplitude;
    var next := ScheduledAmplitude(s, v);
    var residual := v.target - CombinedCenter(s, v, next);
    MinSafeIsNarrower(v.amplitude, residual, v.spf, Goal(s, v));
  }

  // ---------------------------------------------------------------------------
  // What a step is, without the planner's own terms
  // ---------------------------------------------------------------------------

  /** The goal is the widest scan that still gives the detector ten samples and, at a known spacing, is not too wide to lock. */
  lemma GoalIsWidest(s: ScanSettings, traceLength: int, sideband: Option<real>, amplitude: real)
    ensures amplitude <= GoalAmplitude(s, traceLength, sideband) <==>
              && 20.0 * amplitude <= s.halfRange * (traceLength - 1) as real
              && (sideband.Some? && s.minSignalScanFraction > 0.0 ==> s.minSignalScanFraction * amplitude <= Abs(sideband.value))
  {
    if s.minSignalScanFraction > 0.0 && sideband.Some? {
      DivisionThreshold(Abs(sideband.value), s.minSignalScanFraction, amplitude);
      var q := Abs(sideband.value) / s.minSignalScanFraction;
      assert q * s.minSignalScanFraction == Abs(sideband.value);
      ProductSign(q - amplitude, s.minSignalScanFraction);
      assert (q - amplitude) * s.minSignalScanFraction == Abs(sideband.value) - s.minSignalScanFraction * amplitude;
    }
  }

  /**
   * The scheduled cut is the deepest allowed one: down to the goal, by half while the scan is over four goals wide and by
   * a quarter after, and by no more than costs the movement allowance - unless by a tenth, which is always allowed.
   */
  lemma CutIsDeepestAllowed(s: ScanSettings, v: View, c: real)
    requires 0.0 < v.amplitude && c < v.amplitude
    ensures c >= ScheduledAmplitude(s, v) <==>
              && c >= Goal(s, v)
              && (10.0 * c >= 9.0 * v.amplitude ||
                  (c >= (if v.amplitude > 4.0 * Goal(s, v) then 0.5 else 0.75) * v.amplitude
                   && (v.spf.Some? && v.spf.value > 0.000000001 ==> v.spf.value * (1.0 - c / v.amplitude) <= Allowance(s, v))))
  {
    hide Goal, Allowance;
    if v.spf.Some? && v.spf.value > 0.000000001 {
      ShiftFits(c, v.amplitude, v.spf.value, Allowance(s, v));
    }
    FactorReached(c, v.amplitude, CappedFactor(s, v), ScheduleFactor(s, v),
                  if v.spf.Some? && v.spf.value > 0.000000001 then Some(1.0 - Allowance(s, v) / v.spf.value) else None);
  }

  lemma ShiftFits(c: real, amplitude: real, spf: real, allowance: real)
    requires amplitude > 0.0 && spf > 0.0
    ensures c >= amplitude * (1.0 - allowance / spf) <==> spf * (1.0 - c / amplitude) <= allowance
  {
    var p, q := allowance / spf, c / amplitude;
    assert p * spf == allowance && q * amplitude == c;
    ProductSign(p - (1.0 - q), spf);
    ProductSign(q - (1.0 - p), amplitude);
    assert (p - (1.0 - q)) * spf == allowance - spf * (1.0 - q);
    assert (q - (1.0 - p)) * amplitude == c - amplitude * (1.0 - p);
  }

  lemma FactorReached(c: real, amplitude: real, factor: real, schedule: real, gentlest: Option<real>)
    requires amplitude > 0.0 && schedule <= 0.9
    requires factor == if gentlest.Some? then Min(0.9, Max(schedule, gentlest.value)) else schedule
    ensures c >= amplitude * factor <==>
              || (gentlest.Some? && c >= 0.9 * amplitude)
              || (c >= schedule * amplitude && (gentlest.Some? ==> c >= amplitude * gentlest.value))
    ensures c >= 0.9 * amplitude ==> c >= amplitude * factor
  {
    ScalesByFraction(schedule, 0.9, amplitude);
    if gentlest.Some? {
      if gentlest.value <= 0.9 { ScalesByFraction(gentlest.value, 0.9, amplitude); } else { ScalesByFraction(0.9, gentlest.value, amplitude); }
      if gentlest.value <= schedule { ScalesByFraction(gentlest.value, schedule, amplitude); }
      else { ScalesByFraction(schedule, gentlest.value, amplitude); }
    }
  }

  /** What is left of the allowance for the centre once the predicted shift of this cut is paid for. */
  lemma BudgetIsWhatIsLeft(s: ScanSettings, v: View, next: real, step: real)
    requires 0.0 < v.amplitude && next <= v.amplitude && step > 0.0
    ensures step <= CentreBudget(s, v, next) <==>
              step + (if v.spf.Some? then v.spf.value * (1.0 - next / v.amplitude) else 0.0) <= Allowance(s, v)
  {
    hide Allowance;
    DivisionThreshold(next, v.amplitude, 1.0);
  }

  /**
   * The planner stops exactly when the strict detector accepts a scan that is not too wide, when the amplitude is at the
   * goal to 1e-9, or when even the capped cut would be under 1e-9 - which takes a scan of 1e-8 or less.
   */
  lemma DoneExactlyWhen(s: ScanSettings, v: View)
    ensures PlanRefinementStep(s, v).action == Done <==>
              || (v.detector == Strict && Lockable(s, v))
              || v.amplitude <= Goal(s, v) + 0.000000001
              || v.amplitude - v.amplitude * CappedFactor(s, v) <= 0.000000001
    ensures v.amplitude - v.amplitude * CappedFactor(s, v) <= 0.000000001 ==> v.amplitude <= 0.00000001
  {
    hide PlanRefinementStep, ScheduledAmplitude, Goal, CappedFactor, Lockable;
    LockableIffNotTooWide(s, v);
    DoneOnlyOnSchedule(s, v);
    AtFloorWhen(s, v);
    TinyCutTinyScan(v.amplitude, CappedFactor(s, v));
  }

  lemma DoneOnlyOnSchedule(s: ScanSettings, v: View)
    ensures PlanRefinementStep(s, v).action == Done <==>
              || (v.detector == Strict && !ScanTooWideToLock(s, v.amplitude, v.sideband, Some(v.traceLength)))
              || ScheduledAmplitude(s, v) >= v.amplitude - 0.000000001
  {
    hide CombinedCenter, Goal, MinSafeAmplitude, ScanTooWideToLock, ScheduledAmplitude;
  }

  lemma AtFloorWhen(s: ScanSettings, v: View)
    ensures ScheduledAmplitude(s, v) >= v.amplitude - 0.000000001 <==>
              v.amplitude <= Goal(s, v) + 0.000000001 || v.amplitude - v.amplitude * CappedFactor(s, v) <= 0.000000001
  {
    hide Goal, CappedFactor;
  }

  lemma TinyCutTinyScan(amplitude: real, factor: real)
    requires factor <= 0.9
    ensures amplitude - amplitude * factor <= 0.000000001 ==> amplitude <= 0.00000001
  {
    if amplitude > 0.0 {
      assert (0.9 - factor) * amplitude >= 0.0;
    }
  }

  /** A scan a lock may start from: the error signal, if its width is known, takes up the required part of it. */
  predicate Lockable(s: ScanSettings, v: View) {
    || s.minSignalScanFraction <= 0.0 || s.signalType != "pdh" || 2.0 * Abs(v.amplitude) <= 0.000000000001
    || (if v.sideband.Some? then Abs(v.sideband.value) >= s.minSignalScanFraction * Abs(v.amplitude)
        else SpacingIsMeasurable(s, v.traceLength, v.amplitude))
  }

  lemma LockableIffNotTooWide(s: ScanSettings, v: View)
    ensures Lockable(s, v) <==> !ScanTooWideToLock(s, v.amplitude, v.sideband, Some(v.traceLength))
  {
  }

  /**
   * The amplitude a moving step commits to is the least from the scheduled one up that keeps the target: at the schedule
   * if the target is then within half the window, otherwise the least that holds it and its predicted shift in the inner
   * 90 %. It is written if that is a real cut; if not, the centre moves alone.
   */
  lemma CommitsLeastSafe(s: ScanSettings, v: View, c: real)
    requires Moves(PlanRefinementStep(s, v)) && Measured(v.spf)
    ensures v.amplitude > 0.0
    ensures var step, next, used := PlanRefinementStep(s, v), ScheduledAmplitude(s, v), CommittedAmplitude(s, v);
            var residual := Abs(v.target - CombinedCenter(s, v, next));
            var spf := ShiftCoefficient(v.spf);
            && (2.0 * residual <= next ==> used == next)
            && (2.0 * residual > next ==>
                  && Holds(used, v.amplitude, residual, spf)
                  && (next <= c < v.amplitude && Holds(c, v.amplitude, residual, spf) ==> used <= c))
            && (step.action == Narrow <==> used < v.amplitude - 0.000000001)
            && step.center == CombinedCenter(s, v, used)
            && step.amplitude == if step.action == Narrow then used else v.amplitude
  {
    hide PlanRefinementStep, CombinedCenter, Goal, CappedFactor, MinSafeAmplitude, ScheduledAmplitude, CommittedAmplitude, Holds;
    StepShape(s, v);
    ScheduleReachesGoal(s, v);
    var next, used := ScheduledAmplitude(s, v), CommittedAmplitude(s, v);
    var residual := v.target - CombinedCenter(s, v, next);
    if Abs(residual) > INNER_WINDOW_FRACTION * next {
      SafeKeepsTarget(v.amplitude, residual, v.spf, Goal(s, v), used);
      if next <= c < v.amplitude && Holds(c, v.amplitude, Abs(residual), ShiftCoefficient(v.spf)) {
        MinSafeAmplitudeIsLeast(v.amplitude, residual, v.spf, Goal(s, v), c);
      }
    }
  }

  /** A target left within half the scheduled window is narrowed onto at once, whatever shift is predicted. */
  lemma HalfWindowNarrows(s: ScanSettings, v: View)
    requires PlanRefinementStep(s, v).action != Done
    ensures v.amplitude > 0.0
    ensures var next := ScheduledAmplitude(s, v);
            2.0 * Abs(v.target - CombinedCenter(s, v, next)) <= next ==>
              PlanRefinementStep(s, v) == RefinementStep(Narrow, CombinedCenter(s, v, next), next, ScheduledNarrowing)
  {
    hide CombinedCenter, Goal, MinSafeAmplitude, ScanTooWideToLock, ScheduledAmplitude;
    ScheduleNarrowsPositive(s, v);
  }

  lemma ScheduleNarrowsPositive(s: ScanSettings, v: View)
    ensures ScheduledAmplitude(s, v) < v.amplitude ==> v.amplitude > 0.0
  {
  }

  lemma ScheduleReachesGoal(s: ScanSettings, v: View)
    ensures ScheduledAmplitude(s, v) < v.amplitude ==> Goal(s, v) <= ScheduledAmplitude(s, v)
  {
  }

  // ---------------------------------------------------------------------------
  // Safety of one step
  // ---------------------------------------------------------------------------

  /** A geometry inside the sweep range, up to the slack the rail comparison tolerates. */
  predicate OnScale(center: real, amplitude: real) {
    0.0 <= amplitude <= 1.0 && Abs(center) + amplitude <= 1.0 + RAIL_EPSILON
  }

  predicate InWindow(target: real, center: real, amplitude: real) {
    Abs(target - center) <= amplitude
  }

  /** Shift estimates are measured magnitudes. */
  predicate Measured(spf: Option<real>) {
    spf.Some? ==> spf.value >= 0.0
  }

  /**
   * Whatever the planner commands from an on-scale geometry and an in-window target
   * stays on scale, with the same slack it started with, and still contains the
   * target it was planned from - also when the crop floor raises the amplitude and
   * the centre is recomputed against a tighter rail.
   */
  lemma PlannedGeometryIsSafe(s: ScanSettings, v: View)
    requires OnScale(v.center, v.amplitude) && InWindow(v.target, v.center, v.amplitude) && Measured(v.spf)
    ensures var step := PlanRefinementStep(s, v);
            Moves(step) ==>
              && OnScale(step.center, step.amplitude)
              && Abs(v.target - step.center) <= step.amplitude + RAIL_EPSILON
  {
    hide PlanRefinementStep, CombinedCenter, Goal, CappedFactor, MinSafeAmplitude, ScheduledAmplitude, CommittedAmplitude;
    var step := PlanRefinementStep(s, v);
    if Moves(step) {
      var next, used := ScheduledAmplitude(s, v), CommittedAmplitude(s, v);
      StepShape(s, v);
      CombinedCenterIsSafe(s, v, used);
      var residual := v.target - CombinedCenter(s, v, next);
      if Abs(residual) > INNER_WINDOW_FRACTION * next {
        SafeKeepsTarget(v.amplitude, residual, v.spf, Goal(s, v), used);
        if used > next { RecomputedCenterContains(s, v, next, used); }
      }
    }
  }

  lemma CombinedCenterIsSafe(s: ScanSettings, v: View, next: real)
    requires OnScale(v.center, v.amplitude) && 0.0 < next <= v.amplitude
    ensures var c := CombinedCenter(s, v, next);
            && Abs(c) + next <= 1.0 + RAIL_EPSILON && Abs(c) <= Max(Abs(v.center), 1.0 - next)
            && Abs(v.target - c) <= Abs(v.target - v.center) + RAIL_EPSILON
            && Abs(c - v.center) <= Max(CentreBudget(s, v, next), RAIL_EPSILON)
            && (Abs(c - v.center) > RAIL_EPSILON ==>
                  Abs(v.target - c) == Abs(v.target - v.center) - Abs(c - v.center))
  {
    hide CentreBudget, RecenterBound, ClampStep;
    RecenterIsSafe(v.center, v.target, v.amplitude,
                   if v.sideband.None? then None else Some(2.0 * Abs(v.sideband.value)),
                   s.maxCenterStepSignalWidths, Some(next), Some(CentreBudget(s, v, next)));
  }

  lemma SafeKeepsTarget(amplitude: real, offset: real, spf: Option<real>, floor: real, c: real)
    requires 0.0 < amplitude && MinSafeAmplitude(amplitude, offset, spf, floor).Some?
    requires MinSafeAmplitude(amplitude, offset, spf, floor).value <= c < amplitude
    ensures Abs(offset) <= WINDOW_KEEP_FRACTION * c
    ensures Holds(c, amplitude, Abs(offset), ShiftCoefficient(spf))
  {
    var m := MinSafeAmplitude(amplitude, offset, spf, floor).value;
    MinSafeAmplitudeIsLeast(amplitude, offset, spf, floor, m);
    HoldsIsUpwardClosed(m, c, amplitude, Abs(offset), ShiftCoefficient(spf));
    DivisionThreshold(c, amplitude, 1.0);
    ProductNonnegative(ShiftCoefficient(spf), 1.0 - c / amplitude);
  }

  /** A gentler cut leaves a larger centre budget, so only the tighter rail can hold the recomputed centre back. */
  lemma RecomputedCenterContains(s: ScanSettings, v: View, next: real, safe: real)
    requires OnScale(v.center, v.amplitude) && InWindow(v.target, v.center, v.amplitude) && Measured(v.spf)
    requires 0.0 < next < safe < v.amplitude
    requires Abs(v.target - CombinedCenter(s, v, next)) <= WINDOW_KEEP_FRACTION * safe
    ensures Abs(v.target - CombinedCenter(s, v, safe)) <= safe + RAIL_EPSILON
  {
    hide CentreBudget, RecenterBound, ClampStep;
    var sw := if v.sideband.None? then None else Some(2.0 * Abs(v.sideband.value));
    var b1, b2 := CentreBudget(s, v, next), CentreBudget(s, v, safe);
    CentreBudgetGrows(s, v, next, safe);
    RecenterBoundNonnegative(v.amplitude, sw, s.maxCenterStepSignalWidths, Some(b1));
    BoundGrows(v.amplitude, sw, s.maxCenterStepSignalWidths, b1, b2);
    WiderBoundTighterRail(v.center, v.target,
                          RecenterBound(v.amplitude, sw, s.maxCenterStepSignalWidths, Some(b1)),
                          RecenterBound(v.amplitude, sw, s.maxCenterStepSignalWidths, Some(b2)), next, safe);
  }

  lemma WiderBoundTighterRail(center: real, target: real, b1: real, b2: real, rail1: real, rail2: real)
    requires 0.0 <= b1 <= b2 && 0.0 < rail1 < rail2
    requires OnScale(center, rail2) && Abs(target) <= 1.0 + RAIL_EPSILON
    requires Abs(target - ClampStep(center, target, b1, rail1)) <= rail2
    ensures Abs(target - ClampStep(center, target, b2, rail2)) <= rail2 + RAIL_EPSILON
  {
  }

  lemma BoundGrows(amplitude: real, signalWidth: Option<real>, maxWidths: real, b1: real, b2: real)
    requires b1 <= b2
    ensures RecenterBound(amplitude, signalWidth, maxWidths, Some(b1)) <= RecenterBound(amplitude, signalWidth, maxWidths, Some(b2))
  {
  }

  lemma CentreBudgetGrows(s: ScanSettings, v: View, next: real, wider: real)
    requires 0.0 < v.amplitude && next <= wider && Measured(v.spf)
    ensures CentreBudget(s, v, next) <= CentreBudget(s, v, wider)
  {
    QuotientMonotone(next, wider, v.amplitude);
    if v.spf.Some? {
      ProductMonotone(v.spf.value, Max(0.0, 1.0 - wider / v.amplitude), Max(0.0, 1.0 - next / v.amplitude));
    }
  }

  lemma QuotientMonotone(x: real, y: real, d: real)
    requires d > 0.0 && x <= y
    ensures x / d <= y / d
  {
    var p, q := x / d, y / d;
    assert p * d == x && q * d == y;
    assert (q - p) * d == y - x;
    ProductSign(q - p, d);
  }

  lemma Commutes(x: real, y: real)
    ensures x * y == y * x
  {
  }

  lemma ProductMonotone(k: real, x: real, y: real)
    requires k >= 0.0 && x <= y
    ensures k * x <= k * y
  {
    ProductNonnegative(k, y - x);
    assert k * (y - x) == k * y - k * x;
  }

  // ---------------------------------------------------------------------------
  // The inner 90% of the window
  // ---------------------------------------------------------------------------

  /** The crop floor raised the amplitude above the schedule. */
  predicate FloorDecides(s: ScanSettings, v: View)
    requires Moves(PlanRefinementStep(s, v))
  {
    CommittedAmplitude(s, v) > ScheduledAmplitude(s, v)
  }

  /**
   * A narrowing decided by the crop floor is sized to keep the target in the inner
   * 90% of its window, but its centre is then recomputed against the tighter rail.
   * It really keeps that fraction exactly when the first centre already respected
   * the tighter rail, or the target is itself 10% of the new half-range off the
   * sweep limit; every other narrowing keeps it always. Both are known before the centre is recomputed.
   */
  lemma KeepFractionIff(s: ScanSettings, v: View)
    requires OnScale(v.center, v.amplitude) && InWindow(v.target, v.center, v.amplitude) && Measured(v.spf)
    requires PlanRefinementStep(s, v).action == Narrow
    ensures v.amplitude > 0.0
    ensures var step, used := PlanRefinementStep(s, v), CommittedAmplitude(s, v);
            Abs(v.target - step.center) <= WINDOW_KEEP_FRACTION * step.amplitude <==>
              || !FloorDecides(s, v)
              || Abs(CombinedCenter(s, v, ScheduledAmplitude(s, v))) <= 1.0 - used
              || Abs(v.target) <= 1.0 - (1.0 - WINDOW_KEEP_FRACTION) * used
  {
    hide PlanRefinementStep, CombinedCenter, Goal, CappedFactor, MinSafeAmplitude, ScheduledAmplitude, CommittedAmplitude;
    var next, used := ScheduledAmplitude(s, v), CommittedAmplitude(s, v);
    StepShape(s, v);
    var residual := v.target - CombinedCenter(s, v, next);
    if Abs(residual) > INNER_WINDOW_FRACTION * next {
      SafeKeepsTarget(v.amplitude, residual, v.spf, Goal(s, v), used);
      if used > next { RecomputedCenterClippedOrKept(s, v, next, used); }
    }
  }

  lemma RecomputedCenterClippedOrKept(s: ScanSettings, v: View, next: real, safe: real)
    requires 0.0 < next < safe < v.amplitude - NARROW_SCHEDULE_EPSILON && OnScale(v.center, v.amplitude) && Measured(v.spf)
    requires Abs(v.target - CombinedCenter(s, v, next)) <= WINDOW_KEEP_FRACTION * safe
    ensures Abs(v.target - CombinedCenter(s, v, safe)) <= WINDOW_KEEP_FRACTION * safe <==>
              || Abs(CombinedCenter(s, v, next)) <= 1.0 - safe
              || Abs(v.target) <= 1.0 - (1.0 - WINDOW_KEEP_FRACTION) * safe
  {
    hide CentreBudget, RecenterBound, ClampStep;
    var sw := if v.sideband.None? then None else Some(2.0 * Abs(v.sideband.value));
    var b1, b2 := CentreBudget(s, v, next), CentreBudget(s, v, safe);
    CentreBudgetGrows(s, v, next, safe);
    RecenterBoundNonnegative(v.amplitude, sw, s.maxCenterStepSignalWidths, Some(b1));
    BoundGrows(v.amplitude, sw, s.maxCenterStepSignalWidths, b1, b2);
    ClippedOrKept(v.center, v.target,
                  RecenterBound(v.amplitude, sw, s.maxCenterStepSignalWidths, Some(b1)),
                  RecenterBound(v.amplitude, sw, s.maxCenterStepSignalWidths, Some(b2)), next, safe);
  }

  lemma ClippedOrKept(center: real, target: real, b1: real, b2: real, rail1: real, rail2: real)
    requires 0.0 <= b1 <= b2 && 0.0 < rail1 < rail2 && Abs(center) + rail2 <= 1.0
    requires Abs(target - ClampStep(center, target, b1, rail1)) <= WINDOW_KEEP_FRACTION * rail2
    ensures Abs(target - ClampStep(center, target, b2, rail2)) <= WINDOW_KEEP_FRACTION * rail2 <==>
              || Abs(ClampStep(center, target, b1, rail1)) <= 1.0 - rail2
              || Abs(target) <= 1.0 - (1.0 - WINDOW_KEEP_FRACTION) * rail2
  {
  }

  /** Field-sized instance of the lost fraction: the recomputed centre sits on the rail at 0.35 V. */
  lemma KeepFractionCanBeLost()
    ensures var s := ScanSettings("pdh", false, 0.0, 0.0, 0.0, 0.0, 0.0, 5, 0.0, 1.0);
            var v := View(0.2, 0.8, 0.985, None, Coarse, 1001, None);
            var step := PlanRefinementStep(s, v);
            && step == RefinementStep(Narrow, 0.35, 0.65, ScheduledNarrowing)
            && Abs(v.target - step.center) > WINDOW_KEEP_FRACTION * step.amplitude
  {
    var s := ScanSettings("pdh", false, 0.0, 0.0, 0.0, 0.0, 0.0, 5, 0.0, 1.0);
    var v := View(0.2, 0.8, 0.985, None, Coarse, 1001, None);
    assert ScheduledAmplitude(s, v) == 0.4;
    assert CombinedCenter(s, v, 0.4) == 0.4;
    assert MinSafeAmplitude(0.8, 0.585, None, 0.0) == Some(0.65);
    assert CombinedCenter(s, v, 0.65) == 0.35;
  }

  // ---------------------------------------------------------------------------
  // Progress
  // ---------------------------------------------------------------------------

  /** Every step the walk acts on makes progress: a real cut that stops at the goal, or a real move at the target. */
  lemma PlannedStepProgresses(s: ScanSettings, v: View)
    ensures var step := PlanRefinementStep(s, v);
            && (step.action == Narrow ==>
                  && Goal(s, v) <= step.amplitude < v.amplitude - NARROW_SCHEDULE_EPSILON
                  && 0.5 * v.amplitude <= step.amplitude
                  && Abs(v.target - step.center) <= Abs(v.target - v.center) + RAIL_EPSILON)
            && (step.action == Recenter ==>
                  && step.amplitude == v.amplitude > 0.0
                  && Abs(step.center - v.center) > CENTER_MOVE_EPSILON
                  && Abs(v.target - step.center) == Abs(v.target - v.center) - Abs(step.center - v.center))
            && (!Moves(step) ==> step.center == v.center && step.amplitude == v.amplitude)
  {
    if Moves(PlanRefinementStep(s, v)) {
      MovingStepProgresses(s, v);
    } else {
      StillStepKeepsGeometry(s, v);
    }
  }

  lemma MovingStepProgresses(s: ScanSettings, v: View)
    requires Moves(PlanRefinementStep(s, v))
    ensures var step := PlanRefinementStep(s, v);
            && (step.action == Narrow ==>
                  && Goal(s, v) <= step.amplitude < v.amplitude - NARROW_SCHEDULE_EPSILON
                  && 0.5 * v.amplitude <= step.amplitude
                  && Abs(v.target - step.center) <= Abs(v.target - v.center) + RAIL_EPSILON)
            && (step.action == Recenter ==>
                  && step.amplitude == v.amplitude > 0.0
                  && Abs(step.center - v.center) > CENTER_MOVE_EPSILON
                  && Abs(v.target - step.center) == Abs(v.target - v.center) - Abs(step.center - v.center))
  {
    hide PlanRefinementStep, CombinedCenter, Goal, CappedFactor, ScheduledAmplitude, CommittedAmplitude, MinSafeAmplitude;
    StepShape(s, v);
    StepOf(s, v, CommittedAmplitude(s, v));
  }

  lemma StillStepKeepsGeometry(s: ScanSettings, v: View)
    ensures var step := PlanRefinementStep(s, v);
            !Moves(step) ==> step.center == v.center && step.amplitude == v.amplitude
  {
    hide CombinedCenter, Goal, CappedFactor, MinSafeAmplitude, ScheduledAmplitude, ScanTooWideToLock;
  }

  lemma StepOf(s: ScanSettings, v: View, next: real)
    requires v.amplitude > 0.0
    ensures var c := CombinedCenter(s, v, next);
            && Abs(v.target - c) <= Abs(v.target - v.center) + RAIL_EPSILON
            && Abs(c - v.center) <= Max(CentreBudget(s, v, next), RAIL_EPSILON)
            && (Abs(c - v.center) > RAIL_EPSILON ==>
                  Abs(v.target - c) == Abs(v.target - v.center) - Abs(c - v.center))
  {
    RecenterIsSafe(v.center, v.target, v.amplitude,
                   if v.sideband.None? then None else Some(2.0 * Abs(v.sideband.value)),
                   s.maxCenterStepSignalWidths, Some(next), Some(CentreBudget(s, v, next)));
  }

  /** A centre one stage may move to: within its bound and, where the present centre respects them, inside the rails. */
  predicate Admissible(s: ScanSettings, v: View, rail: real, x: real)
    requires v.amplitude > 0.0
  {
    && Abs(x - v.center) <= StepBound(s, v, rail)
    && (Railed(v.center, rail) ==> Abs(x) <= 1.0 - rail)
  }

  function StepBound(s: ScanSettings, v: View, rail: real): real
    requires v.amplitude > 0.0
  {
    RecenterBound(v.amplitude, if v.sideband.None? then None else Some(2.0 * Abs(v.sideband.value)),
                  s.maxCenterStepSignalWidths, Some(CentreBudget(s, v, rail)))
  }

  predicate Railed(center: real, rail: real) {
    -1.0 + rail <= 1.0 - rail && -1.0 + rail - RAIL_EPSILON <= center <= 1.0 - rail + RAIL_EPSILON
  }

  /** The combined centre is the best of them: no admissible centre is nearer the target. */
  lemma CombinedCenterIsNearest(s: ScanSettings, v: View, rail: real, x: real)
    requires v.amplitude > 0.0 && rail > 0.0 && Admissible(s, v, rail, x)
    ensures Abs(v.target - CombinedCenter(s, v, rail)) <= Abs(v.target - x)
  {
    hide RecenterBound, CentreBudget;
  }

  /** No admissible centre of this stage leaves room for a real cut that keeps the target, shift included, in the inner 90%. */
  lemma NoCutFromAnyCentre(s: ScanSettings, v: View, x: real, c: real, limit: real)
    requires v.amplitude > 0.000000000001 && Measured(v.spf)
    requires var next := ScheduledAmplitude(s, v);
             && 0.0 < next && Admissible(s, v, next, x)
             && var safe := MinSafeAmplitude(v.amplitude, v.target - CombinedCenter(s, v, next), v.spf, Goal(s, v));
                safe.Some? ==> safe.value >= limit
    requires limit <= v.amplitude && c < limit
    ensures !SafeNarrowing(c, v.amplitude, v.target - x, v.spf, Goal(s, v))
  {
    hide MinSafeAmplitude, Holds, CombinedCenter, ScheduledAmplitude, Goal, Admissible;
    var next := ScheduledAmplitude(s, v);
    var best := v.target - CombinedCenter(s, v, next);
    CombinedCenterIsNearest(s, v, next, x);
    if SafeNarrowing(c, v.amplitude, v.target - x, v.spf, Goal(s, v)) {
      var spf := ShiftCoefficient(v.spf);
      HoldsTransfers(c, v.amplitude, Abs(best), Abs(v.target - x), spf, spf);
      MinSafeAmplitudeIsLeast(v.amplitude, best, v.spf, Goal(s, v), c);
    }
  }

  /**
   * A refusal is forced, whichever reason it gives. From every centre the stage may move to, no real cut down to
   * the goal or less keeps the target and the shift it causes in the inner 90% of the window; and a pinned view
   * cannot be brought nearer the target by more than 1e-6 V either, at the rail of the width it would need.
   */
  lemma RefusalIsForced(s: ScanSettings, v: View, x: real, c: real)
    requires PlanRefinementStep(s, v).action == Refuse && Measured(v.spf)
    ensures v.amplitude > 0.0
    ensures Admissible(s, v, ScheduledAmplitude(s, v), x) && c < v.amplitude - NARROW_SCHEDULE_EPSILON ==>
              !SafeNarrowing(c, v.amplitude, v.target - x, v.spf, Goal(s, v))
    ensures PlanRefinementStep(s, v).reason == Pinned ==>
              && CropFloor(s, v).Some?
              && (Admissible(s, v, CropFloor(s, v).value, x) ==>
                    Abs(v.target - x) >= Abs(v.target - v.center) - CENTER_MOVE_EPSILON)
  {
    hide PlanRefinementStep, CombinedCenter, Goal, CappedFactor, ScheduledAmplitude, MinSafeAmplitude, SafeNarrowing, Admissible;
    RefusalShape(s, v);
    var next := ScheduledAmplitude(s, v);
    if Admissible(s, v, next, x) && c < v.amplitude - NARROW_SCHEDULE_EPSILON {
      NoCutFromAnyCentre(s, v, x, c, v.amplitude - NARROW_SCHEDULE_EPSILON);
    }
    if PlanRefinementStep(s, v).reason == Pinned && Admissible(s, v, CropFloor(s, v).value, x) {
      CombinedCenterIsNearest(s, v, CropFloor(s, v).value, x);
    }
  }

  /** The width that would keep the target from the centre the schedule allows. */
  function CropFloor(s: ScanSettings, v: View): Option<real>
    requires v.amplitude > 0.0
  {
    MinSafeAmplitude(v.amplitude, v.target - CombinedCenter(s, v, ScheduledAmplitude(s, v)), v.spf, Goal(s, v))
  }

  /** What a refusal says about the crop floor: there is none, or it eats the whole cut and the centre is stuck. */
  lemma RefusalShape(s: ScanSettings, v: View)
    requires PlanRefinementStep(s, v).action == Refuse
    ensures 0.0 < v.amplitude && 0.5 * v.amplitude <= ScheduledAmplitude(s, v) < v.amplitude - NARROW_SCHEDULE_EPSILON
    ensures if PlanRefinementStep(s, v).reason == Pinned then
              && CropFloor(s, v).Some?
              && v.amplitude - NARROW_SCHEDULE_EPSILON <= CropFloor(s, v).value < v.amplitude
              && Abs(CombinedCenter(s, v, CropFloor(s, v).value) - v.center) <= CENTER_MOVE_EPSILON
            else CropFloor(s, v).None?
  {
    hide CombinedCenter, Goal, CappedFactor, ScanTooWideToLock, MinSafeAmplitude, ScheduledAmplitude;
    var next := ScheduledAmplitude(s, v);
    MinSafeIsNarrower(v.amplitude, v.target - CombinedCenter(s, v, next), v.spf, Goal(s, v));
  }

  // ---------------------------------------------------------------------------
  // One movement budget per stage
  // ---------------------------------------------------------------------------

  /** The shift a narrowing to `amplitude` is predicted to cause. */
  function WidthShift(v: View, amplitude: real): real
    requires v.amplitude > 0.0
  {
    ShiftCoefficient(v.spf) * (1.0 - amplitude / v.amplitude)
  }

  /**
   * The commanded centre move and the predicted width-induced shift together spend
   * one stage allowance - or, where the gentlest cut alone exceeds it, a tenth of the
   * shift coefficient - also after the crop floor has raised the amplitude.
   */
  lemma StageSpendsOneBudget(s: ScanSettings, v: View)
    requires Measured(v.spf)
    requires Moves(PlanRefinementStep(s, v))
    ensures v.amplitude > 0.0
    ensures var step := PlanRefinementStep(s, v);
            Abs(step.center - v.center) + WidthShift(v, step.amplitude)
              <= Max(Allowance(s, v), 0.1 * ShiftCoefficient(v.spf)) + 0.000000002
  {
    hide PlanRefinementStep, CombinedCenter, Goal, CappedFactor, ScheduledAmplitude, CommittedAmplitude, WidthShift,
         MinSafeAmplitude, CenterStepAllowance, CentreBudget;
    var used := CommittedAmplitude(s, v);
    StepShape(s, v);
    StepOf(s, v, used);
    assert v.amplitude * CappedFactor(s, v) <= ScheduledAmplitude(s, v) by { ScheduleRespectsCap(s, v); }
    WidthShiftBound(s, v, used);
    AllowanceNonnegative(s, v);
    BudgetIsRemainder(s, v, used);
    NoCutNoShift(v);
  }

  lemma ScheduleRespectsCap(s: ScanSettings, v: View)
    requires ScheduledAmplitude(s, v) < v.amplitude
    ensures v.amplitude * CappedFactor(s, v) <= ScheduledAmplitude(s, v)
  {
    hide CappedFactor, GoalAmplitude;
  }

  lemma NoCutNoShift(v: View)
    requires v.amplitude > 0.0
    ensures WidthShift(v, v.amplitude) == 0.0
  {
    SelfQuotient(v.amplitude);
  }

  lemma BudgetIsRemainder(s: ScanSettings, v: View, next: real)
    requires 0.0 < v.amplitude && next <= v.amplitude && Measured(v.spf)
    ensures CentreBudget(s, v, next) == Max(0.0, Allowance(s, v) - WidthShift(v, next))
  {
    QuotientMonotone(next, v.amplitude, v.amplitude);
    SelfQuotient(v.amplitude);
  }

  lemma AllowanceNonnegative(s: ScanSettings, v: View)
    ensures Allowance(s, v) >= 0.0
  {
    if v.sideband.Some? && s.maxCenterStepSignalWidths > 0.0 {
      ProductNonnegative(s.maxCenterStepSignalWidths, 2.0 * Abs(v.sideband.value));
      assert s.maxCenterStepSignalWidths * 2.0 * Abs(v.sideband.value)
          == s.maxCenterStepSignalWidths * (2.0 * Abs(v.sideband.value));
    }
  }

  lemma WidthShiftBound(s: ScanSettings, v: View, next: real)
    requires 0.0 < v.amplitude && Measured(v.spf)
    requires v.amplitude * CappedFactor(s, v) <= next <= v.amplitude
    ensures 0.0 <= WidthShift(v, next) <= Max(Allowance(s, v), 0.1 * ShiftCoefficient(v.spf)) + 0.000000001
  {
    hide CappedFactor, CenterStepAllowance, Goal;
    var f, k := CappedFactor(s, v), ShiftCoefficient(v.spf);
    FractionOfCut(v.amplitude, f, next);
    var fraction := 1.0 - next / v.amplitude;
    AllowanceNonnegative(s, v);
    FactorIsCapped(s, v);
    CapSpends(k, f, ScheduleFactor(s, v), Allowance(s, v));
    ProductNonnegative(k, fraction);
    ProductMonotone(k, fraction, 1.0 - f);
    assert WidthShift(v, next) == k * fraction;
  }

  lemma FactorIsCapped(s: ScanSettings, v: View)
    requires Measured(v.spf)
    ensures var k := ShiftCoefficient(v.spf);
            CappedFactor(s, v) ==
              if k > 0.000000001 then Min(0.9, Max(ScheduleFactor(s, v), 1.0 - Allowance(s, v) / k))
              else ScheduleFactor(s, v)
  {
  }

  lemma FractionOfCut(a: real, f: real, next: real)
    requires a > 0.0 && a * f <= next <= a
    ensures 0.0 <= 1.0 - next / a <= 1.0 - f
  {
    QuotientMonotone(next, a, a);
    SelfQuotient(a);
    QuotientMonotone(a * f, next, a);
    QuotientOfProduct(a, f);
  }

  lemma CapSpends(k: real, f: real, schedule: real, allowance: real)
    requires k >= 0.0 && allowance >= 0.0 && 0.5 <= schedule <= 0.9
    requires f == if k > 0.000000001 then Min(0.9, Max(schedule, 1.0 - allowance / k)) else schedule
    ensures k * (1.0 - f) <= Max(allowance, 0.1 * k) + 0.000000001
  {
    if k > 0.000000001 {
      var q := allowance / k;
      assert q * k == allowance;
      if q <= 0.1 {
        ProductMonotone(k, 1.0 - f, 0.1);
      } else {
        ProductMonotone(k, 1.0 - f, q);
        Commutes(k, q);
      }
    } else {
      ScalesByFraction(k, 0.000000001, 1.0 - f);
    }
  }

  lemma QuotientOfProduct(a: real, f: real)
    requires a > 0.0
    ensures a * f / a == f
  {
    var q := a * f / a;
    assert q * a == a * f;
    assert (q - f) * a == 0.0;
    ProductSign(q - f, a);
    ProductSign(f - q, a);
  }

  // ---------------------------------------------------------------------------
  // Whole runs over a feature that stays put
  // ---------------------------------------------------------------------------

  function Measure(center: real, amplitude: real, target: real): real {
    2.0 * amplitude + Abs(target - center)
  }

  /** Consecutive stages at the geometry commanded; sideband, detector and shift estimate may change freely. */
  ghost predicate StillFeatureRun(s: ScanSettings, run: seq<View>) {
    && run != []
    && run[0].amplitude >= 0.0
    && forall i :: 0 <= i < |run| - 1 ==>
         var step := PlanRefinementStep(s, run[i]);
         && Moves(step)
         && run[i + 1].center == step.center
         && run[i + 1].amplitude == step.amplitude
         && run[i + 1].target == run[i].target
  }

  /** For a feature that stays put the walk ends without its stage counter: each stage lowers the measure by over 1e-9. */
  lemma {:induction false} StillFeatureRunIsFinite(s: ScanSettings, run: seq<View>)
    requires StillFeatureRun(s, run)
    ensures (|run| - 1) as real * NARROW_SCHEDULE_EPSILON
              <= Measure(run[0].center, run[0].amplitude, run[0].target)
  {
    if |run| > 1 {
      PlannedStepProgresses(s, run[0]);
      StillFeatureRunIsFinite(s, run[1..]);
    }
  }

  /** The walk over a centred feature: apply the planned narrowings, up to n of them. */
  ghost function Descend(s: ScanSettings, v: View, n: nat): View
    decreases n
  {
    var step := PlanRefinementStep(s, v);
    if n == 0 || step.action != Narrow then v
    else Descend(s, v.(center := step.center, amplitude := step.amplitude), n - 1)
  }

  /** A multiple of the goal amplitude from which n stages suffice: five gentle stages cover 4, then doublings. */
  function Reach(n: nat): real {
    if n == 0 then 1.0
    else if n == 1 then 1.32
    else if n == 2 then 1.75
    else if n == 3 then 2.3
    else if n == 4 then 3.05
    else if n == 5 then 4.0
    else Reach(n - 1) * 2.0
  }

  predicate Centred(s: ScanSettings, v: View) {
    && v.target == v.center
    && 0.0 <= v.amplitude && Abs(v.center) + v.amplitude <= 1.0
    && (v.spf.Some? ==> v.spf.value == 0.0)
    && Goal(s, v) > 0.000000004
  }

  /** Half-steps while far out, three-quarter steps close in, never past the goal. */
  function GentleOrCoarse(amplitude: real, goal: real): real {
    Max(goal, if amplitude > GENTLE_APPROACH * goal then amplitude * COARSE_NARROW_FACTOR else amplitude * NARROW_FACTOR)
  }

  lemma {:induction false} CentredFeatureReachesGoal(s: ScanSettings, v: View, n: nat)
    requires Centred(s, v) && v.detector == Coarse
    requires v.amplitude <= Reach(n) * Goal(s, v)
    ensures var last := Descend(s, v, n);
            && last.center == v.center
            && last.amplitude <= Goal(s, v) + NARROW_SCHEDULE_EPSILON
            && PlanRefinementStep(s, last).action == Done
    decreases n
  {
    hide PlanRefinementStep, GoalAmplitude;
    var goal, step := Goal(s, v), PlanRefinementStep(s, v);
    CentredStep(s, v);
    if step.action == Narrow {
      var v' := v.(center := step.center, amplitude := step.amplitude);
      if n > 0 {
        assert v'.amplitude <= Reach(n - 1) * goal by { ReachStep(n, v.amplitude, goal, v'.amplitude); }
        CentredFeatureReachesGoal(s, v', n - 1);
      }
    }
  }

  lemma CentredStep(s: ScanSettings, v: View)
    requires Centred(s, v) && v.detector == Coarse
    ensures var goal, step := Goal(s, v), PlanRefinementStep(s, v);
            if v.amplitude <= goal + NARROW_SCHEDULE_EPSILON then step.action == Done
            else
              && step.action == Narrow && step.center == v.center
              && step.amplitude == GentleOrCoarse(v.amplitude, goal)
  {
    var next := ScheduledAmplitude(s, v);
    UnmeasuredSchedule(s, v);
    if next < v.amplitude - NARROW_SCHEDULE_EPSILON {
      CentredFeatureKeepsCenter(s, v, next);
    }
    hide ScheduledAmplitude, CombinedCenter, GoalAmplitude, MinSafeAmplitude, ScanTooWideToLock;
  }

  lemma UnmeasuredSchedule(s: ScanSettings, v: View)
    requires v.spf.Some? ==> v.spf.value == 0.0
    requires 0.0 <= v.amplitude
    ensures ScheduledAmplitude(s, v) == Min(v.amplitude, GentleOrCoarse(v.amplitude, Goal(s, v)))
  {
    hide GoalAmplitude;
  }

  lemma CentredFeatureKeepsCenter(s: ScanSettings, v: View, next: real)
    requires v.target == v.center && 0.0 < next <= v.amplitude && Abs(v.center) + v.amplitude <= 1.0
    ensures CombinedCenter(s, v, next) == v.center
  {
    RecenterBoundNonnegative(v.amplitude, if v.sideband.None? then None else Some(2.0 * Abs(v.sideband.value)),
                             s.maxCenterStepSignalWidths, Some(CentreBudget(s, v, next)));
  }

  lemma ReachStep(n: nat, a: real, goal: real, a': real)
    requires n > 0 && goal > 0.0 && 0.0 <= a <= Reach(n) * goal
    requires a' == GentleOrCoarse(a, goal)
    ensures a' <= Reach(n - 1) * goal
  {
    var previous := Reach(n - 1);
    ReachAtLeastOne(n - 1);
    if n <= 5 {
      ScaledReach(Reach(n), goal, 0.75);
      ScalesByFraction(Reach(n) * 0.75, previous, goal);
      ScalesByFraction(1.0, previous, goal);
    } else {
      ScaledReach(previous, goal, 2.0);
      ScalesByFraction(4.0, previous, goal);
    }
  }

  lemma ScaledReach(r: real, goal: real, k: real)
    ensures r * k * goal == (r * goal) * k
  {
  }

  lemma {:induction false} ReachAtLeastOne(n: nat)
    ensures Reach(n) >= 1.0
    ensures n >= 5 ==> Reach(n) >= 4.0
  {
    if n > 0 { ReachAtLeastOne(n - 1); }
  }

  /** From up to 8192 times the goal, the stage budget is enough for a centred feature. */
  lemma StageBudgetSuffices(s: ScanSettings, v: View)
    requires Centred(s, v) && v.detector == Coarse
    requires v.amplitude <= 8192.0 * Goal(s, v)
    ensures Descend(s, v, MAX_REFINEMENT_STAGES).amplitude <= Goal(s, v) + NARROW_SCHEDULE_EPSILON
  {
    assert Reach(5) == 4.0;
    assert Reach(8) == 32.0;
    assert Reach(11) == 256.0;
    assert Reach(14) == 2048.0;
    assert Reach(16) == 8192.0;
    CentredFeatureReachesGoal(s, v, MAX_REFINEMENT_STAGES);
  }

  /** At the goal a strict detection with a measured spacing ends the walk. */
  lemma StrictAtGoalEndsWalk(s: ScanSettings, v: View, tracePoints: Option<int>)
    requires v.sideband.Some? && 0.0 <= v.amplitude <= Goal(s, v)
    ensures !ScanTooWideToLock(s, v.amplitude, v.sideband, tracePoints)
  {
    if s.signalType == "pdh" && s.minSignalScanFraction > 0.0 {
      TooWideIffAboveMaxLockable(s, v.amplitude, v.sideband.value, tracePoints);
    }
  }
}
