/**
 * The staged walk itself: plan, command, redetect, verify, restore
 * (_trajectory_refine_auto_lock and its helpers in linien-gateway/app/session.py).
 * The device and the detectors are an adversary: any answer may come back at any step.
 */
module RefinementWalk {
  import opened Common
  import opened AutoLockSettings
  import opened LockRefinement
  import opened RefinementPlanner
  import opened IdentityGuards
  import opened FreshTrace

  datatype Geometry = Geometry(center: real, amplitude: real)

  /** What a detector finds on a trace: a position in it, the slope there and the sideband spacing. */
  datatype Spot = Spot(index: real, points: int, slopeRising: bool, sideband: Option<real>)

  /**
   * One capture: no usable trace (RuntimeError), a trace the detector rejects (ValueError), or a detection, with
   * the geometry read back for it and the sweep it was made on.
   */
  datatype Reading =
    | Unavailable
    | Rejected
    | Found(index: real, points: int, slopeRising: bool, sideband: Option<real>, geometry: Geometry, sweep: nat)

  function TargetOf(r: Reading): Target
    requires r.Found?
  {
    Target(IndexToVoltage(r.index, r.points, r.geometry.center, r.geometry.amplitude), r.slopeRising, r.sideband)
  }

  /** Why a geometry is written: a walk stage aimed at a target, a restoration after a failure, or the deferred one. */
  datatype Purpose = ForStage(aim: real) | ForRestore | ForDeferredRestore

  /** What the session did to the device, in order. */
  datatype Event =
    | Wrote(geometry: Geometry, purpose: Purpose, ok: bool)
    | Captured(detector: Detector, after: Option<real>, reading: Reading)
    | MovedCenter(center: real, ok: bool)
    | StartedLock(ok: bool)
    | StartedSweep
    | SetByOperator(axis: Axis, value: real, ok: bool)

  /** The two sweep parameters an operator may set on their own. */
  datatype Axis = SweepCenter | SweepAmplitude

  function Moved(g: Geometry, axis: Axis, value: real): Geometry {
    if axis == SweepCenter then g.(center := value) else g.(amplitude := value)
  }

  /** The sweep hardware as the session drives it. The const members are the environment's choices, by step. */
  class SweepRig {
    const detect: (nat, Detector, Geometry) -> Option<Spot>
    const readBack: (nat, Geometry) -> Option<Geometry>
    const accepts: nat -> bool
    const feed: PlotFeed
    var step: nat
    var commanded: Geometry
    ghost var log: seq<Event>

    constructor (geometry: Geometry, detect: (nat, Detector, Geometry) -> Option<Spot>,
                 readBack: (nat, Geometry) -> Option<Geometry>, accepts: nat -> bool, feed: PlotFeed)
      ensures log == [] && commanded == geometry && step == 0
      ensures this.detect == detect && this.readBack == readBack && this.accepts == accepts && this.feed == feed
    {
      this.detect, this.readBack, this.accepts, this.feed := detect, readBack, accepts, feed;
      step, commanded, log := 0, geometry, [];
    }

    method Now() returns (t: real)
      modifies this`step
      ensures step == old(step) + 1 && t == feed.clock(old(step))
    {
      t := feed.clock(step);
      step := step + 1;
    }

    /** Write both axes, let them settle, and return the completion time. */
    method SetSweepGeometry(g: Geometry, ghost purpose: Purpose) returns (ok: bool, doneAt: real)
      modifies this`step, this`commanded, this`log
      ensures step == old(step) + 1 && doneAt == feed.clock(old(step))
      ensures log == old(log) + [Wrote(g, purpose, ok)]
      ensures commanded == if ok then g else old(commanded)
    {
      ok, doneAt := accepts(step), feed.clock(step);
      step := step + 1;
      if ok { commanded := g; }
      log := log + [Wrote(g, purpose, ok)];
    }

    /** The detection on the sweep in hand, told the geometry read back for it. */
    function Sight(k: nat, detector: Detector, g: Geometry): Reading {
      var sweep, geometry := feed.inHand(k), readBack(k, g);
      if sweep.None? || geometry.None? then Unavailable
      else
        var spot := detect(k, detector, geometry.value);
        if spot.None? then Rejected
        else Found(spot.value.index, spot.value.points, spot.value.slopeRising, spot.value.sideband, geometry.value, sweep.value)
    }

    /** Wait for two newer stamps, if a mark is given, then detect on the sweep in hand. */
    method Capture(detector: Detector, after: Option<real>) returns (r: Reading)
      modifies this`step, this`log
      ensures step == old(step) + 1
      ensures log == old(log) + [Captured(detector, after, r)]
      ensures r == if after.Some? && !Arrives(feed, old(step), after.value) then Unavailable
                   else Sight(old(step), detector, commanded)
      ensures r.Found? && after.Some? ==> FetchedAfter(feed, r.sweep, after.value)
    {
      hide Arrives, FetchedAfter;
      var arrived := true;
      if after.Some? {
        arrived := AwaitSweep(after.value);
        if Arrives(feed, step, after.value) { ArrivedIsFetchedAfter(feed, step, after.value); }
      }
      r := if arrived then Sight(step, detector, commanded) else Unavailable;
      step := step + 1;
      log := log + [Captured(detector, after, r)];
    }

    method AwaitSweep(after: real) returns (arrived: bool)
      ensures arrived <==> Arrives(feed, step, after)
    {
      LooksAtFrames(feed, step);
      arrived := WaitForFreshTrace(feed.frames, after, feed.timeout, VERIFY_TRACE_FRAMES, feed.clock(step), feed.looks(step));
    }

    /** Put the centre on the target and start the lock; the lock is not attempted when the move fails. */
    method MoveCenterAndStartLock(center: real) returns (locked: bool, ghost events: seq<Event>)
      modifies this`step, this`commanded, this`log
      ensures log == old(log) + events && step == old(step) + 2
      ensures locked ==> events == [MovedCenter(center, true), StartedLock(true)]
      ensures !locked ==> events == [MovedCenter(center, false)] || events == [MovedCenter(center, true), StartedLock(false)]
    {
      var moved := accepts(step);
      locked := moved && accepts(step + 1);
      step := step + 2;
      events := [MovedCenter(center, moved)] + (if moved then [StartedLock(locked)] else []);
      if moved { commanded := commanded.(center := center); }
      log := log + events;
    }

    method SetAxis(axis: Axis, value: real) returns (ok: bool)
      modifies this`step, this`commanded, this`log
      ensures step == old(step) + 1 && log == old(log) + [SetByOperator(axis, value, ok)]
      ensures commanded == if ok then Moved(old(commanded), axis, value) else old(commanded)
    {
      ok := accepts(step);
      step := step + 1;
      if ok { commanded := Moved(commanded, axis, value); }
      log := log + [SetByOperator(axis, value, ok)];
    }

    method StartSweep()
      modifies this`step, this`log
      ensures log == old(log) + [StartedSweep]
    {
      step := step + 1;
      log := log + [StartedSweep];
    }
  }

  /** The walk's reading of the present geometry, refused (None) while the device is locked or unreachable. */
  method SnapshotUnlocked(rig: SweepRig) returns (g: Option<Geometry>)
    modifies rig`step
    ensures rig.step == old(rig.step) + 1 && g == rig.readBack(old(rig.step), rig.commanded)
  {
    g := rig.readBack(rig.step, rig.commanded);
    rig.step := rig.step + 1;
  }

  /** Detections are positions inside a trace of at least 16 samples. */
  ghost predicate DetectsInTrace(rig: SweepRig) {
    forall k, d, g :: rig.detect(k, d, g).Some? ==>
      var spot := rig.detect(k, d, g).value; spot.points >= 16 && 0.0 <= spot.index <= (spot.points - 1) as real
  }

  /** The device realises what it is told: every read-back is the geometry last commanded. */
  ghost predicate Faithful(rig: SweepRig) {
    forall k, g :: rig.readBack(k, g).Some? ==> rig.readBack(k, g).value == g
  }

  /** A look taken after a mark, at a sweep fetched after it. */
  ghost predicate FreshLook(rig: SweepRig, e: Event) {
    && e.Captured? && e.after.Some?
    && (e.reading.Found? ==> FetchedAfter(rig.feed, e.reading.sweep, e.after.value))
  }

  /** A commanded stage keeps the sweep on scale and the target it was planned from in view. */
  predicate SafeWrite(e: Event) {
    e.Wrote? ==>
      && OnScale(e.geometry.center, e.geometry.amplitude)
      && e.purpose.ForStage? && Abs(e.purpose.aim - e.geometry.center) <= e.geometry.amplitude + RAIL_EPSILON
  }

  ghost predicate AllSafe(log: seq<Event>) {
    forall i :: 0 <= i < |log| ==> SafeWrite(log[i])
  }

  function CountWrites(log: seq<Event>): nat {
    if log == [] then 0 else CountWrites(log[..|log| - 1]) + (if log[|log| - 1].Wrote? then 1 else 0)
  }

  lemma {:induction false} CountWritesConcat(a: seq<Event>, b: seq<Event>)
    ensures CountWrites(a + b) == CountWrites(a) + CountWrites(b)
  {
    if b == [] {
      assert a + b == a;
    } else {
      assert (a + b)[..|a + b| - 1] == a + b[..|b| - 1];
      CountWritesConcat(a, b[..|b| - 1]);
    }
  }

  /** How a failed walk is classified for its caller. */
  datatype Failure = IdentityLost | PositionLost | Other

  /** The largest shift per unit of fractional width change seen on a stage that measures the width. */
  function ShiftEstimate(spf: Option<real>, before: View, after: View): (r: Option<real>)
    ensures Measured(spf) ==> Measured(r)
    ensures spf.Some? ==> r.Some? && r.value >= spf.value
  {
    var fraction := if Abs(before.amplitude) > 0.000000000001 then 1.0 - Abs(after.amplitude) / Abs(before.amplitude) else 0.0;
    var widthDelta := Max(0.0, Abs(before.amplitude) - Abs(after.amplitude));
    if fraction > 0.05 && after.detector == before.detector && widthDelta >= Abs(after.center - before.center) then
      var observed := Abs(after.target - before.target) / fraction;
      QuotientNonnegative(Abs(after.target - before.target), fraction);
      Some(if spf.None? then observed else Max(spf.value, observed))
    else spf
  }

  /** The estimate covers every stage that speaks for the width: none of them moved the feature by more than it predicts. */
  lemma ShiftEstimateCovers(spf: Option<real>, before: View, after: View)
    requires before.amplitude > 0.000000000001 && 0.0 <= after.amplitude
    ensures var fraction := 1.0 - after.amplitude / before.amplitude;
            var estimate := ShiftEstimate(spf, before, after);
            if && fraction > 0.05 && after.detector == before.detector
               && before.amplitude - after.amplitude >= Abs(after.center - before.center)
            then estimate.Some? && Abs(after.target - before.target) <= estimate.value * fraction
            else estimate == spf
  {
    var fraction := 1.0 - after.amplitude / before.amplitude;
    DivisionThreshold(after.amplitude, before.amplitude, 1.0);
    if fraction > 0.05 {
      var moved := Abs(after.target - before.target);
      var observed := moved / fraction;
      assert observed * fraction == moved;
      if spf.Some? { ScalesByFraction(observed, Max(spf.value, observed), fraction); }
    }
  }

  function Seen(r: Reading, detector: Detector, traceLength: int, spf: Option<real>): View
    requires r.Found?
  {
    View(r.geometry.center, r.geometry.amplitude, TargetOf(r).voltage, r.sideband, detector, traceLength, spf)
  }

  function IdentityCheck(s: ScanSettings, r: Reading, detector: Detector, checkSideband: bool): Check
    requires r.Found?
  {
    Check(TargetOf(r), r.geometry.amplitude, detector,
          FeatureResolutionSamples(s, r.points, r.geometry.amplitude), checkSideband)
  }

  /**
   * When a spacing is judged at all. Against a baseline its estimator took at amplitude `before`, a reading is
   * judged exactly if the scan has not become narrower by more than 0.1 %; after any real cut - the schedule asks
   * for at least 10 % - it replaces the baseline and is accepted whatever its spacing.
   */
  lemma SpacingIsJudgedIff(s: ScanSettings, slope: bool, traceLength: int, b: Baselines, r: Reading, detector: Detector, before: real)
    requires traceLength > 0 && r.Found? && r.sideband.Some? && s.halfRange > 0.0 && r.points >= 2
    requires r.geometry.amplitude > 0.000000000001 && before > 0.000000000001
    requires detector in b && b[detector].resolution == FeatureResolutionSamples(s, r.points, before)
    ensures var c := IdentityCheck(s, r, detector, true);
            && (Adopts(b, c) <==> r.geometry.amplitude * SIDEBAND_ADOPTION_MARGIN < before)
            && (r.geometry.amplitude <= MAX_NARROW_FACTOR * before && r.slopeRising == slope ==>
                  && Judge(slope, traceLength, b, c) == Accepted
                  && Updated(slope, b, c) == b[detector := Baseline(r.sideband.value, c.resolution)])
  {
    hide IndexToVoltage;
    ResolutionOrder(s.halfRange * (r.points - 1) as real, r.geometry.amplitude, before);
  }

  lemma ResolutionOrder(k: real, now: real, before: real)
    requires k > 0.0 && now > 0.0 && before > 0.0
    ensures k / (2.0 * now) > k / (2.0 * before) * SIDEBAND_ADOPTION_MARGIN <==> now * SIDEBAND_ADOPTION_MARGIN < before
  {
    var p, q := k / (2.0 * now), k / (2.0 * before);
    assert p * (2.0 * now) == k && q * (2.0 * before) == k;
    QuotientPositive(k, 2.0 * before);
    var m := SIDEBAND_ADOPTION_MARGIN;
    assert (q * m - p) * (2.0 * now) == (2.0 * (m * now - before)) * q;
    ProductSign(q * m - p, 2.0 * now);
    ProductSign(2.0 * (m * now - before), q);
  }

  lemma QuotientPositive(x: real, y: real)
    requires x > 0.0 && y > 0.0
    ensures x / y > 0.0
  {
    var q := x / y;
    assert q * y == x;
    ProductSign(q, y);
  }

  predicate KeepsWalking(s: ScanSettings, v: View) {
    v.detector == Coarse || ScanTooWideToLock(s, v.amplitude, v.sideband, Some(v.traceLength))
  }

  /** The geometry facts the whole walk maintains on a faithful device. */
  predicate Sound(v: View) {
    OnScale(v.center, v.amplitude) && InWindow(v.target, v.center, v.amplitude)
  }

  /** A redetection that shows the discriminator the other way up. */
  predicate WrongSlope(e: Event, slope: bool) {
    e.Captured? && e.reading.Found? && e.reading.slopeRising != slope
  }

  /** How a stage ends, given the last look it took. */
  function StageOutcome(s: ScanSettings, slope: bool, baselines: Baselines, view: View, plan: RefinementStep,
                        detector: Detector, r: Reading): Result<View, Failure>
    requires view.traceLength > 0
  {
    match r
    case Unavailable => Err(Other)
    case Rejected => Err(PositionLost)
    case Found(_, _, _, _, _, _) =>
      var plain := Seen(r, detector, view.traceLength, view.spf);
      var after := if plan.action == Narrow then plain.(spf := ShiftEstimate(view.spf, view, plain)) else plain;
      if Judge(slope, view.traceLength, baselines, IdentityCheck(s, r, detector, true)) != Accepted then Err(IdentityLost)
      else if plan.action == Narrow && plan.amplitude < Abs(view.amplitude) && Abs(after.amplitude) >= Abs(view.amplitude)
      then Err(PositionLost)
      else Ok(after)
  }

  /** Which look ends a walk, and as what: exactly one of these, or a next view. */
  lemma OutcomeExactly(s: ScanSettings, slope: bool, baselines: Baselines, view: View, plan: RefinementStep,
                       detector: Detector, r: Reading)
    requires view.traceLength > 0
    ensures var outcome := StageOutcome(s, slope, baselines, view, plan, detector, r);
            var same := r.Found? && r.slopeRising == slope && !OtherSpacing(s, view.traceLength, baselines, detector, r);
            var unmoved := r.Found? && plan.action == Narrow && plan.amplitude < Abs(view.amplitude) <= Abs(r.geometry.amplitude);
            && (outcome == Err(Other) <==> r.Unavailable?)
            && (outcome == Err(IdentityLost) <==> r.Found? && !same)
            && (outcome == Err(PositionLost) <==> r.Rejected? || (same && unmoved))
            && (outcome.Ok? <==> same && !unmoved)
  {
    hide Judge, IndexToVoltage, FeatureResolutionSamples, ShiftEstimate;
    if r.Found? {
      SpacingRefusedWhen(slope, view.traceLength, baselines, IdentityCheck(s, r, detector, true));
    }
  }

  /** The spacing seen can be compared with this detector's baseline, and is another: off by over 35 % and over one sample. */
  predicate OtherSpacing(s: ScanSettings, traceLength: int, baselines: Baselines, detector: Detector, r: Reading)
    requires r.Found?
  {
    && r.sideband.Some? && detector in baselines
    && FeatureResolutionSamples(s, r.points, r.geometry.amplitude) <= 1.001 * baselines[detector].resolution
    && var moved := Abs(r.sideband.value - baselines[detector].spacing);
       moved > 0.35 * baselines[detector].spacing && moved * traceLength as real > 2.0 * Abs(r.geometry.amplitude)
  }

  /** What the last event of a stage must show for it to end the walk this way. */
  predicate StageFails(slope: bool, view: View, plan: RefinementStep, last: Event, why: Failure) {
    match why
    case Other => (last.Wrote? && !last.ok) || (last.Captured? && last.reading.Unavailable?)
    case IdentityLost =>
      last.Captured? && last.reading.Found? && (last.reading.slopeRising != slope || last.reading.sideband.Some?)
    case PositionLost =>
      && last.Captured?
      && (last.reading.Rejected? ||
          (last.reading.Found? && plan.action == Narrow && Abs(last.reading.geometry.amplitude) >= Abs(view.amplitude)))
  }

  /** The view a look gives: the geometry read back, the target's voltage on that scan, the spacing and the detector. */
  predicate SeenAs(e: Event, v: View) {
    && e.Captured? && e.reading.Found? && v.detector == e.detector && v.sideband == e.reading.sideband
    && v.center == e.reading.geometry.center && v.amplitude == e.reading.geometry.amplitude
    && v.target == IndexToVoltage(e.reading.index, e.reading.points, v.center, v.amplitude)
  }

  /** A stage that speaks for the width: a narrowing by over 5 %, seen by one detector, that moved the centre no more than the width. */
  predicate Measuring(plan: RefinementStep, before: View, after: View) {
    && plan.action == Narrow && after.detector == before.detector
    && 20.0 * Abs(after.amplitude) < 19.0 * Abs(before.amplitude)
    && Abs(before.amplitude) - Abs(after.amplitude) >= Abs(after.center - before.center)
  }

  /** The shift per unit of relative width change accounts for the shift of this stage. */
  predicate Covers(spf: Option<real>, before: View, after: View) {
    spf.Some? && Abs(after.target - before.target) * Abs(before.amplitude) <= spf.value * (Abs(before.amplitude) - Abs(after.amplitude))
  }

  /** ... and is just what this stage showed. */
  predicate Attains(spf: Option<real>, before: View, after: View) {
    spf.Some? && Abs(after.target - before.target) * Abs(before.amplitude) == spf.value * (Abs(before.amplitude) - Abs(after.amplitude))
  }

  predicate NoLess(earlier: Option<real>, later: Option<real>) {
    earlier.Some? ==> later.Some? && earlier.value <= later.value
  }

  /** What a stage does to the estimate: the worst seen so far if it is a measuring stage, nothing otherwise. */
  predicate Learned(plan: RefinementStep, before: View, after: View) {
    if Measuring(plan, before, after) then
      && Covers(after.spf, before, after) && NoLess(before.spf, after.spf)
      && (after.spf == before.spf || Attains(after.spf, before, after))
    else after.spf == before.spf
  }

  lemma StageLearns(s: ScanSettings, slope: bool, baselines: Baselines, view: View, plan: RefinementStep, look: Event)
    requires view.traceLength > 0 && view.amplitude > 0.000000000001 && look.Captured?
    requires StageOutcome(s, slope, baselines, view, plan, look.detector, look.reading).Ok?
    ensures var after := StageOutcome(s, slope, baselines, view, plan, look.detector, look.reading).value;
            && SeenAs(look, after) && look.reading.slopeRising == slope && after.traceLength == view.traceLength
            && Learned(plan, view, after)
  {
    hide IndexToVoltage, FeatureResolutionSamples, ShiftEstimate, Learned;
    var plain := Seen(look.reading, look.detector, view.traceLength, view.spf);
    EstimateLearns(plan, view, plain);
  }

  lemma EstimateLearns(plan: RefinementStep, before: View, after: View)
    requires before.amplitude > 0.000000000001 && after.spf == before.spf
    ensures Learned(plan, before, if plan.action == Narrow then after.(spf := ShiftEstimate(before.spf, before, after)) else after)
  {
    hide ShiftEstimate;
    var observed := EstimateIs(before.spf, before, after);
    var a, a1 := Abs(before.amplitude), Abs(after.amplitude);
    if before.spf.Some? && a1 < a { ScalesByFraction(observed, Max(before.spf.value, observed), a - a1); }
  }

  lemma EstimateIs(spf: Option<real>, before: View, after: View) returns (observed: real)
    requires before.amplitude > 0.000000000001
    ensures var a, a1 := Abs(before.amplitude), Abs(after.amplitude);
            if 20.0 * a1 < 19.0 * a && after.detector == before.detector && a - a1 >= Abs(after.center - before.center) then
              && ShiftEstimate(spf, before, after) == Some(if spf.None? then observed else Max(spf.value, observed))
              && observed * (a - a1) == Abs(after.target - before.target) * a
            else ShiftEstimate(spf, before, after) == spf
  {
    var a, a1, moved := Abs(before.amplitude), Abs(after.amplitude), Abs(after.target - before.target);
    ObservedShift(moved, a, a1);
    observed := if 1.0 - a1 / a > 0.05 then moved / (1.0 - a1 / a) else 0.0;
  }

  lemma ObservedShift(moved: real, a: real, a1: real)
    requires a > 0.0
    ensures 1.0 - a1 / a > 0.05 <==> 20.0 * a1 < 19.0 * a
    ensures 1.0 - a1 / a > 0.05 ==> moved / (1.0 - a1 / a) * (a - a1) == moved * a
  {
    var ratio := a1 / a;
    assert ratio * a == a1;
    DivisionThreshold(a1, a, 0.95);
    var fraction := 1.0 - ratio;
    assert fraction * a == a - a1;
    if fraction > 0.05 {
      var observed := moved / fraction;
      assert observed * fraction == moved;
      assert observed * (fraction * a) == (observed * fraction) * a;
    }
  }

  /** The view a stage started from. */
  function Start(start: View, stages: seq<View>, i: nat): View
    requires i < |stages|
  {
    if i == 0 then start else stages[i - 1]
  }

  ghost predicate AllLearned(s: ScanSettings, start: View, stages: seq<View>) {
    forall i: nat :: i < |stages| ==> Learned(PlanRefinementStep(s, Start(start, stages, i)), Start(start, stages, i), stages[i])
  }

  predicate MeasuringAt(s: ScanSettings, start: View, stages: seq<View>, i: nat) {
    i < |stages| && Measuring(PlanRefinementStep(s, Start(start, stages, i)), Start(start, stages, i), stages[i])
  }

  /** Over a whole walk the last estimate covers every measuring stage and is what the worst of them showed. */
  lemma {:induction false} EstimateIsWorstSeen(s: ScanSettings, start: View, stages: seq<View>)
    requires AllLearned(s, start, stages) && start.spf.None?
    ensures var spf := (if stages == [] then start else stages[|stages| - 1]).spf;
            && (forall i: nat :: MeasuringAt(s, start, stages, i) ==> Covers(spf, Start(start, stages, i), stages[i]))
            && (spf.Some? ==> exists i: nat :: MeasuringAt(s, start, stages, i) && Attains(spf, Start(start, stages, i), stages[i]))
    decreases |stages|
  {
    hide PlanRefinementStep, Measuring, Covers, Attains;
    if stages != [] {
      var n := |stages| - 1;
      var earlier := stages[..n];
      assert forall i: nat :: i < n ==> earlier[i] == stages[i] && Start(start, earlier, i) == Start(start, stages, i);
      EstimateIsWorstSeen(s, start, earlier);
      var before := (if earlier == [] then start else earlier[|earlier| - 1]).spf;
      assert before == Start(start, stages, n).spf;
      forall i: nat | MeasuringAt(s, start, stages, i) ensures Covers(stages[n].spf, Start(start, stages, i), stages[i]) {
        if i < n {
          assert MeasuringAt(s, start, earlier, i);
          MeasuringNarrows(PlanRefinementStep(s, Start(start, stages, i)), Start(start, stages, i), stages[i]);
          LearnsNoLess(PlanRefinementStep(s, Start(start, stages, n)), Start(start, stages, n), stages[n]);
          CoversMore(before, stages[n].spf, Start(start, stages, i), stages[i]);
        }
      }
      if stages[n].spf.Some? {
        if stages[n].spf == before {
          var i: nat :| MeasuringAt(s, start, earlier, i) && Attains(before, Start(start, earlier, i), earlier[i]);
          assert MeasuringAt(s, start, stages, i);
        } else {
          assert MeasuringAt(s, start, stages, n);
        }
      }
    }
  }

  lemma CoversMore(spf: Option<real>, more: Option<real>, before: View, after: View)
    requires Covers(spf, before, after) && NoLess(spf, more) && Abs(after.amplitude) <= Abs(before.amplitude)
    ensures Covers(more, before, after)
  {
    var width := Abs(before.amplitude) - Abs(after.amplitude);
    ScalesByFraction(spf.value, more.value, width);
    assert spf.value * width <= more.value * width;
  }

  lemma MeasuringNarrows(plan: RefinementStep, before: View, after: View)
    requires Measuring(plan, before, after)
    ensures Abs(after.amplitude) <= Abs(before.amplitude)
  {
  }

  lemma LearnsNoLess(plan: RefinementStep, before: View, after: View)
    requires Learned(plan, before, after)
    ensures NoLess(before.spf, after.spf)
  {
  }

  lemma DetectionIsSound(r: Reading, detector: Detector, traceLength: int, spf: Option<real>)
    requires r.Found? && r.points >= 16 && 0.0 <= r.index <= (r.points - 1) as real
    requires OnScale(r.geometry.center, r.geometry.amplitude)
    ensures Sound(Seen(r, detector, traceLength, spf))
  {
    IndexVoltageInWindow(r.index, r.points, r.geometry.center, r.geometry.amplitude);
  }

  /** On a faithful device whose detectors stay in their traces, what a look from an on-scale geometry finds is in its window. */
  lemma SightIsSound(rig: SweepRig, k: nat, detector: Detector, g: Geometry, traceLength: int)
    requires Faithful(rig) && DetectsInTrace(rig) && OnScale(g.center, g.amplitude) && rig.Sight(k, detector, g).Found?
    ensures Sound(Seen(rig.Sight(k, detector, g), detector, traceLength, None))
  {
    DetectionIsSound(rig.Sight(k, detector, g), detector, traceLength, None);
  }

  /** Where a walk may end: a strict detection on a lockable scan, or an amplitude at the goal, or one of no size at all. */
  predicate Arrived(s: ScanSettings, v: View) {
    (v.detector == Strict && Lockable(s, v)) || v.amplitude <= Goal(s, v) + 0.000000001 || v.amplitude <= 0.00000001
  }

  /** Why a walk may give up: its scan is still not good enough, and the stages ran out, the planner refuses, or the stage under way failed. */
  ghost predicate GaveUp(s: ScanSettings, slope: bool, start: View, stages: seq<View>, events: seq<Event>, why: Failure) {
    var view := if stages == [] then start else stages[|stages| - 1];
    && (view.detector == Coarse || !Lockable(s, view))
    && (if CountWrites(events) == |stages|
        then why == PositionLost && (|stages| == 16 || PlanRefinementStep(s, view).action == Refuse)
        else events != [] && StageFails(slope, view, PlanRefinementStep(s, view), events[|events| - 1], why))
  }

  lemma LearnedOneMore(s: ScanSettings, start: View, stages: seq<View>, view: View, after: View)
    requires AllLearned(s, start, stages) && view == (if stages == [] then start else stages[|stages| - 1])
    requires Learned(PlanRefinementStep(s, view), view, after)
    ensures AllLearned(s, start, stages + [after])
  {
    hide PlanRefinementStep, Learned;
    var more := stages + [after];
    assert forall i: nat :: i < |stages| ==> more[i] == stages[i] && Start(start, more, i) == Start(start, stages, i);
  }

  /** Narrow until the strict detector accepts a lockable scan, one planned stage at a time. */
  method NarrowToGoal(rig: SweepRig, guard: IdentityGuard, s: ScanSettings, start: View)
      returns (outcome: Result<View, Failure>, stages: seq<View>, ghost events: seq<Event>)
    requires guard.traceLength == start.traceLength > 0
    requires start.spf.None?
    modifies rig`step, rig`commanded, rig`log, guard`baselines
    ensures rig.log == old(rig.log) + events
    ensures forall e <- events :: FreshLook(rig, e) || (e.Wrote? && e.purpose.ForStage?)
    ensures forall e <- events :: WrongSlope(e, guard.slope) ==> outcome == Err(IdentityLost)
    ensures |stages| <= CountWrites(events) <= MAX_REFINEMENT_STAGES
    ensures outcome.Ok? ==>
              && |stages| == CountWrites(events)
              && outcome.value == (if stages == [] then start else stages[|stages| - 1])
              && Arrived(s, outcome.value)
    ensures outcome.Err? ==> GaveUp(s, guard.slope, start, stages, events, outcome.error)
    ensures AllLearned(s, start, stages)
    ensures Faithful(rig) && DetectsInTrace(rig) && Sound(start) ==>
              AllSafe(events) && (forall v <- stages :: Sound(v))
  {
    hide PlanRefinementStep, ScanTooWideToLock, OnScale, InWindow, SafeWrite, FreshLook, Goal, Learned, AllLearned, Lockable;
    NothingLearned(s, start);
    var view := start;
    var narrowCount := 0;
    stages, events := [], [];
    while KeepsWalking(s, view)
      invariant rig.log == old(rig.log) + events
      invariant forall e <- events :: FreshLook(rig, e) || (e.Wrote? && e.purpose.ForStage?)
      invariant forall e <- events :: !WrongSlope(e, guard.slope)
      invariant narrowCount == |stages| == CountWrites(events) <= MAX_REFINEMENT_STAGES
      invariant AllLearned(s, start, stages)
      invariant view == if stages == [] then start else stages[|stages| - 1]
      invariant view.traceLength == guard.traceLength && Measured(view.spf)
      invariant Faithful(rig) && DetectsInTrace(rig) && Sound(start) ==>
                  AllSafe(events) && Sound(view) && (forall v <- stages :: Sound(v))
      decreases MAX_REFINEMENT_STAGES - narrowCount
    {
      LockableIffNotTooWide(s, view);
      if narrowCount >= MAX_REFINEMENT_STAGES { return Err(PositionLost), stages, events; }
      var plan := PlanRefinementStep(s, view);
      if plan.action == Done {
        DoneExactlyWhen(s, view);
        break;
      }
      if plan.action == Refuse { return Err(PositionLost), stages, events; }
      var result;
      ghost var stageEvents;
      result, stageEvents := Stage(rig, guard, s, view, plan);
      CountWritesConcat(events, stageEvents);
      events := events + stageEvents;
      if result.Err? { return Err(result.error), stages, events; }
      LearnedOneMore(s, start, stages, view, result.value);
      view := result.value;
      stages := stages + [view];
      narrowCount := narrowCount + 1;
    }
    LockableIffNotTooWide(s, view);
    outcome := Ok(view);
  }

  lemma NothingLearned(s: ScanSettings, start: View)
    ensures AllLearned(s, start, [])
  {
  }

  /** One stage: command the planned geometry, redetect on a fresh sweep, check identity. */
  method Stage(rig: SweepRig, guard: IdentityGuard, s: ScanSettings, view: View, plan: RefinementStep)
      returns (outcome: Result<View, Failure>, ghost events: seq<Event>)
    requires guard.traceLength == view.traceLength > 0
    requires plan == PlanRefinementStep(s, view) && Moves(plan) && Measured(view.spf)
    modifies rig`step, rig`commanded, rig`log, guard`baselines
    ensures rig.log == old(rig.log) + events
    ensures 1 <= |events| <= 3 && CountWrites(events) == 1
    ensures events[0].Wrote? && events[0].geometry == Geometry(plan.center, plan.amplitude)
    ensures events[0].purpose == ForStage(view.target)
    ensures forall i :: 0 < i < |events| ==>
              events[i].Captured? && FreshLook(rig, events[i]) && events[i].after == Some(rig.feed.clock(old(rig.step)))
    ensures if !events[0].ok then |events| == 1 && outcome == Err(Other) && guard.baselines == old(guard.baselines)
            else
              && |events| >= 2
              && var last := events[|events| - 1];
                 && outcome == StageOutcome(s, guard.slope, old(guard.baselines), view, plan, last.detector, last.reading)
                 && guard.baselines == if !last.reading.Found? then old(guard.baselines)
                                       else Updated(guard.slope, old(guard.baselines),
                                                    IdentityCheck(s, last.reading, last.detector, true))
    ensures forall e <- events :: WrongSlope(e, guard.slope) ==> outcome == Err(IdentityLost)
    ensures outcome.Err? ==> StageFails(guard.slope, view, plan, events[|events| - 1], outcome.error)
    ensures outcome.Ok? ==> outcome.value.traceLength == view.traceLength && Measured(outcome.value.spf)
    ensures outcome.Ok? ==> SeenAs(events[|events| - 1], outcome.value) && Learned(plan, view, outcome.value)
    ensures outcome.Ok? && plan.action == Narrow && plan.amplitude < Abs(view.amplitude) ==>
              Abs(outcome.value.amplitude) < Abs(view.amplitude)
    ensures Faithful(rig) && DetectsInTrace(rig) && Sound(view) ==>
              AllSafe(events) && (outcome.Ok? ==> Sound(outcome.value))
  {
    hide PlanRefinementStep, IndexToVoltage, FeatureResolutionSamples, ShiftEstimate, OnScale, CountWrites, FreshLook;
    var g := Geometry(plan.center, plan.amplitude);
    var ok, movedAt := rig.SetSweepGeometry(g, ForStage(view.target));
    events := [Wrote(g, ForStage(view.target), ok)];
    OneWrite(events);
    PlannedWriteIsSafe(s, view, ok);
    if !ok { return Err(Other), events; }
    var detector, r;
    ghost var looks;
    detector, r, looks := Redetect(rig, plan.action == Narrow, movedAt);
    events := events + looks;
    OneWrite(events);
    if r.Unavailable? { return Err(Other), events; }
    if r.Rejected? { return Err(PositionLost), events; }
    if r.geometry == g && Sound(view) { CommandedDetectionIsSound(s, view, r, detector); }
    var after := Seen(r, detector, view.traceLength, view.spf);
    if plan.action == Narrow {
      after := after.(spf := ShiftEstimate(view.spf, view, after));
    }
    var verdict := guard.Examine(IdentityCheck(s, r, detector, true));
    if verdict != Accepted { return Err(IdentityLost), events; }
    if plan.action == Narrow && plan.amplitude < Abs(view.amplitude) && Abs(after.amplitude) >= Abs(view.amplitude) {
      return Err(PositionLost), events;
    }
    outcome := Ok(after);
    PlanIsForPositive(s, view);
    StageLearns(s, guard.slope, old(guard.baselines), view, plan, events[|events| - 1]);
  }

  lemma PlanIsForPositive(s: ScanSettings, view: View)
    requires Moves(PlanRefinementStep(s, view))
    ensures view.amplitude > 0.000000000001
  {
    hide PlanRefinementStep, ScheduledAmplitude, CommittedAmplitude;
    StepShape(s, view);
  }

  /** A narrowing looks with the strict detector first and falls back to the tracker; a recentring only tracks. */
  method Redetect(rig: SweepRig, strictFirst: bool, movedAt: real)
      returns (detector: Detector, r: Reading, ghost events: seq<Event>)
    modifies rig`step, rig`log
    ensures rig.log == old(rig.log) + events
    ensures 1 <= |events| <= 2 && events[|events| - 1] == Captured(detector, Some(movedAt), r)
    ensures |events| == 2 ==> events[0] == Captured(Strict, Some(movedAt), Rejected) && detector == Coarse
    ensures |events| == 1 ==> detector == if strictFirst then Strict else Coarse
    ensures forall e <- events :: e.Captured? && e.after == Some(movedAt) && FreshLook(rig, e)
    ensures r.Found? && Faithful(rig) ==> r.geometry == rig.commanded
    ensures r.Found? && DetectsInTrace(rig) ==> r.points >= 16 && 0.0 <= r.index <= (r.points - 1) as real
    ensures r.Rejected? ==> detector == Coarse
  {
    hide FetchedAfter, Arrives;
    events := [];
    detector, r := Coarse, Rejected;
    if strictFirst {
      r := rig.Capture(Strict, Some(movedAt));
      events := [Captured(Strict, Some(movedAt), r)];
      detector := Strict;
    }
    if r.Rejected? {
      r := rig.Capture(Coarse, Some(movedAt));
      events := events + [Captured(Coarse, Some(movedAt), r)];
      detector := Coarse;
    }
  }

  lemma OneWrite(events: seq<Event>)
    requires events != [] && events[0].Wrote? && forall i :: 0 < i < |events| ==> events[i].Captured?
    ensures CountWrites(events) == 1
  {
    if |events| > 1 {
      OneWrite(events[..|events| - 1]);
    } else {
      assert events[..0] == [];
    }
  }

  lemma PlannedWriteIsSafe(s: ScanSettings, view: View, ok: bool)
    requires Moves(PlanRefinementStep(s, view)) && Measured(view.spf)
    ensures Sound(view) ==>
              SafeWrite(Wrote(Geometry(PlanRefinementStep(s, view).center, PlanRefinementStep(s, view).amplitude),
                              ForStage(view.target), ok))
  {
    if Sound(view) { PlannedGeometryIsSafe(s, view); }
  }

  lemma CommandedDetectionIsSound(s: ScanSettings, view: View, r: Reading, detector: Detector)
    requires Moves(PlanRefinementStep(s, view)) && Measured(view.spf) && Sound(view)
    requires r.Found?
    requires r.geometry == Geometry(PlanRefinementStep(s, view).center, PlanRefinementStep(s, view).amplitude)
    ensures r.points >= 16 && 0.0 <= r.index <= (r.points - 1) as real ==>
              forall spf :: Sound(Seen(r, detector, view.traceLength, spf))
  {
    PlannedGeometryIsSafe(s, view);
    if r.points >= 16 && 0.0 <= r.index <= (r.points - 1) as real {
      DetectionIsSound(r, detector, view.traceLength, None);
    }
  }
}
