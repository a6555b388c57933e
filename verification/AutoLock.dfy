/**
 * The outcome of a refinement walk and the hand-over to the lock
 * (_trajectory_refine_auto_lock, auto_lock_from_scan, start_sweep and the deferred
 * sweep geometry in linien-gateway/app/session.py).
 */
module AutoLock {
  import opened Common
  import opened AutoLockSettings
  import opened LockAcceptance
  import opened LockRefinement
  import opened RefinementPlanner
  import opened IdentityGuards
  import opened FreshTrace
  import opened RefinementWalk

  const SAME_GEOMETRY := 0.000001

  /** What an aborted walk reports: why, and whether the original geometry could be put back. */
  datatype Aborted = Aborted(failure: Failure, restored: bool)

  function VerifyTolerance(s: ScanSettings, acceptance: AcceptanceSettings, traceLength: int, one: Reading, two: Reading): real
    requires one.Found? && two.Found?
  {
    Max(AcceptanceWindowFor(acceptance, s.halfRange, two.sideband).tolerance,
        2.0 * Abs(one.geometry.amplitude) / MaxInt(1, traceLength - 1) as real)
  }

  function HandoverSeconds(acceptance: AcceptanceSettings): real {
    Max(0.0, acceptance.settleMs as real / 1000.0)
  }

  function Drift(one: Reading, two: Reading): real
    requires one.Found? && two.Found?
  {
    Abs(TargetOf(one).voltage - TargetOf(two).voltage)
  }

  /** The drift a hand-over is charged with: extrapolated from the measured rate, or the displacement itself. */
  function PredictedDrift(drift: real, elapsed: real, handover: real): real {
    if elapsed > 0.001 then drift / elapsed * handover else drift
  }

  /** Two strict detections agree: one crossing, one geometry, slow enough to hand over. */
  predicate Agree(s: ScanSettings, acceptance: AcceptanceSettings, traceLength: int, slope: bool,
                  one: Reading, two: Reading, elapsed: real)
  {
    && one.Found? && two.Found?
    && one.slopeRising == slope && two.slopeRising == slope
    && GeometryKept(one, two) && SameCrossing(s, acceptance, one, two) && SlowEnough(s, acceptance, traceLength, one, two, elapsed)
  }

  predicate GeometryKept(one: Reading, two: Reading)
    requires one.Found? && two.Found?
  {
    && -0.000001 <= two.geometry.center - one.geometry.center <= 0.000001
    && -0.000001 <= two.geometry.amplitude - one.geometry.amplitude <= 0.000001
  }

  /** The target has not moved as far as the guard to the next feature. */
  predicate SameCrossing(s: ScanSettings, acceptance: AcceptanceSettings, one: Reading, two: Reading)
    requires one.Found? && two.Found?
  {
    var bound := AcceptanceWindowFor(acceptance, s.halfRange, two.sideband).bound;
    bound.Some? ==> -bound.value <= TargetOf(two).voltage - TargetOf(one).voltage <= bound.value
  }

  /**
   * At the rate it showed between the two detections the target moves, while the mechanics settle, no further than the
   * acceptance window or one sample; if they were not a millisecond apart, it must not have moved further than that.
   */
  predicate SlowEnough(s: ScanSettings, acceptance: AcceptanceSettings, traceLength: int, one: Reading, two: Reading, interval: real)
    requires one.Found? && two.Found?
  {
    var moved := Abs(TargetOf(two).voltage - TargetOf(one).voltage);
    var settle := if acceptance.settleMs > 0 then acceptance.settleMs as real / 1000.0 else 0.0;
    var window := AcceptanceWindowFor(acceptance, s.halfRange, two.sideband).tolerance;
    var span, samples := 2.0 * Abs(one.geometry.amplitude), MaxInt(1, traceLength - 1) as real;
    if interval > 0.001 then moved * settle <= window * interval || moved * settle * samples <= span * interval
    else moved <= window || moved * samples <= span
  }

  /** The division-free gate is the code's: rate, prediction and tolerance. */
  lemma DriftGate(s: ScanSettings, acceptance: AcceptanceSettings, traceLength: int, one: Reading, two: Reading, interval: real)
    requires one.Found? && two.Found?
    ensures SlowEnough(s, acceptance, traceLength, one, two, interval) <==>
            PredictedDrift(Drift(one, two), interval, HandoverSeconds(acceptance))
              <= VerifyTolerance(s, acceptance, traceLength, one, two)
  {
    hide IndexToVoltage, AcceptanceWindowFor, PredictedDrift;
    GateInReals(Drift(one, two), interval, HandoverSeconds(acceptance), AcceptanceWindowFor(acceptance, s.halfRange, two.sideband).tolerance,
                2.0 * Abs(one.geometry.amplitude), MaxInt(1, traceLength - 1) as real);
  }

  lemma GateInReals(moved: real, interval: real, settle: real, window: real, span: real, samples: real)
    requires samples >= 1.0
    ensures PredictedDrift(moved, interval, settle) <= Max(window, span / samples) <==>
            if interval > 0.001 then moved * settle <= window * interval || moved * settle * samples <= span * interval
            else moved <= window || moved * samples <= span
  {
    PredictionFits(moved, interval, settle, window, span, samples);
    NoMoreThan(moved, span, samples);
  }

  lemma PredictionFits(moved: real, interval: real, settle: real, window: real, span: real, samples: real)
    requires samples >= 1.0
    ensures interval > 0.001 ==>
              && (moved / interval * settle <= window <==> moved * settle <= window * interval)
              && (moved / interval * settle <= span / samples <==> moved * settle * samples <= span * interval)
  {
    if interval > 0.001 {
      var p, q := moved / interval, span / samples;
      assert p * interval == moved && q * samples == span;
      assert p * settle * interval == p * interval * settle;
      ProductSign(window - p * settle, interval);
      assert (window - p * settle) * interval == window * interval - moved * settle;
      ProductSign(q - p * settle, interval);
      assert (q - p * settle) * interval == q * interval - moved * settle;
      ProductSign(q * interval - moved * settle, samples);
      assert (q * interval - moved * settle) * samples == span * interval - moved * settle * samples by {
        assert q * interval * samples == q * samples * interval;
      }
    }
  }

  lemma NoMoreThan(x: real, span: real, samples: real)
    requires samples >= 1.0
    ensures x <= span / samples <==> x * samples <= span
  {
    var q := span / samples;
    assert q * samples == span;
    ProductSign(q - x, samples);
    assert (q - x) * samples == span - x * samples;
  }

  /** A strict detection on a sweep fetched after a mark of its own. */
  ghost predicate FreshStrict(rig: SweepRig, look: Event) {
    FreshLook(rig, look) && look.detector == Strict
  }

  /**
   * The clock readings behind two final detections that ended at step `end`: the first mark, its sweep,
   * the second mark, the start of the interval, the second sweep, the end of the interval.
   */
  predicate MarkedAt(rig: SweepRig, end: nat, first: Event, second: Event) {
    && end >= 6 && first.Captured? && second.Captured?
    && first.after == Some(rig.feed.clock(end - 6)) && second.after == Some(rig.feed.clock(end - 4))
  }

  function MeasuredInterval(rig: SweepRig, end: nat): real {
    if end < 3 then 0.0 else Max(0.0, rig.feed.clock(end - 1) - rig.feed.clock(end - 3))
  }

  /** The interval is the clock's, and none if the clock went back. */
  lemma IntervalIsClocked(rig: SweepRig, end: nat)
    requires end >= 3
    ensures var oneAt, twoAt := rig.feed.clock(end - 3), rig.feed.clock(end - 1);
            if oneAt <= twoAt then oneAt + MeasuredInterval(rig, end) == twoAt else MeasuredInterval(rig, end) == 0.0
  {
  }

  /** The log ends with two agreeing strict detections, each on a sweep acquired after its own mark, and nothing since. */
  ghost predicate EndsVerified(events: seq<Event>, s: ScanSettings, acceptance: AcceptanceSettings,
                               traceLength: int, slope: bool, two: Reading, rig: SweepRig, end: nat)
  {
    && |events| >= 2
    && (var first, second := events[|events| - 2], events[|events| - 1];
        && MarkedAt(rig, end, first, second)
        && FreshStrict(rig, first) && first.reading.Found?
        && FreshStrict(rig, second) && second.reading.Found? && second.reading == two
        && Agree(s, acceptance, traceLength, slope, first.reading, two, MeasuredInterval(rig, end)))
  }

  /** Why the final detections were not good enough: one is missing or has the wrong slope, or the two disagree. */
  ghost predicate EndsRefused(events: seq<Event>, s: ScanSettings, acceptance: AcceptanceSettings,
                              traceLength: int, slope: bool, elapsed: real, why: Failure)
    requires forall e <- events :: e.Captured?
  {
    && events != []
    && (var last := events[|events| - 1].reading;
        if last.Rejected? then why == PositionLost
        else if last.Unavailable? then why == Other
        else if last.slopeRising != slope then why == IdentityLost
        else
          && |events| >= 2 && events[|events| - 2].reading.Found?
          && var one := events[|events| - 2].reading;
             && one.slopeRising == slope
             && if !GeometryKept(one, last) then why == PositionLost
                else if !SameCrossing(s, acceptance, one, last) then why == IdentityLost
                else !SlowEnough(s, acceptance, traceLength, one, last, elapsed) && why == PositionLost)
  }

  /** The checks on the two final detections, in the order they are made. */
  function FinalVerdict(s: ScanSettings, acceptance: AcceptanceSettings, traceLength: int,
                        one: Reading, two: Reading, elapsed: real): Option<Failure>
    requires one.Found? && two.Found?
  {
    var bound := AcceptanceWindowFor(acceptance, s.halfRange, two.sideband).bound;
    if Abs(two.geometry.center - one.geometry.center) > SAME_GEOMETRY then Some(PositionLost)
    else if Abs(two.geometry.amplitude - one.geometry.amplitude) > SAME_GEOMETRY then Some(PositionLost)
    else if one.slopeRising != two.slopeRising then Some(IdentityLost)
    else if bound.Some? && Drift(one, two) > bound.value then Some(IdentityLost)
    else if PredictedDrift(Drift(one, two), elapsed, HandoverSeconds(acceptance))
              > VerifyTolerance(s, acceptance, traceLength, one, two) then Some(PositionLost)
    else None
  }

  lemma VerdictIffAgree(s: ScanSettings, acceptance: AcceptanceSettings, traceLength: int, slope: bool,
                        one: Reading, two: Reading, elapsed: real)
    requires one.Found? && two.Found? && one.slopeRising == slope
    ensures FinalVerdict(s, acceptance, traceLength, one, two, elapsed).None? <==>
              Agree(s, acceptance, traceLength, slope, one, two, elapsed)
    ensures two.slopeRising == slope ==>
              FinalVerdict(s, acceptance, traceLength, one, two, elapsed) ==
              if !GeometryKept(one, two) then Some(PositionLost)
              else if !SameCrossing(s, acceptance, one, two) then Some(IdentityLost)
              else if !SlowEnough(s, acceptance, traceLength, one, two, elapsed) then Some(PositionLost) else None
  {
    hide IndexToVoltage, VerifyTolerance, AcceptanceWindowFor, PredictedDrift, SlowEnough;
    DriftGate(s, acceptance, traceLength, one, two, elapsed);
  }

  function FailureOf(r: Reading): Failure {
    if r.Rejected? then PositionLost else Other
  }

  /** A final detection must exist and have the slope the walk was seeded with. */
  method ConfirmIdentity(guard: IdentityGuard, s: ScanSettings, r: Reading)
      returns (outcome: Result<Reading, Failure>)
    requires guard.traceLength > 0
    modifies guard`baselines
    ensures guard.baselines == old(guard.baselines)
    ensures outcome == if r.Rejected? then Err(PositionLost) else if r.Unavailable? then Err(Other)
                       else if r.slopeRising != guard.slope then Err(IdentityLost) else Ok(r)
  {
    hide Judge, Updated, FeatureResolutionSamples, IndexToVoltage;
    if !r.Found? { return Err(FailureOf(r)); }
    SlopeOnly(guard.slope, guard.traceLength, guard.baselines, IdentityCheck(s, r, Strict, false));
    var verdict := guard.Examine(IdentityCheck(s, r, Strict, false));
    outcome := if verdict == Accepted then Ok(r) else Err(IdentityLost);
  }

  /** The first final detection; a rejected frame is retried once, on a newer sweep. */
  method FirstDetection(rig: SweepRig) returns (one: Reading, ghost rejected: seq<Event>, ghost look: Event)
    modifies rig`step, rig`log
    ensures rig.log == old(rig.log) + rejected + [look]
    ensures FreshStrict(rig, look) && look.reading == one
    ensures rig.step >= 2 && look.after == Some(rig.feed.clock(rig.step - 2))
    ensures |rejected| <= 1 && (forall e <- rejected :: FreshStrict(rig, e) && !e.reading.Found?)
    ensures !one.Found? ==> |rejected| == 1
  {
    var mark := rig.Now();
    one := rig.Capture(Strict, Some(mark));
    rejected, look := [], Captured(Strict, Some(mark), one);
    if !one.Found? {
      rejected := [look];
      mark := rig.Now();
      one := rig.Capture(Strict, Some(mark));
      look := Captured(Strict, Some(mark), one);
    }
  }

  /** The second, with the time it took. */
  method SecondDetection(rig: SweepRig) returns (two: Reading, elapsed: real, ghost look: Event)
    modifies rig`step, rig`log
    ensures rig.log == old(rig.log) + [look]
    ensures FreshStrict(rig, look) && look.reading == two
    ensures rig.step == old(rig.step) + 4 && look.after == Some(rig.feed.clock(old(rig.step)))
    ensures elapsed == MeasuredInterval(rig, rig.step)
  {
    var verifyAfter := rig.Now();
    var oneAt := rig.Now();
    two := rig.Capture(Strict, Some(verifyAfter));
    var twoAt := rig.Now();
    look := Captured(Strict, Some(verifyAfter), two);
    elapsed := Max(0.0, twoAt - oneAt);
  }

  /** Demand two fresh strict detections at the unchanged geometry; the first may be retried once. */
  method VerifyTwice(rig: SweepRig, guard: IdentityGuard, s: ScanSettings, acceptance: AcceptanceSettings)
      returns (outcome: Result<Reading, Failure>, ghost events: seq<Event>)
    requires guard.traceLength > 0
    modifies rig`step, rig`log, guard`baselines
    ensures rig.log == old(rig.log) + events
    ensures 1 <= |events| <= 3 && forall e <- events :: e.Captured? && FreshStrict(rig, e)
    ensures if outcome.Ok? then EndsVerified(events, s, acceptance, guard.traceLength, guard.slope, outcome.value, rig, rig.step)
            else EndsRefused(events, s, acceptance, guard.traceLength, guard.slope, MeasuredInterval(rig, rig.step), outcome.error)
    ensures forall e <- events :: WrongSlope(e, guard.slope) ==> outcome == Err(IdentityLost)
    ensures guard.baselines == old(guard.baselines)
  {
    hide FinalVerdict, Agree, EndsVerified, MeasuredInterval, GeometryKept, SameCrossing, SlowEnough;
    var one;
    ghost var prefix, first;
    one, prefix, first := FirstDetection(rig);
    events := prefix + [first];
    outcome := ConfirmIdentity(guard, s, one);
    if outcome.Err? { return; }
    var two, elapsed;
    ghost var second;
    two, elapsed, second := SecondDetection(rig);
    events := prefix + [first, second];
    assert rig.log == old(rig.log) + events;
    outcome := ConfirmIdentity(guard, s, two);
    if outcome.Err? { return; }
    var failure := FinalVerdict(s, acceptance, guard.traceLength, one, two, elapsed);
    VerdictIffAgree(s, acceptance, guard.traceLength, guard.slope, one, two, elapsed);
    if failure.Some? {
      return Err(failure.value), events;
    }
    VerifiedEnding(prefix, first, second, s, acceptance, guard.traceLength, guard.slope, rig, rig.step);
  }

  lemma VerifiedEnding(prefix: seq<Event>, first: Event, second: Event, s: ScanSettings, acceptance: AcceptanceSettings,
                       traceLength: int, slope: bool, rig: SweepRig, end: nat)
    requires FreshStrict(rig, first) && first.reading.Found? && FreshStrict(rig, second) && second.reading.Found?
    requires MarkedAt(rig, end, first, second)
    requires Agree(s, acceptance, traceLength, slope, first.reading, second.reading, MeasuredInterval(rig, end))
    ensures EndsVerified(prefix + [first, second], s, acceptance, traceLength, slope, second.reading, rig, end)
  {
    hide Agree, FreshStrict, MeasuredInterval, MarkedAt;
  }

  lemma VerifiedIsStrict(events: seq<Event>, s: ScanSettings, acceptance: AcceptanceSettings,
                         traceLength: int, slope: bool, two: Reading, rig: SweepRig, end: nat)
    requires EndsVerified(events, s, acceptance, traceLength, slope, two, rig, end)
    ensures two.Found?
    ensures exists e <- events :: e.Captured? && e.detector == Strict && e.after.Some? && e.reading == two
  {
    hide Agree;
    assert events[|events| - 1] in events;
  }

  lemma VerifiedAfter(before: seq<Event>, events: seq<Event>, s: ScanSettings, acceptance: AcceptanceSettings,
                      traceLength: int, slope: bool, two: Reading, rig: SweepRig, end: nat)
    requires EndsVerified(events, s, acceptance, traceLength, slope, two, rig, end)
    ensures EndsVerified(before + events, s, acceptance, traceLength, slope, two, rig, end)
  {
    hide Agree;
  }

  /** A walk only looks, commands stages and restores. */
  predicate WalkEvent(e: Event) {
    e.Captured? || (e.Wrote? && !e.purpose.ForDeferredRestore?)
  }

  /** Why a walk failed: it gave up on the way, or it arrived and the final detections were refused. */
  ghost predicate WalkFails(s: ScanSettings, acceptance: AcceptanceSettings, slope: bool, start: View, stages: seq<View>,
                            walk: seq<Event>, checks: seq<Event>, interval: real, why: Failure)
  {
    if checks == [] then GaveUp(s, slope, start, stages, walk, why)
    else
      && Arrived(s, if stages == [] then start else stages[|stages| - 1])
      && (forall e <- checks :: e.Captured?)
      && EndsRefused(checks, s, acceptance, start.traceLength, slope, interval, why)
  }

  ghost predicate Failed(s: ScanSettings, acceptance: AcceptanceSettings, slope: bool, start: View, events: seq<Event>,
                         interval: real, why: Failure)
  {
    exists stages: seq<View>, n: nat ::
      n <= |events| && WalkFails(s, acceptance, slope, start, stages, events[..n], events[n..], interval, why)
  }

  lemma FailedAt(s: ScanSettings, acceptance: AcceptanceSettings, slope: bool, start: View, stages: seq<View>,
                 walk: seq<Event>, checks: seq<Event>, interval: real, why: Failure)
    requires WalkFails(s, acceptance, slope, start, stages, walk, checks, interval, why)
    ensures Failed(s, acceptance, slope, start, walk + checks, interval, why)
  {
    hide WalkFails;
    var n, events := |walk|, walk + checks;
    assert events[..n] == walk && events[n..] == checks;
  }

  /** Narrow down to the goal, then demand the two final detections there. */
  method NarrowAndVerify(rig: SweepRig, s: ScanSettings, acceptance: AcceptanceSettings,
                         seed: Reading, seedDetector: Detector, traceLength: int)
      returns (outcome: Result<Reading, Failure>, ghost events: seq<Event>)
    requires seed.Found? && traceLength > 0
    modifies rig`step, rig`commanded, rig`log
    ensures rig.log == old(rig.log) + events
    ensures forall e <- events :: WalkEvent(e) && (e.Captured? ==> FreshLook(rig, e))
    ensures forall e <- events :: WrongSlope(e, seed.slopeRising) ==> outcome == Err(IdentityLost)
    ensures CountWrites(events) <= MAX_REFINEMENT_STAGES
    ensures outcome.Ok? ==>
              EndsVerified(events, s, acceptance, traceLength, seed.slopeRising, outcome.value, rig, rig.step)
    ensures outcome.Err? ==> Failed(s, acceptance, seed.slopeRising, Seen(seed, seedDetector, traceLength, None), events,
                                    MeasuredInterval(rig, rig.step), outcome.error)
    ensures Faithful(rig) && DetectsInTrace(rig) && Sound(Seen(seed, seedDetector, traceLength, None)) ==> AllSafe(events)
  {
    hide PlanRefinementStep, ScanTooWideToLock, OnScale, InWindow, SafeWrite, EndsVerified, IndexToVoltage, CountWrites,
         FetchedAfter, Failed, GaveUp, Arrived, EndsRefused, MeasuredInterval;
    var guard := new IdentityGuard(TargetOf(seed), FeatureResolutionSamples(s, seed.points, seed.geometry.amplitude),
                                   traceLength, seedDetector);
    var narrowed, stages;
    narrowed, stages, events := NarrowToGoal(rig, guard, s, Seen(seed, seedDetector, traceLength, None));
    ghost var start := Seen(seed, seedDetector, traceLength, None);
    if narrowed.Err? {
      FailedAt(s, acceptance, seed.slopeRising, start, stages, events, [], MeasuredInterval(rig, rig.step), narrowed.error);
      assert events + [] == events;
      return Err(narrowed.error), events;
    }
    ghost var walk := events;
    ghost var checks;
    outcome, checks := VerifyTwice(rig, guard, s, acceptance);
    CountWritesConcat(walk, checks);
    CapturesWriteNothing(checks);
    events := walk + checks;
    if outcome.Ok? {
      VerifiedAfter(walk, checks, s, acceptance, traceLength, seed.slopeRising, outcome.value, rig, rig.step);
    } else {
      FailedAt(s, acceptance, seed.slopeRising, start, stages, walk, checks, MeasuredInterval(rig, rig.step), outcome.error);
    }
  }

  /** The whole walk; on any failure it tries to put the original geometry back. */
  method TrajectoryRefine(rig: SweepRig, s: ScanSettings, acceptance: AcceptanceSettings, original: Geometry,
                          seed: Reading, seedDetector: Detector, traceLength: int)
      returns (outcome: Result<Reading, Aborted>, ghost events: seq<Event>)
    requires seed.Found? && traceLength > 0
    modifies rig`step, rig`commanded, rig`log
    ensures rig.log == old(rig.log) + events
    ensures forall e <- events :: WalkEvent(e) && (e.Captured? ==> FreshLook(rig, e))
    ensures forall e <- events :: WrongSlope(e, seed.slopeRising) ==> outcome.Err? && outcome.error.failure == IdentityLost
    ensures outcome.Ok? ==>
              && CountWrites(events) <= MAX_REFINEMENT_STAGES
              && EndsVerified(events, s, acceptance, traceLength, seed.slopeRising, outcome.value, rig, rig.step)
    ensures outcome.Err? ==>
              && events != []
              && events[|events| - 1] == Wrote(original, ForRestore, outcome.error.restored)
              && CountWrites(events[..|events| - 1]) <= MAX_REFINEMENT_STAGES
              && rig.step > 0
              && Failed(s, acceptance, seed.slopeRising, Seen(seed, seedDetector, traceLength, None), events[..|events| - 1],
                        MeasuredInterval(rig, rig.step - 1), outcome.error.failure)
    ensures Faithful(rig) && DetectsInTrace(rig) && Sound(Seen(seed, seedDetector, traceLength, None)) ==>
              AllSafe(if outcome.Ok? then events else events[..|events| - 1])
  {
    hide Sound, SafeWrite, AllSafe, EndsVerified, CountWrites, Faithful, DetectsInTrace, Failed, MeasuredInterval;
    var refined;
    refined, events := NarrowAndVerify(rig, s, acceptance, seed, seedDetector, traceLength);
    if refined.Ok? {
      return Ok(refined.value), events;
    }
    ghost var walk := events;
    var restored, _ := rig.SetSweepGeometry(original, ForRestore);
    events := walk + [Wrote(original, ForRestore, restored)];
    assert events[..|events| - 1] == walk;
    outcome := Err(Aborted(refined.error, restored));
  }

  lemma {:induction false} CapturesWriteNothing(events: seq<Event>)
    requires forall e <- events :: e.Captured?
    ensures CountWrites(events) == 0 && AllSafe(events)
  {
    if events != [] {
      CapturesWriteNothing(events[..|events| - 1]);
      assert events[|events| - 1] in events;
    }
  }

  // ---------------------------------------------------------------------------
  // Hand-over to the lock
  // ---------------------------------------------------------------------------

  datatype LockError =
    | Busy
    | NotReady
    | NothingDetected
    | WalkAborted(aborted: Aborted)
    | HandoverFailed

  predicate DeferredFollowsSweep(log: seq<Event>) {
    forall i :: 0 <= i < |log| && log[i].Wrote? && log[i].purpose.ForDeferredRestore? ==>
      i > 0 && log[i - 1].StartedSweep?
  }

  predicate Starts(e: Event) {
    e.StartedLock?
  }

  predicate AtMostOneStart(events: seq<Event>) {
    forall i, j :: 0 <= i < j < |events| && Starts(events[i]) ==> !Starts(events[j])
  }

  /** The reading comes from the strict detector, never from the tracker. */
  predicate StrictlyDetected(events: seq<Event>, r: Reading) {
    exists e <- events :: e.Captured? && e.detector == Strict && e.reading == r
  }

  ghost predicate Verified(events: seq<Event>, s: ScanSettings, acceptance: AcceptanceSettings, traceLength: int,
                           two: Reading, rig: SweepRig, end: nat)
  {
    exists slope :: EndsVerified(events, s, acceptance, traceLength, slope, two, rig, end)
  }

  ghost predicate NoStart(events: seq<Event>) {
    forall e <- events :: !Starts(e)
  }

  ghost predicate LookedAgain(events: seq<Event>) {
    exists e <- events :: e.Captured? && e.after.Some?
  }

  ghost predicate WroteGeometry(events: seq<Event>) {
    exists e <- events :: e.Wrote?
  }

  /** Every geometry a walk stage commanded was on scale and contained the target it was planned from. */
  ghost predicate StagesSafe(events: seq<Event>) {
    forall e <- events :: e.Wrote? && e.purpose.ForStage? ==> SafeWrite(e)
  }

  /** A device that realises what it is told, shows its targets inside its traces, and starts on scale. */
  ghost predicate WellBehaved(rig: SweepRig)
    reads rig`commanded
  {
    Faithful(rig) && DetectsInTrace(rig) && OnScale(rig.commanded.center, rig.commanded.amplitude)
  }

  lemma SafeWalkHasSafeStages(before: seq<Event>, walk: seq<Event>, aborted: bool)
    requires forall e <- before :: !e.Wrote?
    requires aborted ==> walk != [] && walk[|walk| - 1].Wrote? && walk[|walk| - 1].purpose == ForRestore
    requires AllSafe(if aborted then walk[..|walk| - 1] else walk)
    ensures StagesSafe(before + walk)
  {
    hide SafeWrite;
    var safe := if aborted then walk[..|walk| - 1] else walk;
    forall e | e in before + walk && e.Wrote? && e.purpose.ForStage? ensures SafeWrite(e) {
      assert e in walk;
      var k :| 0 <= k < |walk| && walk[k] == e;
      assert safe[k] == e;
    }
  }

  lemma StagesSafeBefore(walk: seq<Event>, moves: seq<Event>)
    requires StagesSafe(walk) && forall e <- moves :: !(e.Wrote? && e.purpose.ForStage?)
    ensures StagesSafe(walk + moves)
  {
    hide SafeWrite;
  }

  /** The last thing done was to try to put this geometry back. */
  predicate EndsRestoring(events: seq<Event>, g: Geometry) {
    && events != []
    && var last := events[|events| - 1];
       last.Wrote? && last.purpose == ForRestore && last.geometry == g
  }

  /** The hand-over takes no further looks, so what the walk saw decides. */
  lemma HandOverAddsNoLooks(walk: seq<Event>, moves: seq<Event>, r: Reading)
    requires forall e <- moves :: !e.Captured?
    ensures Contradicted(walk + moves) ==> Contradicted(walk)
    ensures LookedAgain(walk + moves) <==> LookedAgain(walk)
    ensures StrictlyDetected(walk, r) ==> StrictlyDetected(walk + moves, r)
  {
    forall e | e in walk ensures e in walk + moves {
    }
  }

  lemma NothingDone()
    ensures AtMostOneStart([]) && !Contradicted([]) && !LookedAgain([]) && !WroteGeometry([]) && StagesSafe([])
  {
  }

  lemma StrictLookPrecedes(walk: seq<Event>, r: Reading)
    requires StrictlyDetected(walk, r)
    ensures walk != []
  {
  }

  lemma HandOverWrites(walk: seq<Event>, moves: seq<Event>)
    ensures WroteGeometry(walk + moves) <==> WroteGeometry(walk) || WroteGeometry(moves)
    ensures moves != [] ==> forall g :: EndsRestoring(walk + moves, g) <==> EndsRestoring(moves, g)
  {
    forall e ensures e in walk + moves <==> e in walk || e in moves {
    }
  }

  /** The first looks: the strict detector at the scan as it is, and the tracker if it rejects that. */
  predicate LooksFirst(events: seq<Event>) {
    && events != [] && events[0].Captured? && events[0].detector == Strict && events[0].after.None?
    && (events[0].reading.Rejected? ==>
          |events| >= 2 && events[1].Captured? && events[1].detector == Coarse && events[1].after.None?)
  }

  function SeedLook(events: seq<Event>): Event
    requires LooksFirst(events)
  {
    if events[0].reading.Rejected? then events[1] else events[0]
  }

  /** What was done after the first looks. */
  function AfterLooks(events: seq<Event>): seq<Event>
    requires LooksFirst(events)
  {
    events[if events[0].reading.Rejected? then 2 else 1..]
  }

  /** The walk failed this way from the detection the first looks gave, and the operator's geometry was put back. */
  ghost predicate WalkFailed(events: seq<Event>, s: ScanSettings, acceptance: AcceptanceSettings, traceLength: int,
                             rig: SweepRig, end: nat, why: Failure)
  {
    && LooksFirst(events) && end > 0
    && var seed, walk := SeedLook(events), AfterLooks(events);
       && seed.reading.Found? && walk != []
       && Failed(s, acceptance, seed.reading.slopeRising, Seen(seed.reading, seed.detector, traceLength, None), walk[..|walk| - 1],
                 MeasuredInterval(rig, end - 1), why)
  }

  lemma LooksStay(looks: seq<Event>, seed: Event, walk: seq<Event>)
    requires LooksFirst(looks) && SeedLook(looks) == seed && AfterLooks(looks) == []
    ensures LooksFirst(looks + walk) && SeedLook(looks + walk) == seed && AfterLooks(looks + walk) == walk
  {
  }

  lemma WalkFailedFrom(looks: seq<Event>, seed: Event, walk: seq<Event>, restore: Event, s: ScanSettings,
                       acceptance: AcceptanceSettings, traceLength: int, rig: SweepRig, end: nat, why: Failure)
    requires LooksFirst(looks) && SeedLook(looks) == seed && AfterLooks(looks) == [] && seed.reading.Found? && end > 0
    requires Failed(s, acceptance, seed.reading.slopeRising, Seen(seed.reading, seed.detector, traceLength, None), walk,
                    MeasuredInterval(rig, end - 1), why)
    ensures WalkFailed(looks + (walk + [restore]), s, acceptance, traceLength, rig, end, why)
  {
    hide Failed, Seen, MeasuredInterval, LooksFirst, SeedLook, AfterLooks;
    LooksStay(looks, seed, walk + [restore]);
    assert (walk + [restore])[..|walk + [restore]| - 1] == walk;
  }

  lemma NothingSeen(looks: seq<Event>, aborted: Option<Failure>, original: Option<Geometry>)
    requires LooksFirst(looks)
    ensures SeedLook(looks).reading.Unavailable? ==> NotLocked(NotReady, looks, aborted, original)
    ensures SeedLook(looks).reading.Rejected? ==> NotLocked(NothingDetected, looks, aborted, original)
  {
  }

  lemma AbortedNotLocked(events: seq<Event>, cause: Aborted, original: Option<Geometry>)
    ensures NotLocked(WalkAborted(cause), events, Some(cause.failure), original)
  {
  }

  /** What must have happened for the session to give up on locking with this error. */
  ghost predicate NotLocked(error: LockError, events: seq<Event>, aborted: Option<Failure>, original: Option<Geometry>) {
    match error
    case Busy => false
    case NotReady => original.None? || (LooksFirst(events) && SeedLook(events).reading.Unavailable?)
    case NothingDetected => LooksFirst(events) && SeedLook(events).reading.Rejected?
    case WalkAborted(cause) => aborted == Some(cause.failure)
    case HandoverFailed => exists e <- events :: (e.MovedCenter? || e.StartedLock?) && !e.ok
  }

  lemma NoScanNotReady(events: seq<Event>, aborted: Option<Failure>)
    ensures NotLocked(NotReady, events, aborted, None)
  {
  }

  lemma HandoverNotLocked(walk: seq<Event>, moves: seq<Event>, aborted: Option<Failure>, original: Option<Geometry>)
    requires exists e <- moves :: (e.MovedCenter? || e.StartedLock?) && !e.ok
    ensures NotLocked(HandoverFailed, walk + moves, aborted, original)
  {
    var e :| e in moves && (e.MovedCenter? || e.StartedLock?) && !e.ok;
    assert e in walk + moves;
  }

  ghost predicate WalkFailedOnTheWay(events: seq<Event>, s: ScanSettings, acceptance: AcceptanceSettings, traceLength: int,
                                     rig: SweepRig, why: Failure)
  {
    exists n: nat, end: nat :: n <= |events| && WalkFailed(events[..n], s, acceptance, traceLength, rig, end, why)
  }

  lemma WalkFailedBefore(walk: seq<Event>, moves: seq<Event>, s: ScanSettings, acceptance: AcceptanceSettings, traceLength: int,
                         rig: SweepRig, end: nat, why: Failure)
    requires WalkFailed(walk, s, acceptance, traceLength, rig, end, why)
    ensures WalkFailedOnTheWay(walk + moves, s, acceptance, traceLength, rig, why)
  {
    hide WalkFailed;
    assert (walk + moves)[..|walk|] == walk;
  }

  /** Some redetection during the walk showed the other slope than the detection the walk was seeded with. */
  ghost predicate Contradicted(events: seq<Event>) {
    exists seed <- events, seen <- events ::
      && seed.Captured? && seed.after.None? && seed.reading.Found?
      && seen.Captured? && seen.after.Some? && WrongSlope(seen, seed.reading.slopeRising)
  }

  lemma OnlyLooks(looks: seq<Event>)
    requires LooksFirst(looks) && AfterLooks(looks) == []
    ensures NoStart(looks) && AtMostOneStart(looks) && StagesSafe(looks) && StrictlyDetected(looks, looks[0].reading)
    ensures !WroteGeometry(looks) && !LookedAgain(looks) && !Contradicted(looks)
  {
  }

  lemma WalkNeverStarts(events: seq<Event>)
    requires forall e <- events :: WalkEvent(e)
    ensures NoStart(events) && AtMostOneStart(events)
  {
  }

  lemma DirectStays(looks: seq<Event>, walk: seq<Event>)
    requires LooksFirst(looks)
    ensures StrictlyDetected(looks + walk, looks[0].reading)
  {
    assert looks[0] in looks + walk;
  }

  lemma FreshLooksHaveMarks(rig: SweepRig, events: seq<Event>)
    requires forall e <- events :: e.Captured? ==> FreshLook(rig, e)
    ensures forall e <- events :: e.Captured? ==> e.after.Some?
  {
  }

  lemma WalkAgrees(looks: seq<Event>, seed: Event, walk: seq<Event>)
    requires LooksFirst(looks) && SeedLook(looks) == seed && AfterLooks(looks) == [] && seed.reading.Found?
    requires forall e <- walk :: (e.Captured? ==> e.after.Some?) && !WrongSlope(e, seed.reading.slopeRising)
    ensures !Contradicted(looks + walk)
  {
    forall e | e in looks + walk ensures e in looks || e in walk {
    }
  }

  lemma SuccessStays(looks: seq<Event>, walk: seq<Event>, s: ScanSettings, acceptance: AcceptanceSettings,
                     traceLength: int, slope: bool, two: Reading, rig: SweepRig, end: nat)
    requires EndsVerified(walk, s, acceptance, traceLength, slope, two, rig, end)
    ensures Verified(looks + walk, s, acceptance, traceLength, two, rig, end) && two.Found?
    ensures LookedAgain(looks + walk) && StrictlyDetected(looks + walk, two)
  {
    hide EndsVerified;
    VerifiedAfter(looks, walk, s, acceptance, traceLength, slope, two, rig, end);
    VerifiedIsStrict(walk, s, acceptance, traceLength, slope, two, rig, end);
    forall e | e in walk ensures e in looks + walk {
    }
  }

  /** The part of a device session that owns the sweep geometry and the lock. */
  class LockSession {
    const rig: SweepRig
    var centerMoveHeld: bool
    var deferred: Option<Geometry>

    /** Over the whole life of the session, a deferred geometry is written only right after a sweep start. */
    ghost predicate Valid()
      reads this, rig
    {
      DeferredFollowsSweep(rig.log)
    }

    constructor (rig: SweepRig)
      requires rig.log == []
      ensures this.rig == rig && Valid() && !centerMoveHeld && deferred.None?
    {
      this.rig := rig;
      centerMoveHeld, deferred := false, None;
    }

    /** Lock on a strict detection, refining the scan first when it is rejected or too wide. */
    method AutoLockFromScan(s: ScanSettings, acceptance: AcceptanceSettings, traceLength: int)
        returns (outcome: Result<Reading, LockError>, ghost events: seq<Event>, aborted: Option<Failure>)
      requires Valid() && traceLength > 0
      modifies this`centerMoveHeld, this`deferred, rig`step, rig`commanded, rig`log
      ensures Valid() && rig.log == old(rig.log) + events
      ensures centerMoveHeld == old(centerMoveHeld)
      ensures old(centerMoveHeld) ==> outcome == Err(Busy) && events == [] && deferred == old(deferred)
      // at most one lock start, and it is the last thing done
      ensures AtMostOneStart(events)
      ensures outcome.Ok? ==>
                && |events| >= 3 && outcome.value.Found?
                && events[|events| - 2] == MovedCenter(TargetOf(outcome.value).voltage, true)
                && events[|events| - 1] == StartedLock(true)
                && StrictlyDetected(events, outcome.value)
      // never after the walk lost the feature, nor after any look that contradicts the seed
      ensures aborted == Some(IdentityLost) || Contradicted(events) ==> outcome.Err? && NoStart(events)
      // a walk that is not aborted hands over from two agreeing strict detections, with nothing in between
      ensures outcome.Ok? && aborted.None? && LookedAgain(events) ==>
                && |events| >= 2 && rig.step >= 2
                && Verified(events[..|events| - 2], s, acceptance, traceLength, outcome.value, rig, rig.step - 2)
      // a failure that commanded anything ends by trying to put the operator's geometry back
      ensures outcome.Err? && WroteGeometry(events) ==>
                var original := rig.readBack(old(rig.step), old(rig.commanded));
                original.Some? && EndsRestoring(events, original.value)
      // on a well-behaved device every stage stayed on scale and kept its target in view
      ensures old(WellBehaved(rig)) ==> StagesSafe(events)
      // only a completed refinement leaves a geometry to restore later
      ensures deferred != old(deferred) ==>
                outcome.Ok? && aborted.None? && LookedAgain(events)
                && deferred == rig.readBack(old(rig.step), old(rig.commanded))
      // and it gives up only for a reason the events show
      ensures outcome == Err(Busy) <==> old(centerMoveHeld)
      ensures outcome.Err? && outcome.error != Busy ==>
                NotLocked(outcome.error, events, aborted, rig.readBack(old(rig.step), old(rig.commanded)))
      ensures aborted.Some? ==> WalkFailedOnTheWay(events, s, acceptance, traceLength, rig, aborted.value)
      // without a walk the detection is one on a scan narrow enough to lock
      ensures outcome.Ok? && aborted.None? && !LookedAgain(events) ==>
                !ScanTooWideToLock(s, outcome.value.geometry.amplitude, outcome.value.sideband, Some(traceLength))
    {
      hide AtMostOneStart, StrictlyDetected, Contradicted, Verified, NoStart, LookedAgain, WroteGeometry, EndsRestoring, StagesSafe,
           WellBehaved, LooksFirst, SeedLook, AfterLooks, WalkFailed, WalkFailedOnTheWay, NotLocked, ScanTooWideToLock, TargetOf,
           DeferredFollowsSweep, OnScale, IndexToVoltage;
      events, aborted := [], None;
      NothingDone();
      if centerMoveHeld { return Err(Busy), events, aborted; }
      centerMoveHeld := true;
      var original := SnapshotUnlocked(rig);
      if original.None? {
        centerMoveHeld := false;
        NoScanNotReady(events, aborted);
        return Err(NotReady), events, aborted;
      }
      var target, refined;
      target, refined, events, aborted := DetectOrRefine(s, acceptance, original.value, traceLength);
      if target.Err? {
        centerMoveHeld := false;
        LogGrows(old(rig.log), events);
        if aborted.Some? {
          assert events + [] == events;
          WalkFailedBefore(events, [], s, acceptance, traceLength, rig, rig.step, aborted.value);
        }
        return Err(target.error), events, aborted;
      }
      ghost var end := rig.step;
      var locked;
      ghost var moves;
      locked, moves := MoveAndLock(target.value, original.value, refined);
      ghost var walk := events;
      events := walk + moves;
      StartsOnlyInSuffix(walk, moves);
      HandOverAddsNoLooks(walk, moves, target.value);
      HandOverWrites(walk, moves);
      if old(WellBehaved(rig)) { StagesSafeBefore(walk, moves); }
      assert rig.log == old(rig.log) + events;
      LogGrows(old(rig.log), events);
      if aborted.Some? { WalkFailedBefore(walk, moves, s, acceptance, traceLength, rig, end, aborted.value); }
      if !locked { HandoverNotLocked(walk, moves, aborted, original); }
      if locked {
        assert events[..|events| - 2] == walk;
        StrictLookPrecedes(walk, target.value);
        if refined && aborted.None? {
          deferred := original;
        }
      }
      centerMoveHeld := false;
      outcome := if locked then Ok(target.value) else Err(HandoverFailed);
    }

    /** A strict detection is authoritative; a rejected or over-wide scan goes through the walk. */
    method DetectOrRefine(s: ScanSettings, acceptance: AcceptanceSettings, original: Geometry, traceLength: int)
        returns (target: Result<Reading, LockError>, refined: bool, ghost events: seq<Event>, aborted: Option<Failure>)
      requires traceLength > 0
      modifies rig`step, rig`commanded, rig`log
      ensures rig.log == old(rig.log) + events
      ensures events != [] && events[0].Captured? && events[0].detector == Strict && forall e <- events :: WalkEvent(e)
      ensures NoStart(events) && AtMostOneStart(events)
      ensures target.Ok? ==> target.value.Found? && StrictlyDetected(events, target.value)
      ensures aborted == Some(IdentityLost) || Contradicted(events) ==> target.Err?
      ensures old(WellBehaved(rig)) ==> StagesSafe(events)
      ensures target.Ok? && aborted.None? && LookedAgain(events) ==>
                Verified(events, s, acceptance, traceLength, target.value, rig, rig.step)
      // a strict detection on a scan that is not too wide is used as it is, and only such a one
      ensures var direct := events[0].reading;
              (direct.Found? && !ScanTooWideToLock(s, direct.geometry.amplitude, direct.sideband, Some(traceLength)) <==>
                 target.Ok? && !refined)
      ensures target.Ok? && !refined ==> !WroteGeometry(events) && |events| == 1 && target.value == events[0].reading
      // the direct detection also stands in for a walk that failed for any other reason than identity
      ensures target.Ok? && refined && aborted.Some? ==> target.value == events[0].reading
      ensures events[0].reading.Found? && aborted.Some? && aborted != Some(IdentityLost) ==> target.Ok?
      ensures target.Ok? && refined && aborted.None? ==> LookedAgain(events)
      ensures target.Err? && WroteGeometry(events) ==> EndsRestoring(events, original)
      // with nothing seen there is no walk; a walk is given up only for a reason the events show
      ensures LooksFirst(events)
      ensures SeedLook(events).reading.Unavailable? <==> target == Err(NotReady)
      ensures SeedLook(events).reading.Rejected? <==> target == Err(NothingDetected)
      ensures !SeedLook(events).reading.Found? ==> AfterLooks(events) == []
      ensures target.Err? && SeedLook(events).reading.Found? ==>
                target.error.WalkAborted? && aborted == Some(target.error.aborted.failure)
      ensures target.Err? ==>
                !target.error.Busy? && !target.error.HandoverFailed? && NotLocked(target.error, events, aborted, Some(original))
      ensures aborted.Some? ==> refined && WalkFailed(events, s, acceptance, traceLength, rig, rig.step, aborted.value)
    {
      hide IndexToVoltage, ScanTooWideToLock, Sound, SafeWrite, Agree, EndsVerified, CountWrites, MeasuredInterval, FreshLook, Failed,
           LooksFirst, SeedLook, AfterLooks, WalkFailed, NotLocked, NoStart, AtMostOneStart, Contradicted, LookedAgain,
           WroteGeometry, StagesSafe, StrictlyDetected, Verified;
      aborted, refined := None, false;
      var direct, seed, seedDetector;
      direct, seed, seedDetector, events := FirstLook(traceLength);
      ghost var look := Captured(seedDetector, None, seed);
      NothingSeen(events, aborted, Some(original));
      OnlyLooks(events);
      if seed.Unavailable? { return Err(NotReady), refined, events, aborted; }
      if seed.Rejected? { return Err(NothingDetected), refined, events, aborted; }
      if direct.Found? && !ScanTooWideToLock(s, direct.geometry.amplitude, direct.sideband, Some(traceLength)) {
        assert events[0].reading == direct;
        return Ok(direct), refined, events, aborted;
      }
      refined := true;
      var walked;
      ghost var walk;
      walked, walk := TrajectoryRefine(rig, s, acceptance, original, seed, seedDetector, traceLength);
      ghost var before := events;
      events := before + walk;
      LooksStay(before, look, walk);
      if old(WellBehaved(rig)) {
        SafeWalkHasSafeStages(before, walk, walked.Err?);
      }
      WalkNeverStarts(events);
      FreshLooksHaveMarks(rig, walk);
      if walked.Ok? || walked.error.failure != IdentityLost { WalkAgrees(before, look, walk); }
      if walked.Ok? {
        SuccessStays(before, walk, s, acceptance, traceLength, seed.slopeRising, walked.value, rig, rig.step);
        return Ok(walked.value), refined, events, aborted;
      }
      assert events[|events| - 1] == walk[|walk| - 1];
      aborted := Some(walked.error.failure);
      assert walk == walk[..|walk| - 1] + [walk[|walk| - 1]];
      WalkFailedFrom(before, look, walk[..|walk| - 1], walk[|walk| - 1], s, acceptance, traceLength, rig, rig.step, walked.error.failure);
      AbortedNotLocked(events, walked.error, Some(original));
      DirectStays(before, walk);
      if direct.Found? && walked.error.failure != IdentityLost {
        return Ok(direct), refined, events, aborted;
      }
      target := Err(WalkAborted(walked.error));
    }

    /** The strict detector's answer and what a walk would start from: that, or the tracker's answer if it rejects the trace. */
    method FirstLook(traceLength: int)
        returns (direct: Reading, seed: Reading, detector: Detector, ghost looks: seq<Event>)
      modifies rig`step, rig`log
      ensures rig.log == old(rig.log) + looks
      ensures if direct.Rejected?
              then detector == Coarse && looks == [Captured(Strict, None, direct), Captured(Coarse, None, seed)]
              else detector == Strict && looks == [Captured(Strict, None, direct)] && seed == direct
      ensures LooksFirst(looks) && SeedLook(looks) == Captured(detector, None, seed) && AfterLooks(looks) == []
      ensures WellBehaved(rig) && seed.Found? ==> Sound(Seen(seed, detector, traceLength, None))
    {
      hide Sound, IndexToVoltage, Faithful, DetectsInTrace, OnScale;
      ghost var k := rig.step;
      direct := rig.Capture(Strict, None);
      seed, detector, looks := direct, Strict, [Captured(Strict, None, direct)];
      if direct.Rejected? {
        k := rig.step;
        seed := rig.Capture(Coarse, None);
        detector, looks := Coarse, looks + [Captured(Coarse, None, seed)];
      }
      if WellBehaved(rig) && seed.Found? { SightIsSound(rig, k, detector, rig.commanded, traceLength); }
    }

    /** Move the centre onto the target and start the lock; a failed hand-over of a refined scan is undone. */
    method MoveAndLock(target: Reading, original: Geometry, refined: bool)
        returns (locked: bool, ghost events: seq<Event>)
      requires target.Found?
      modifies rig`step, rig`commanded, rig`log
      ensures rig.log == old(rig.log) + events
      ensures locked ==>
                events == [MovedCenter(TargetOf(target).voltage, true), StartedLock(true)] && rig.step == old(rig.step) + 2
      ensures events != [] && events[0].MovedCenter? && AtMostOneStart(events)
      ensures forall e <- events :: !e.Captured? && (e.Wrote? ==> e.purpose == ForRestore)
      ensures !locked ==> forall e <- events :: Starts(e) ==> !e.ok
      ensures !locked ==> exists e <- events :: (e.MovedCenter? || e.StartedLock?) && !e.ok
      ensures if !locked && refined then EndsRestoring(events, original) else !WroteGeometry(events)
    {
      hide IndexToVoltage;
      locked, events := rig.MoveCenterAndStartLock(TargetOf(target).voltage);
      if !locked && refined {
        var restored, _ := rig.SetSweepGeometry(original, ForRestore);
        events := events + [Wrote(original, ForRestore, restored)];
      }
    }

    /** Start the sweep; the lock is off now, so a pending restore can no longer move its operating point. */
    method StartSweep() returns (ghost events: seq<Event>)
      requires Valid()
      modifies this`deferred, rig`step, rig`commanded, rig`log
      ensures Valid() && rig.log == old(rig.log) + events
      ensures deferred.None?
      ensures if old(deferred).None? then events == [StartedSweep]
              else |events| == 2 && events[0] == StartedSweep && events[1].Wrote?
                   && events[1] == Wrote(old(deferred).value, ForDeferredRestore, events[1].ok)
    {
      rig.StartSweep();
      events := [StartedSweep];
      var pending := deferred;
      if pending.Some? {
        deferred := None;
        var restored, _ := rig.SetSweepGeometry(pending.value, ForDeferredRestore);
        events := events + [Wrote(pending.value, ForDeferredRestore, restored)];
      }
    }

    /** The operator's own sweep setting goes out, and wins over a pending restore even if it does not get through. */
    method OperatorSetsGeometry(axis: Axis, value: real) returns (ok: bool)
      requires Valid()
      modifies this`deferred, rig`step, rig`commanded, rig`log
      ensures Valid() && deferred.None?
      ensures rig.log == old(rig.log) + [SetByOperator(axis, value, ok)]
      ensures rig.commanded == if !ok then old(rig.commanded)
                               else if axis == SweepCenter then Geometry(value, old(rig.commanded).amplitude)
                               else Geometry(old(rig.commanded).center, value)
    {
      deferred := None;
      ok := rig.SetAxis(axis, value);
    }
  }

  lemma LogGrows(log: seq<Event>, events: seq<Event>)
    requires DeferredFollowsSweep(log)
    requires forall e <- events :: !(e.Wrote? && e.purpose.ForDeferredRestore?)
    ensures DeferredFollowsSweep(log + events)
  {
    assert forall k :: 0 <= k < |events| ==> events[k] in events;
    var all := log + events;
    forall i | 0 <= i < |all| && all[i].Wrote? && all[i].purpose.ForDeferredRestore?
      ensures i > 0 && all[i - 1].StartedSweep?
    {
    }
  }

  lemma StartsOnlyInSuffix(walk: seq<Event>, moves: seq<Event>)
    requires NoStart(walk) && AtMostOneStart(moves)
    ensures AtMostOneStart(walk + moves)
  {
    assert forall k :: 0 <= k < |walk| ==> walk[k] in walk;
  }
}
