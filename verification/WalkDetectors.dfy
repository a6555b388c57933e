/**
 * What the refinement walk asks of its detectors, discharged by the detectors themselves:
 * _capture_auto_lock_target and _coarse_auto_lock_target in linien-gateway/app/session.py
 * hand the walk exactly what linien-gateway/app/auto_lock_scan.py found, told the geometry
 * read back. That the read-back is what was commanded is the device's part (`Faithful`).
 */
module WalkDetectors {
  import opened Common
  import opened LockRefinement
  import opened RefinementWalk
  import LockDetector
  import CoarseTracker

  /** Some trace, with some settings, makes the strict detector find this. */
  ghost predicate StrictlySeen(spot: Spot) {
    exists trace: seq<real>, order: seq<nat>, setup: LockDetector.Setup :: StrictOutcome(trace, order, setup, spot)
  }

  predicate StrictOutcome(trace: seq<real>, order: seq<nat>, setup: LockDetector.Setup, spot: Spot) {
    && LockDetector.Detection(trace, order, setup).Ok?
    && var found := LockDetector.Detection(trace, order, setup).value;
       spot == Spot(found.position, |trace|, found.rising, spot.sideband)
  }

  /** Some trace, told this geometry, makes the tracker find this. */
  ghost predicate CoarselySeen(spot: Spot, g: Geometry) {
    exists scan: CoarseTracker.Scan, levels: seq<CoarseTracker.Level>, modulation :: CoarseOutcome(scan, levels, modulation, spot, g)
  }

  predicate CoarseOutcome(scan: CoarseTracker.Scan, levels: seq<CoarseTracker.Level>, modulation: Option<real>, spot: Spot, g: Geometry) {
    && scan.noise > 0.0 && (forall k :: 0 <= k < |levels| ==> |levels[k].signal| == scan.n)
    && CoarseTracker.NaiveCoarse(scan, levels, g.center, g.amplitude, modulation).Ok?
    && var found := CoarseTracker.NaiveCoarse(scan, levels, g.center, g.amplitude, modulation).value;
       spot == Spot(found.index as real, scan.n, found.slopeRising, found.spacing)
  }

  /** Whatever sweeps the device produces, every detection the walk is handed comes from its detectors. */
  ghost predicate FromDetectors(rig: SweepRig) {
    forall k, d, g :: rig.detect(k, d, g).Some? ==>
      if d == Strict then StrictlySeen(rig.detect(k, d, g).value) else CoarselySeen(rig.detect(k, d, g).value, g)
  }

  lemma StrictSpotInTrace(spot: Spot)
    requires StrictlySeen(spot)
    ensures spot.points >= 16 && 0.0 <= spot.index <= (spot.points - 1) as real
  {
    hide LockDetector.Detection;
    var trace: seq<real>, order: seq<nat>, setup: LockDetector.Setup :| StrictOutcome(trace, order, setup, spot);
    DetectedMeansLive(trace, order, setup);
    LockDetector.DetectionIsBestAccepted(trace, order, setup);
  }

  lemma DetectedMeansLive(trace: seq<real>, order: seq<nat>, setup: LockDetector.Setup)
    requires LockDetector.Detection(trace, order, setup).Ok?
    ensures |trace| >= 16 && LockDetector.HasSignal(trace, setup.settings)
  {
  }

  lemma CoarseSpotInTrace(spot: Spot, g: Geometry)
    requires CoarselySeen(spot, g)
    ensures spot.points >= 16 && 0.0 <= spot.index <= (spot.points - 1) as real
  {
    hide CoarseTracker.NaiveCoarse;
    var scan: CoarseTracker.Scan, levels: seq<CoarseTracker.Level>, modulation :| CoarseOutcome(scan, levels, modulation, spot, g);
    TrackedMeansLong(scan, levels, g, modulation);
    CoarseTracker.CoarseTargetIsBestPair(scan, levels, g.center, g.amplitude, modulation);
  }

  lemma TrackedMeansLong(scan: CoarseTracker.Scan, levels: seq<CoarseTracker.Level>, g: Geometry, modulation: Option<real>)
    requires scan.noise > 0.0 && (forall k :: 0 <= k < |levels| ==> |levels[k].signal| == scan.n)
    requires CoarseTracker.NaiveCoarse(scan, levels, g.center, g.amplitude, modulation).Ok?
    ensures scan.n >= 16
  {
  }

  /** Whatever the sweeps look like, these detectors report positions inside their traces. */
  lemma DetectorsStayInTrace(rig: SweepRig)
    requires FromDetectors(rig)
    ensures DetectsInTrace(rig)
  {
    hide StrictlySeen, CoarselySeen;
    forall k, d, g | rig.detect(k, d, g).Some?
      ensures var spot := rig.detect(k, d, g).value; spot.points >= 16 && 0.0 <= spot.index <= (spot.points - 1) as real
    {
      if d == Strict {
        StrictSpotInTrace(rig.detect(k, d, g).value);
      } else {
        CoarseSpotInTrace(rig.detect(k, d, g).value, g);
      }
    }
  }
}
