/**
 * The guard that a refinement walk is still on the feature it started on
 * (IdentityGuard in linien-gateway/app/lock_refinement.py).
 */
module IdentityGuards {
  import opened Common
  import opened LockRefinement

  const SIDEBAND_TOLERANCE_FRACTION := 0.35
  const SIDEBAND_ADOPTION_MARGIN := 1.001

  /** What a detection says about the feature. */
  datatype Target = Target(voltage: real, slopeRising: bool, sideband: Option<real>)

  datatype Baseline = Baseline(spacing: real, resolution: real)

  datatype Verdict = Accepted | SlopeChanged | SidebandChanged

  datatype Check = Check(candidate: Target, amplitude: real, detector: Detector, resolution: real, checkSideband: bool)

  type Baselines = map<Detector, Baseline>

  function Tolerance(known: Baseline, amplitude: real, traceLength: int): real
    requires traceLength > 0
  {
    Max(SIDEBAND_TOLERANCE_FRACTION * known.spacing, 2.0 * Abs(amplitude) / traceLength as real)
  }

  /** A reading that replaces, or founds, its estimator's baseline instead of being judged against it. */
  predicate Adopts(b: Baselines, c: Check) {
    && c.checkSideband && c.candidate.sideband.Some?
    && (c.detector !in b || c.resolution > b[c.detector].resolution * SIDEBAND_ADOPTION_MARGIN)
  }

  function Judge(slope: bool, traceLength: int, b: Baselines, c: Check): Verdict
    requires traceLength > 0
  {
    if c.candidate.slopeRising != slope then SlopeChanged
    else if !c.checkSideband || c.candidate.sideband.None? || Adopts(b, c) then Accepted
    else if Abs(c.candidate.sideband.value - b[c.detector].spacing)
              > Tolerance(b[c.detector], c.amplitude, traceLength) then SidebandChanged
    else Accepted
  }

  function Updated(slope: bool, b: Baselines, c: Check): Baselines {
    if c.candidate.slopeRising == slope && Adopts(b, c)
    then b[c.detector := Baseline(c.candidate.sideband.value, c.resolution)]
    else b
  }

  /** At an unchanged geometry only the slope is compared, and no baseline moves. */
  lemma SlopeOnly(slope: bool, traceLength: int, b: Baselines, c: Check)
    requires traceLength > 0 && !c.checkSideband
    ensures Judge(slope, traceLength, b, c) == (if c.candidate.slopeRising == slope then Accepted else SlopeChanged)
    ensures Updated(slope, b, c) == b
  {
  }

  /**
   * When a spacing is refused: exactly if it is compared, against a baseline of the same detector that was at least as
   * well resolved to 0.1 %, and differs from it by more than 35 % and by more than one sample.
   */
  lemma SpacingRefusedWhen(slope: bool, traceLength: int, b: Baselines, c: Check)
    requires traceLength > 0
    ensures Judge(slope, traceLength, b, c) == SidebandChanged <==>
              && c.candidate.slopeRising == slope && c.checkSideband && c.candidate.sideband.Some? && c.detector in b
              && c.resolution <= 1.001 * b[c.detector].resolution
              && var moved := Abs(c.candidate.sideband.value - b[c.detector].spacing);
                 moved > 0.35 * b[c.detector].spacing && moved * traceLength as real > 2.0 * Abs(c.amplitude)
    ensures Judge(slope, traceLength, b, c) == SlopeChanged <==> c.candidate.slopeRising != slope
  {
    if c.detector in b && c.candidate.sideband.Some? {
      var moved := Abs(c.candidate.sideband.value - b[c.detector].spacing);
      MoreThan(moved, 2.0 * Abs(c.amplitude), traceLength as real);
    }
  }

  lemma MoreThan(x: real, span: real, n: real)
    requires n > 0.0
    ensures x > span / n <==> x * n > span
  {
    var q := span / n;
    assert q * n == span;
    assert (x - q) * n == x * n - span;
    if x > q { assert (x - q) * n > 0.0; } else { assert (q - x) * n >= 0.0; }
  }

  class IdentityGuard {
    const slope: bool
    const traceLength: int
    var baselines: Baselines

    constructor (target: Target, resolution: real, traceLength: int, detector: Detector)
      ensures slope == target.slopeRising && this.traceLength == traceLength
      ensures baselines == if target.sideband.Some? then map[detector := Baseline(target.sideband.value, resolution)]
                           else map[]
    {
      slope := target.slopeRising;
      this.traceLength := traceLength;
      baselines := if target.sideband.Some? then map[detector := Baseline(target.sideband.value, resolution)]
                   else map[];
    }

    method Examine(c: Check) returns (verdict: Verdict)
      requires traceLength > 0
      modifies this`baselines
      ensures verdict == Judge(slope, traceLength, old(baselines), c)
      ensures baselines == Updated(slope, old(baselines), c)
    {
      if c.candidate.slopeRising != slope { return SlopeChanged; }
      if !c.checkSideband || c.candidate.sideband.None? { return Accepted; }
      var spacing := c.candidate.sideband.value;
      if c.detector !in baselines {
        baselines := baselines[c.detector := Baseline(spacing, c.resolution)];
        return Accepted;
      }
      var known := baselines[c.detector];
      if c.resolution > known.resolution * SIDEBAND_ADOPTION_MARGIN {
        baselines := baselines[c.detector := Baseline(spacing, c.resolution)];
        return Accepted;
      }
      var tolerance := Max(SIDEBAND_TOLERANCE_FRACTION * known.spacing, 2.0 * Abs(c.amplitude) / traceLength as real);
      verdict := if Abs(spacing - known.spacing) > tolerance then SidebandChanged else Accepted;
    }
  }

  // ---------------------------------------------------------------------------
  // Whole runs of checks
  // ---------------------------------------------------------------------------

  predicate Comparable(c: Check) {
    c.checkSideband && c.candidate.sideband.Some?
  }

  /** The baselines after a run of checks. */
  ghost function After(slope: bool, b: Baselines, run: seq<Check>): Baselines
    decreases run
  {
    if run == [] then b else After(slope, Updated(slope, b, run[0]), run[1..])
  }

  ghost predicate AllAccepted(slope: bool, traceLength: int, b: Baselines, run: seq<Check>)
    requires traceLength > 0
    decreases run
  {
    run == [] ||
    (Judge(slope, traceLength, b, run[0]) == Accepted &&
     AllAccepted(slope, traceLength, Updated(slope, b, run[0]), run[1..]))
  }

  /**
   * Over any accepted run, however the estimators interleave: every candidate has the
   * slope the walk was seeded with, and as long as no reading of an estimator
   * out-resolves its baseline, that baseline stands and every reading of that
   * estimator is within tolerance of it - drift cannot accumulate from check to check. A
   * scan made really narrower does out-resolve it, and founds a new baseline.
   */
  lemma {:induction false} AcceptedRunKeepsIdentity(slope: bool, traceLength: int, b: Baselines, run: seq<Check>, d: Detector)
    requires traceLength > 0 && AllAccepted(slope, traceLength, b, run)
    ensures forall i :: 0 <= i < |run| ==> run[i].candidate.slopeRising == slope
    ensures d in b && (forall i :: 0 <= i < |run| && run[i].detector == d ==>
                         run[i].resolution <= b[d].resolution * SIDEBAND_ADOPTION_MARGIN) ==>
              && d in After(slope, b, run) && After(slope, b, run)[d] == b[d]
              && (forall i :: 0 <= i < |run| && run[i].detector == d && Comparable(run[i]) ==>
                    Abs(run[i].candidate.sideband.value - b[d].spacing)
                      <= Tolerance(b[d], run[i].amplitude, traceLength))
    decreases run
  {
    if run != [] {
      var rest := run[1..];
      assert forall i :: 0 < i < |run| ==> run[i] == rest[i - 1];
      AcceptedRunKeepsIdentity(slope, traceLength, Updated(slope, b, run[0]), rest, d);
    }
  }

  /** Each check out-resolves the one before it, as after every scheduled cut. */
  predicate OutResolves(b: Baselines, run: seq<Check>, d: Detector) {
    && (forall i :: 0 <= i < |run| ==> run[i].detector == d && Comparable(run[i]))
    && (run != [] && d in b ==> run[0].resolution > b[d].resolution * SIDEBAND_ADOPTION_MARGIN)
    && (forall i :: 0 <= i < |run| - 1 ==> run[i + 1].resolution > run[i].resolution * SIDEBAND_ADOPTION_MARGIN)
  }

  /** Over such a run no spacing is ever judged: whatever the spacings, the right slope is all it takes. */
  lemma {:induction false} OutResolvingRunIsAccepted(slope: bool, traceLength: int, b: Baselines, run: seq<Check>, d: Detector)
    requires traceLength > 0 && OutResolves(b, run, d)
    requires forall i :: 0 <= i < |run| ==> run[i].candidate.slopeRising == slope
    ensures AllAccepted(slope, traceLength, b, run)
    ensures run != [] ==> d in After(slope, b, run) && After(slope, b, run)[d].spacing == run[|run| - 1].candidate.sideband.value
    decreases run
  {
    if run != [] {
      assert run[0].detector == d && Adopts(b, run[0]);
      var next := Updated(slope, b, run[0]);
      assert forall i :: 0 <= i < |run[1..]| ==> run[1..][i] == run[i + 1];
      OutResolvingRunIsAccepted(slope, traceLength, next, run[1..], d);
    }
  }
}
