/**
 * The strict detector (find_auto_lock_target in linien-gateway/app/auto_lock_scan.py): only
 * what it accepts may start a lock. The trace is the smoothed error signal.
 */
module LockDetector {
  import opened Common
  import opened AutoLockSettings
  import opened Crossings
  import opened ExtremaPairs
  import opened Ranking

  datatype Accepted = Accepted(
    index: nat, position: real, score: real, rising: bool, lobes: Lobes, monitorLevel: Option<real>)

  datatype Verdict = TooNearEnd | BelowThresholds(oppositeSlopeWouldPass: bool) | MonitorVeto | Accept(candidate: Accepted)

  datatype Setup = Setup(settings: ScanSettings, halfPts: nat, monitor: Option<Monitor>, preferred: Option<bool>)

  predicate Paired(s: ScanSettings, l: Lobes) {
    l.Pair() >= s.errorMin && l.Symmetry() >= s.symmetryMin
  }

  predicate PassesGates(s: ScanSettings, l: Lobes) {
    Paired(s, l) || (s.allowSingleSide && l.Stronger() >= s.singleErrorMin)
  }

  /** Two samples of lobe window on each side. */
  predicate RoomForLobes(n: nat, anchor: int, halfPts: nat) {
    && 0 < anchor < n - 1
    && anchor - LeftStart(anchor, halfPts) >= 2
    && RightEnd(n, anchor, halfPts) - (anchor + 1) >= 2
  }

  /** With no preference the slope with the larger pair excursion wins, rising on a tie. */
  function SlopeAt(trace: seq<real>, anchor: nat, window: nat, preferred: Option<bool>): bool
    requires anchor < |trace|
  {
    if preferred.Some? then preferred.value
    else Excursions(trace, anchor, window, true).Pair() >= Excursions(trace, anchor, window, false).Pair()
  }

  predicate MonitorAgrees(m: Monitor, level: Option<real>, contrast: Option<real>) {
    var l := if level.Some? then level.value else 0.0;
    && (if m.above then l >= m.threshold else l <= m.threshold)
    && contrast.Some? && contrast.value > 0.0
  }

  function Judge(trace: seq<real>, setup: Setup, candidate: nat): Verdict
    requires candidate < |trace|
  {
    var position := EstimateCrossing(trace, candidate);
    var anchor := RoundHalfEven(position);
    if !RoomForLobes(|trace|, anchor, setup.halfPts) then TooNearEnd
    else
      var rising := SlopeAt(trace, anchor, setup.halfPts, setup.preferred);
      var lobes := Excursions(trace, anchor, setup.halfPts, rising);
      if !PassesGates(setup.settings, lobes) then
        BelowThresholds(setup.preferred.Some? &&
                        PassesGates(setup.settings, Excursions(trace, anchor, setup.halfPts, !rising)))
      else
        var level := if setup.monitor.None? then None else OnResonance(setup.monitor.value, anchor, setup.halfPts);
        var contrast := if setup.monitor.None? then None else Contrast(setup.monitor.value, anchor, setup.halfPts);
        if setup.monitor.None? || !setup.monitor.value.inUse then
          Accept(Accepted(anchor, position, lobes.Score(), rising, lobes, level))
        else if !MonitorAgrees(setup.monitor.value, level, contrast) then MonitorVeto
        else Accept(Accepted(anchor, position, lobes.Score() + MONITOR_SCORE_WEIGHT * contrast.value, rising, lobes, level))
  }

  datatype Failure = TraceTooShort | NoLockableSignal | NoCandidates | WrongSlopeHint | MonitorTooLow | NothingPassed

  function AcceptedBy(trace: seq<real>, setup: Setup, candidates: seq<nat>): seq<Accepted>
    requires forall k :: 0 <= k < |candidates| ==> candidates[k] < |trace|
  {
    if candidates == [] then []
    else
      var earlier := AcceptedBy(trace, setup, candidates[..|candidates| - 1]);
      var v := Judge(trace, setup, candidates[|candidates| - 1]);
      if v.Accept? then earlier + [v.candidate] else earlier
  }

  function ScoreOf(a: Accepted): real {
    a.score
  }

  predicate HasSignal(trace: seq<real>, s: ScanSettings)
    requires trace != []
  {
    MaxOf(trace) - MinOf(trace) >= s.minAmplitude
  }

  /** Some candidate was rejected in this way. */
  predicate SomeRejected(trace: seq<real>, setup: Setup, candidates: seq<nat>, v: Verdict)
    requires forall k :: 0 <= k < |candidates| ==> candidates[k] < |trace|
  {
    exists k :: 0 <= k < |candidates| && Judge(trace, setup, candidates[k]) == v
  }

  function WhyNothing(trace: seq<real>, setup: Setup, candidates: seq<nat>): Failure
    requires forall k :: 0 <= k < |candidates| ==> candidates[k] < |trace|
  {
    if SomeRejected(trace, setup, candidates, BelowThresholds(true)) then WrongSlopeHint
    else if SomeRejected(trace, setup, candidates, MonitorVeto) then MonitorTooLow
    else NothingPassed
  }

  /** What the detector answers, as a search over all candidates. */
  function Detection(trace: seq<real>, order: seq<nat>, setup: Setup): Result<Accepted, Failure> {
    if |trace| < 16 then Err(TraceTooShort)
    else if !HasSignal(trace, setup.settings) then Err(NoLockableSignal)
    else
      CandidatesInRange(trace, order);
      var candidates := Candidates(trace, order);
      if candidates == [] then Err(NoCandidates)
      else
        var accepted := AcceptedBy(trace, setup, candidates);
        if accepted == [] then Err(WhyNothing(trace, setup, candidates)) else Ok(accepted[FirstBest(accepted, ScoreOf)])
  }

  method JudgeAll(trace: seq<real>, setup: Setup, candidates: seq<nat>)
    returns (accepted: seq<Accepted>, slopeHintRejects: nat, monitorRejects: nat)
    requires forall k :: 0 <= k < |candidates| ==> candidates[k] < |trace|
    ensures accepted == AcceptedBy(trace, setup, candidates)
    ensures slopeHintRejects > 0 <==> SomeRejected(trace, setup, candidates, BelowThresholds(true))
    ensures monitorRejects > 0 <==> SomeRejected(trace, setup, candidates, MonitorVeto)
  {
    hide Judge;
    accepted, slopeHintRejects, monitorRejects := [], 0, 0;
    for k := 0 to |candidates|
      invariant accepted == AcceptedBy(trace, setup, candidates[..k])
      invariant slopeHintRejects > 0 <==> SomeRejected(trace, setup, candidates[..k], BelowThresholds(true))
      invariant monitorRejects > 0 <==> SomeRejected(trace, setup, candidates[..k], MonitorVeto)
    {
      RejectedOneMore(trace, setup, candidates, k, BelowThresholds(true));
      RejectedOneMore(trace, setup, candidates, k, MonitorVeto);
      assert candidates[..k + 1][..k] == candidates[..k];
      match Judge(trace, setup, candidates[k])
      case TooNearEnd =>
      case BelowThresholds(opposite) => if opposite { slopeHintRejects := slopeHintRejects + 1; }
      case MonitorVeto => monitorRejects := monitorRejects + 1;
      case Accept(c) => accepted := accepted + [c];
    }
    assert candidates[..|candidates|] == candidates;
  }

  lemma RejectedOneMore(trace: seq<real>, setup: Setup, candidates: seq<nat>, k: nat, v: Verdict)
    requires k < |candidates| && forall j :: 0 <= j < |candidates| ==> candidates[j] < |trace|
    ensures SomeRejected(trace, setup, candidates[..k + 1], v) <==>
            SomeRejected(trace, setup, candidates[..k], v) || Judge(trace, setup, candidates[k]) == v
  {
    hide Judge;
    var now, next := candidates[..k], candidates[..k + 1];
    if SomeRejected(trace, setup, now, v) {
      var j :| 0 <= j < |now| && Judge(trace, setup, now[j]) == v;
      assert next[j] == now[j];
    }
    if Judge(trace, setup, candidates[k]) == v {
      assert next[k] == candidates[k];
    }
    if SomeRejected(trace, setup, next, v) && Judge(trace, setup, candidates[k]) != v {
      var j :| 0 <= j < |next| && Judge(trace, setup, next[j]) == v;
      assert now[j] == next[j];
    }
  }

  method FindAutoLockTarget(trace: seq<real>, order: seq<nat>, setup: Setup) returns (outcome: Result<Accepted, Failure>)
    requires OrderedByMagnitude(order, trace)
    ensures outcome == Detection(trace, order, setup)
  {
    hide AcceptedBy, FirstBest, OrderedByMagnitude, Judge;
    if |trace| < 16 {
      return Err(TraceTooShort);
    }
    if MaxOf(trace) - MinOf(trace) < setup.settings.minAmplitude {
      return Err(NoLockableSignal);
    }
    var candidates := ExtractCrossingCandidates(trace, order);
    CandidatesInRange(trace, order);
    if candidates == [] {
      return Err(NoCandidates);
    }
    var accepted, slopeHintRejects, monitorRejects := JudgeAll(trace, setup, candidates);
    if accepted == [] {
      return Err(if slopeHintRejects > 0 then WrongSlopeHint else if monitorRejects > 0 then MonitorTooLow else NothingPassed);
    }
    var best := SelectBest(accepted, ScoreOf);
    outcome := Ok(best);
  }

  // ---------------------------------------------------------------------------
  // What the answer means
  // ---------------------------------------------------------------------------

  predicate AcceptsAs(trace: seq<real>, setup: Setup, candidate: nat, a: Accepted) {
    candidate < |trace| && Judge(trace, setup, candidate) == Accept(a)
  }

  lemma {:induction false} AcceptedAre(trace: seq<real>, setup: Setup, candidates: seq<nat>)
    requires forall k :: 0 <= k < |candidates| ==> candidates[k] < |trace|
    ensures forall a :: a in AcceptedBy(trace, setup, candidates) <==>
              exists c: nat :: c in candidates && AcceptsAs(trace, setup, c, a)
    decreases |candidates|
  {
    hide Judge;
    if candidates != [] {
      var shorter, last := candidates[..|candidates| - 1], candidates[|candidates| - 1];
      AcceptedAre(trace, setup, shorter);
      assert candidates == shorter + [last];
      forall a
        ensures a in AcceptedBy(trace, setup, candidates) <==> exists c: nat :: c in candidates && AcceptsAs(trace, setup, c, a)
      {
        if a in AcceptedBy(trace, setup, shorter) {
          var c: nat :| c in shorter && AcceptsAs(trace, setup, c, a);
          assert c in candidates;
        } else if a in AcceptedBy(trace, setup, candidates) {
          assert last in candidates && AcceptsAs(trace, setup, last, a);
        }
      }
    }
  }

  /**
   * On a live trace, detection succeeds exactly when some candidate is accepted; the winner is
   * accepted, keeps two samples from either end, obeys the slope preference, passes the gates it is
   * given, and no accepted candidate scores higher.
   */
  lemma DetectionIsBestAccepted(trace: seq<real>, order: seq<nat>, setup: Setup)
    requires |trace| >= 16 && HasSignal(trace, setup.settings)
    ensures Detection(trace, order, setup).Ok? <==>
            exists c: nat, a :: c in Candidates(trace, order) && AcceptsAs(trace, setup, c, a)
    ensures var d := Detection(trace, order, setup);
            d.Ok? ==>
              && (forall c: nat, a :: c in Candidates(trace, order) && AcceptsAs(trace, setup, c, a) ==> a.score <= d.value.score)
              && 2 <= d.value.index < |trace| - 2 && 0.0 <= d.value.position <= (|trace| - 1) as real
              && (setup.preferred.Some? ==> d.value.rising == setup.preferred.value)
              && PassesGates(setup.settings, Excursions(trace, d.value.index, setup.halfPts, d.value.rising))
  {
    hide Judge, AcceptedBy, FirstBest, Candidates, EstimateCrossing, Excursions, PassesGates, HasSignal, AcceptsAs, WhyNothing;
    CandidatesInRange(trace, order);
    var candidates := Candidates(trace, order);
    AcceptedAre(trace, setup, candidates);
    var accepted := AcceptedBy(trace, setup, candidates);
    if accepted != [] {
      var best := accepted[FirstBest(accepted, ScoreOf)];
      assert best in accepted;
      var c: nat :| c in candidates && AcceptsAs(trace, setup, c, best);
      AcceptedShape(trace, setup, c, best);
    }
    forall c: nat, a | c in candidates && AcceptsAs(trace, setup, c, a) ensures a in accepted {
    }
  }

  lemma AcceptedShape(trace: seq<real>, setup: Setup, c: nat, a: Accepted)
    requires AcceptsAs(trace, setup, c, a)
    ensures 2 <= a.index < |trace| - 2 && 0.0 <= a.position <= (|trace| - 1) as real
    ensures setup.preferred.Some? ==> a.rising == setup.preferred.value
    ensures PassesGates(setup.settings, Excursions(trace, a.index, setup.halfPts, a.rising))
  {
    hide Excursions, PassesGates, OnResonance, Contrast, MonitorAgrees, EstimateCrossing;
    EstimateIsInTrace(trace, c);
  }

  /** The gates on lobe excursions, without quotients: enough pair and balance, or one strong lobe where that is allowed. */
  predicate GatesOpen(s: ScanSettings, l: Lobes) {
    || (l.left + l.right >= s.errorMin && Balanced(l, s.symmetryMin))
    || (s.allowSingleSide && (l.left >= s.singleErrorMin || l.right >= s.singleErrorMin))
  }

  predicate Balanced(l: Lobes, symmetryMin: real) {
    if l.left > 0.000000000001 || l.right > 0.000000000001
    then l.left >= symmetryMin * l.right && l.right >= symmetryMin * l.left && symmetryMin <= 1.0
    else symmetryMin <= 0.0
  }

  lemma GatesAreOpen(s: ScanSettings, l: Lobes)
    requires l.left >= 0.0 && l.right >= 0.0
    ensures PassesGates(s, l) <==> GatesOpen(s, l)
  {
    BalanceIsSymmetry(l, s.symmetryMin);
  }

  lemma BalanceIsSymmetry(l: Lobes, symmetryMin: real)
    requires l.left >= 0.0 && l.right >= 0.0
    ensures l.Symmetry() >= symmetryMin <==> Balanced(l, symmetryMin)
  {
    if l.left > 0.000000000001 || l.right > 0.000000000001 {
      if l.left <= l.right {
        ShareOf(l.left, l.right, symmetryMin);
      } else {
        ShareOf(l.right, l.left, symmetryMin);
      }
    }
  }

  lemma ShareOf(w: real, s: real, q: real)
    requires 0.0 <= w <= s && s > 0.0
    ensures w / s >= q <==> w >= q * s && s >= q * w && q <= 1.0
  {
    QuotientAtLeast(w, s, q);
    if q <= 1.0 {
      BelowOwnShare(w, s, q);
    } else {
      assert (q - 1.0) * s > 0.0;
    }
  }

  lemma QuotientAtLeast(w: real, s: real, q: real)
    requires s > 0.0
    ensures w / s >= q <==> w >= q * s
  {
    assert (w / s) * s == w;
    assert (w / s - q) * s == w - q * s;
    ProductSign(w / s - q, s);
  }

  lemma BelowOwnShare(w: real, s: real, q: real)
    requires 0.0 <= w <= s && q <= 1.0
    ensures s >= q * w
  {
    if q >= 0.0 {
      assert (1.0 - q) * w >= 0.0;
    } else {
      assert q * w <= 0.0;
    }
  }

  /** The monitor lets a crossing pass exactly if its level is beyond both the threshold and the baseline, on the expected side. */
  lemma MonitorGate(m: Monitor, anchor: nat, window: int)
    requires anchor < |m.trace|
    ensures var level := OnResonance(m, anchor, window);
            && level.Some?
            && (MonitorAgrees(m, level, Contrast(m, anchor, window)) <==>
                  if m.above then m.threshold <= level.value && m.baseline < level.value
                  else level.value <= m.threshold && level.value < m.baseline)
  {
    hide OnResonance, Contrast;
    LevelFromSamples(m, anchor, window);
  }

  /**
   * The verdict on one candidate, in terms of its lobes and the monitor level: accepted exactly if it keeps two samples
   * from either end, its gates are open on its slope and the monitor, when it is in use, agrees.
   */
  lemma AcceptedExactlyWhen(trace: seq<real>, setup: Setup, c: nat)
    requires c < |trace| && (setup.monitor.Some? ==> |setup.monitor.value.trace| == |trace|)
    ensures var anchor := RoundHalfEven(EstimateCrossing(trace, c));
            && 0 <= anchor < |trace|
            && var rising := SlopeAt(trace, anchor, setup.halfPts, setup.preferred);
               var lobes := Excursions(trace, anchor, setup.halfPts, rising);
               var opposite := Excursions(trace, anchor, setup.halfPts, !rising);
               var room := 2 <= anchor < |trace| - 2 && setup.halfPts >= 2;
               var used := setup.monitor.Some? && setup.monitor.value.inUse;
               var agrees := used ==> MonitorAgrees(setup.monitor.value, OnResonance(setup.monitor.value, anchor, setup.halfPts),
                                                    Contrast(setup.monitor.value, anchor, setup.halfPts));
               var verdict := Judge(trace, setup, c);
               && (verdict.Accept? <==> room && GatesOpen(setup.settings, lobes) && agrees)
               && (verdict.MonitorVeto? <==> room && GatesOpen(setup.settings, lobes) && !agrees)
               && (verdict.TooNearEnd? <==> !room)
               && (verdict == BelowThresholds(true) <==>
                     room && !GatesOpen(setup.settings, lobes) && setup.preferred.Some? && GatesOpen(setup.settings, opposite))
               && (if setup.preferred.Some? then rising == setup.preferred.value
                   else if rising then lobes.left + lobes.right >= opposite.left + opposite.right
                   else lobes.left + lobes.right > opposite.left + opposite.right)
               && (verdict.Accept? ==>
                     && verdict.candidate.index == anchor && verdict.candidate.rising == rising && verdict.candidate.lobes == lobes
                     && verdict.candidate.score ==
                        lobes.left + lobes.right + Min(lobes.left, lobes.right) / 4.0 +
                        (if used then Contrast(setup.monitor.value, anchor, setup.halfPts).value / 2.0 else 0.0))
  {
    hide Excursions, OnResonance, Contrast, EstimateCrossing, RoundHalfEven, PassesGates, GatesOpen, MonitorAgrees;
    EstimateIsInTrace(trace, c);
    var anchor := RoundHalfEven(EstimateCrossing(trace, c));
    var rising := SlopeAt(trace, anchor, setup.halfPts, setup.preferred);
    ExcursionsFitTrace(trace, anchor, setup.halfPts, rising);
    ExcursionsFitTrace(trace, anchor, setup.halfPts, !rising);
    GatesAreOpen(setup.settings, Excursions(trace, anchor, setup.halfPts, rising));
    GatesAreOpen(setup.settings, Excursions(trace, anchor, setup.halfPts, !rising));
    if setup.monitor.Some? {
      LevelFromSamples(setup.monitor.value, anchor, setup.halfPts);
    }
  }

  /**
   * A detected slope is really there: where lobes must be balanced, a rising winner has a sample below zero on its left
   * and one above zero on its right inside its window, a falling one the other way round.
   */
  lemma WinnerHasItsSlope(trace: seq<real>, order: seq<nat>, setup: Setup) returns (left: nat, right: nat)
    requires |trace| >= 16 && Detection(trace, order, setup).Ok?
    requires setup.settings.symmetryMin > 0.0 && !setup.settings.allowSingleSide
    ensures var w := Detection(trace, order, setup).value;
            && w.index - setup.halfPts <= left < w.index < right <= w.index + setup.halfPts && right < |trace|
            && (if w.rising then trace[left] < 0.0 < trace[right] else trace[right] < 0.0 < trace[left])
  {
    hide Detection, Excursions, PassesGates;
    var w := Detection(trace, order, setup).value;
    DetectedHasSignal(trace, order, setup);
    DetectionIsBestAccepted(trace, order, setup);
    LobesFromSamples(trace, w.index, setup.halfPts, w.rising);
    var l := Excursions(trace, w.index, setup.halfPts, w.rising);
    BothLobesPositive(setup.settings, l);
    left :| 0 <= left < |trace| && w.index - setup.halfPts <= left < w.index && Height(trace[left], !w.rising) == l.left;
    right :| 0 <= right < |trace| && w.index + 1 <= right < w.index + 1 + setup.halfPts && Height(trace[right], w.rising) == l.right;
  }

  lemma BothLobesPositive(s: ScanSettings, l: Lobes)
    requires l.left >= 0.0 && l.right >= 0.0 && PassesGates(s, l) && s.symmetryMin > 0.0 && !s.allowSingleSide
    ensures l.left > 0.0 && l.right > 0.0
  {
    BalanceIsSymmetry(l, s.symmetryMin);
  }

  lemma DetectedHasSignal(trace: seq<real>, order: seq<nat>, setup: Setup)
    requires Detection(trace, order, setup).Ok?
    ensures |trace| >= 16 && HasSignal(trace, setup.settings)
  {
  }

  /** Some candidate meets with this verdict. */
  ghost predicate Meets(trace: seq<real>, order: seq<nat>, setup: Setup, v: Verdict) {
    exists c: nat :: c in Candidates(trace, order) && c < |trace| && Judge(trace, setup, c) == v
  }

  /** Every refusal exactly when: too short, too flat, no crossing, else by what the rejected candidates met with, the slope hint first. */
  lemma RefusedExactlyWhen(trace: seq<real>, order: seq<nat>, setup: Setup)
    ensures var d := Detection(trace, order, setup);
            var long := |trace| >= 16;
            var flat := forall j, k :: 0 <= j < |trace| && 0 <= k < |trace| ==> trace[j] - trace[k] < setup.settings.minAmplitude;
            var judged := long && !flat && Candidates(trace, order) != [] &&
                          !(exists c: nat, a :: c in Candidates(trace, order) && AcceptsAs(trace, setup, c, a));
            var wrongSlope, vetoed := Meets(trace, order, setup, BelowThresholds(true)), Meets(trace, order, setup, MonitorVeto);
            && (d == Err(TraceTooShort) <==> !long)
            && (d == Err(NoLockableSignal) <==> long && flat)
            && (d == Err(NoCandidates) <==> long && !flat && Candidates(trace, order) == [])
            && (d == Err(WrongSlopeHint) <==> judged && wrongSlope)
            && (d == Err(MonitorTooLow) <==> judged && !wrongSlope && vetoed)
            && (d == Err(NothingPassed) <==> judged && !wrongSlope && !vetoed)
  {
    hide Judge, AcceptedBy, FirstBest, Candidates, AcceptsAs, MaxOf, MinOf;
    if |trace| >= 16 {
      FlatBelow(trace, setup.settings.minAmplitude);
      CandidatesInRange(trace, order);
      var candidates := Candidates(trace, order);
      AcceptedAre(trace, setup, candidates);
      MeetsIsRejected(trace, order, setup, BelowThresholds(true));
      MeetsIsRejected(trace, order, setup, MonitorVeto);
      if HasSignal(trace, setup.settings) { DetectionIsBestAccepted(trace, order, setup); }
    }
  }

  lemma FlatBelow(trace: seq<real>, least: real)
    requires trace != []
    ensures MaxOf(trace) - MinOf(trace) < least <==>
            forall j, k :: 0 <= j < |trace| && 0 <= k < |trace| ==> trace[j] - trace[k] < least
  {
    hide MaxOf, MinOf;
    var top :| 0 <= top < |trace| && trace[top] == MaxOf(trace);
    var low :| 0 <= low < |trace| && trace[low] == MinOf(trace);
    assert trace[top] - trace[low] == MaxOf(trace) - MinOf(trace);
  }

  lemma MeetsIsRejected(trace: seq<real>, order: seq<nat>, setup: Setup, v: Verdict)
    requires forall k :: 0 <= k < |Candidates(trace, order)| ==> Candidates(trace, order)[k] < |trace|
    ensures Meets(trace, order, setup, v) <==> SomeRejected(trace, setup, Candidates(trace, order), v)
  {
    hide Judge, Candidates;
    var candidates := Candidates(trace, order);
    if Meets(trace, order, setup, v) {
      var c: nat :| c in candidates && c < |trace| && Judge(trace, setup, c) == v;
      var k :| 0 <= k < |candidates| && candidates[k] == c;
    }
    if SomeRejected(trace, setup, candidates, v) {
      var k :| 0 <= k < |candidates| && Judge(trace, setup, candidates[k]) == v;
      assert candidates[k] in candidates;
    }
  }

  // ---------------------------------------------------------------------------
  // Sideband spacing of the winner
  // ---------------------------------------------------------------------------

  /** The sample nominated by a crossing whose slope is opposite the carrier's. */
  function OppositeCrossing(trace: seq<real>, i: nat, carrierRising: bool): Option<nat>
    requires i + 1 < |trace|
  {
    var a, b := trace[i], trace[i + 1];
    var rising := (a < 0.0 <= b) || (a <= 0.0 < b);
    var falling := (a > 0.0 >= b) || (a >= 0.0 > b);
    if !(rising || falling) || rising == carrierRising then None
    else Some(if Abs(a) <= Abs(b) then i else i + 1)
  }

  /** An opposite crossing: through or onto zero against the carrier's slope, at the nearer of the two samples. */
  lemma OppositeIs(trace: seq<real>, i: nat, carrierRising: bool)
    requires i + 1 < |trace|
    ensures var c := OppositeCrossing(trace, i, carrierRising);
            && (c.Some? <==>
                  && (if carrierRising then trace[i] >= 0.0 >= trace[i + 1] else trace[i] <= 0.0 <= trace[i + 1])
                  && trace[i] != trace[i + 1])
            && (c.Some? ==> i <= c.value <= i + 1 && Abs(trace[c.value]) <= Abs(trace[i]) && Abs(trace[c.value]) <= Abs(trace[i + 1]))
            && (c == Some(i + 1) ==> Abs(trace[i + 1]) < Abs(trace[i]))
  {
  }

  /** The crossings of the opposite slope are those of some two neighbouring samples. */
  lemma OppositesAre(trace: seq<real>, carrierRising: bool, c: nat)
    ensures c in Opposites(trace, carrierRising) <==>
            exists i: nat :: i + 1 < |trace| && i <= c <= i + 1 && OppositeCrossing(trace, i, carrierRising) == Some(c)
  {
    hide OppositeCrossing;
    forall i: nat | i + 1 < |trace| ensures OppositeCrossing(trace, i, carrierRising) == Some(c) ==> i <= c <= i + 1 {
      OppositeIs(trace, i, carrierRising);
    }
    if c in Opposites(trace, carrierRising) {
      var i: nat :| i < |trace| && i + 1 < |trace| && OppositeCrossing(trace, i, carrierRising) == Some(c);
    }
  }

  ghost predicate IsOpposite(trace: seq<real>, carrierRising: bool, pairs: nat, c: nat) {
    exists i: nat :: i < pairs && i + 1 < |trace| && OppositeCrossing(trace, i, carrierRising) == Some(c)
  }

  ghost function Opposites(trace: seq<real>, carrierRising: bool): set<nat> {
    set c | 0 <= c < |trace| && IsOpposite(trace, carrierRising, |trace|, c)
  }

  /** One pass keeping the nearest opposite crossing on each side measures what the outward scans would find. */
  method SidebandOffsetPts(trace: seq<real>, anchor: nat, carrierRising: bool, exclusion: nat) returns (spacing: Option<real>)
    requires anchor < |trace| && exclusion >= 1
    ensures spacing == NaiveSidebands(Opposites(trace, carrierRising), |trace|, anchor, exclusion)
  {
    hide SymmetricSidebandOffset, OppositeCrossing, Opposites;
    var left: Option<nat>, right: Option<nat> := None, None;
    for i := 0 to |trace| - 1
      invariant left.Some? ==> left.value <= anchor - exclusion && IsOpposite(trace, carrierRising, i, left.value)
      invariant right.Some? ==> anchor + exclusion <= right.value && IsOpposite(trace, carrierRising, i, right.value)
      invariant forall c: nat :: IsOpposite(trace, carrierRising, i, c) ==>
                  && (c <= anchor - exclusion ==> left.Some? && c <= left.value)
                  && (anchor + exclusion <= c ==> right.Some? && right.value <= c)
    {
      OneMoreOpposite(trace, carrierRising, i);
      var nominated := OppositeCrossing(trace, i, carrierRising);
      if nominated.None? {
        continue;
      }
      var idx := nominated.value;
      if MaxInt(idx - anchor, anchor - idx) < exclusion {
        continue;
      }
      if idx < anchor {
        if left.None? || idx > left.value {
          left := Some(idx);
        }
      } else if idx > anchor {
        if right.None? || idx < right.value {
          right := Some(idx);
        }
      }
    }
    OppositesInTrace(trace, carrierRising);
    NearestBelowIs(Opposites(trace, carrierRising), anchor - exclusion, left);
    NearestAboveIs(Opposites(trace, carrierRising), anchor + exclusion, |trace|, right);
    if left.None? || right.None? {
      return None;
    }
    spacing := SymmetricSidebandOffset(Some((anchor - left.value) as real), Some((right.value - anchor) as real));
  }

  lemma OneMoreOpposite(trace: seq<real>, carrierRising: bool, i: nat)
    requires i + 1 < |trace|
    ensures forall c: nat :: IsOpposite(trace, carrierRising, i + 1, c) <==>
              IsOpposite(trace, carrierRising, i, c) || OppositeCrossing(trace, i, carrierRising) == Some(c)
  {
  }

  lemma OppositesInTrace(trace: seq<real>, carrierRising: bool)
    requires trace != []
    ensures forall c: nat :: c in Opposites(trace, carrierRising) <==> IsOpposite(trace, carrierRising, |trace| - 1, c)
    ensures forall c: nat :: c in Opposites(trace, carrierRising) ==> c < |trace|
  {
  }

  datatype StrictTarget = StrictTarget(winner: Accepted, voltage: real, spacing: Option<real>, hzPerV: Option<real>)

  function SamplesInVolts(points: real, n: nat, amplitude: real): real
    requires n >= 2
  {
    points * (2.0 * Abs(amplitude) / (n - 1) as real)
  }

  /** The spacing a PDH scan resolves at the winner, in sweep volts. */
  ghost function MeasuredSpacing(trace: seq<real>, setup: Setup, winner: Accepted, amplitude: real, modulation: Option<real>)
    : (spacing: Option<real>)
    requires |trace| >= 16
    ensures spacing.Some? ==> modulation.Some? && spacing.value > 0.000000000001
  {
    if setup.settings.signalType != "pdh" || modulation.None? || modulation.value == 0.0 then None
    else if !SpacingIsMeasurable(setup.settings, |trace|, amplitude) then None
    else
      var points := NaiveSidebands(Opposites(trace, winner.rising), |trace|, winner.index, MaxInt(3, setup.halfPts));
      if points.None? then None
      else
        var offset := SamplesInVolts(points.value, |trace|, amplitude);
        if offset > 0.000000000001 then Some(offset) else None
  }

  /** The winner with its voltage and, where the scan resolves it, its sideband spacing. */
  method StrictTargetOf(trace: seq<real>, setup: Setup, winner: Accepted, center: real, amplitude: real, modulation: Option<real>)
    returns (target: StrictTarget)
    requires |trace| >= 16 && winner.index < |trace| && amplitude >= 0.0 && 0.0 <= winner.position <= (|trace| - 1) as real
    ensures target.winner == winner && Abs(target.voltage - center) <= amplitude
    ensures target.voltage == IndexToVoltage(winner.position, |trace|, center, amplitude)
    ensures target.spacing == MeasuredSpacing(trace, setup, winner, amplitude, modulation)
    ensures target.hzPerV == if target.spacing.None? then None else Some(modulation.value / target.spacing.value)
  {
    hide IndexToVoltage, SamplesInVolts;
    IndexVoltageInWindow(winner.position, |trace|, center, amplitude);
    var voltage := IndexToVoltage(winner.position, |trace|, center, amplitude);
    target := StrictTarget(winner, voltage, None, None);
    if setup.settings.signalType == "pdh" && modulation.Some? && modulation.value != 0.0 &&
       SpacingIsMeasurable(setup.settings, |trace|, amplitude)
    {
      var points := SidebandOffsetPts(trace, winner.index, winner.rising, MaxInt(3, setup.halfPts));
      if points.Some? {
        var offset := SamplesInVolts(points.value, |trace|, amplitude);
        if offset > 0.000000000001 {
          target := StrictTarget(winner, voltage, Some(offset), Some(modulation.value / offset));
        }
      }
    }
  }

  /**
   * When a spacing is reported: for PDH at a known modulation frequency on a scan that resolves it, if balanced opposite
   * crossings lie outside the winner's own window; it is then their distance in volts.
   */
  lemma SpacingExactly(trace: seq<real>, setup: Setup, winner: Accepted, amplitude: real, modulation: Option<real>)
    requires |trace| >= 16
    ensures var spacing := MeasuredSpacing(trace, setup, winner, amplitude, modulation);
            var exclusion := if setup.halfPts >= 3 then setup.halfPts else 3;
            var points := NaiveSidebands(Opposites(trace, winner.rising), |trace|, winner.index, exclusion);
            var wanted := setup.settings.signalType == "pdh" && modulation.Some? && modulation.value != 0.0
                          && SpacingIsMeasurable(setup.settings, |trace|, amplitude);
            && (spacing.Some? <==>
                  wanted && points.Some? && points.value * (2.0 * Abs(amplitude)) > 0.000000000001 * (|trace| - 1) as real)
            && (spacing.Some? ==> spacing.value * (|trace| - 1) as real == points.value * (2.0 * Abs(amplitude)))
  {
    hide NaiveSidebands, Opposites, SpacingIsMeasurable, SamplesInVolts;
    var exclusion := if setup.halfPts >= 3 then setup.halfPts else 3;
    var points := NaiveSidebands(Opposites(trace, winner.rising), |trace|, winner.index, exclusion);
    if points.Some? {
      VoltsPerSamples(points.value, |trace|, amplitude);
    }
  }

  lemma VoltsPerSamples(points: real, n: nat, amplitude: real)
    requires n >= 2
    ensures SamplesInVolts(points, n, amplitude) * (n - 1) as real == points * (2.0 * Abs(amplitude))
    ensures SamplesInVolts(points, n, amplitude) > 0.000000000001 <==>
            points * (2.0 * Abs(amplitude)) > 0.000000000001 * (n - 1) as real
  {
    var m := (n - 1) as real;
    var perSample, volts := 2.0 * Abs(amplitude) / m, SamplesInVolts(points, n, amplitude);
    assert perSample * m == 2.0 * Abs(amplitude);
    assert points * perSample * m == points * (perSample * m);
    ProductSign(volts - 0.000000000001, m);
    assert (volts - 0.000000000001) * m == volts * m - 0.000000000001 * m;
  }
}
