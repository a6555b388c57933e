/**
 * Calibration (calibrate_auto_lock_settings in linien-gateway/app/auto_lock_scan.py): derive
 * the strict detector's thresholds from one good trace, and why the detector then accepts the
 * crossing they were measured at.
 */
module Calibration {
  import opened Common
  import opened AutoLockSettings
  import opened Crossings
  import opened LockDetector

  datatype Factors = Factors(
    errorMin: real, singleErrorMin: real, halfRangeMargin: real, symmetryMargin: real, minAmplitude: real,
    monitorThreshold: real, monitorMinContrast: real)

  const DEFAULT_FACTORS := Factors(0.5, 0.5, 1.3, 0.7, 0.3, 0.5, 0.2)

  /** Each threshold is set at some fraction of what was measured. */
  predicate Fractions(f: Factors) {
    && 0.0 <= f.errorMin <= 1.0 && 0.0 <= f.singleErrorMin <= 1.0 && 0.0 <= f.symmetryMargin <= 1.0
    && 0.0 <= f.minAmplitude <= 1.0 && 0.0 <= f.monitorThreshold <= 1.0
  }

  function Clamp(x: real, lo: real, hi: real): real {
    Min(Max(x, lo), hi)
  }

  // ---------------------------------------------------------------------------
  // The dominant crossing
  // ---------------------------------------------------------------------------

  datatype Anchor = Anchor(candidate: nat, index: nat, position: real, rising: bool, score: real)

  function CoarsePts(n: nat): nat {
    MaxInt(4, MinInt(n / 8, n / 2 - 1))
  }

  /** `monitor`: present only when calibration is to use it. */
  function RateAnchor(trace: seq<real>, candidate: nat, preferred: Option<bool>, monitor: Option<Monitor>): Option<Anchor>
    requires candidate < |trace|
  {
    var position := EstimateCrossing(trace, candidate);
    var anchor := RoundHalfEven(position);
    var window := CoarsePts(|trace|);
    if anchor <= 0 || anchor >= |trace| - 1 then None
    else
      var rising := SlopeAt(trace, anchor, window, preferred);
      var lobes := Excursions(trace, anchor, window, rising);
      if lobes.Pair() <= 0.0 then None
      else
        var contrast := if monitor.None? then None else Contrast(monitor.value, anchor, window);
        var bonus := if contrast.None? then 0.0 else MONITOR_SCORE_WEIGHT * contrast.value;
        Some(Anchor(candidate, anchor, position, rising, lobes.Score() + bonus))
  }

  /** What a candidate is rated by: lobes about it in a coarse window, and the monitor's contrast where it is used. */
  lemma AnchorRatedWhen(trace: seq<real>, c: nat, preferred: Option<bool>, monitor: Option<Monitor>)
    requires c < |trace| && (monitor.Some? ==> |monitor.value.trace| == |trace|)
    ensures var anchor, window := RoundHalfEven(EstimateCrossing(trace, c)), MaxInt(4, MinInt(|trace| / 8, |trace| / 2 - 1));
            && 0 <= anchor < |trace|
            && var rising := SlopeAt(trace, anchor, window, preferred);
               var l, opposite := Excursions(trace, anchor, window, rising), Excursions(trace, anchor, window, !rising);
               var a := RateAnchor(trace, c, preferred, monitor);
               && (a.Some? <==> 0 < anchor < |trace| - 1 && l.left + l.right > 0.0)
               && (preferred.None? ==> l.left + l.right >= opposite.left + opposite.right)
               && (a.Some? ==>
                     && a.value.index == anchor && a.value.candidate == c && a.value.rising == rising
                     && (preferred.Some? ==> rising == preferred.value)
                     && a.value.score == l.left + l.right + Min(l.left, l.right) / 4.0 +
                                         (if monitor.Some? then Contrast(monitor.value, anchor, window).value / 2.0 else 0.0))
  {
    hide EstimateCrossing, RoundHalfEven, Excursions, Contrast, OnResonance;
    EstimateIsInTrace(trace, c);
    if monitor.Some? {
      LevelFromSamples(monitor.value, RoundHalfEven(EstimateCrossing(trace, c)), MaxInt(4, MinInt(|trace| / 8, |trace| / 2 - 1)));
    }
  }

  function BestAnchor(trace: seq<real>, candidates: seq<nat>, preferred: Option<bool>, monitor: Option<Monitor>): Option<Anchor>
    requires forall k :: 0 <= k < |candidates| ==> candidates[k] < |trace|
  {
    if candidates == [] then None
    else
      var earlier := BestAnchor(trace, candidates[..|candidates| - 1], preferred, monitor);
      var last := RateAnchor(trace, candidates[|candidates| - 1], preferred, monitor);
      if last.Some? && (earlier.None? || last.value.score > earlier.value.score) then last else earlier
  }

  /** No candidate before this one rates as high. */
  ghost predicate OutratesEarlier(trace: seq<real>, candidates: seq<nat>, preferred: Option<bool>, monitor: Option<Monitor>, k: nat)
    requires k < |candidates| && forall j :: 0 <= j < |candidates| ==> candidates[j] < |trace|
  {
    var last := RateAnchor(trace, candidates[k], preferred, monitor);
    last.Some? && forall j :: 0 <= j < k ==>
      var earlier := RateAnchor(trace, candidates[j], preferred, monitor);
      earlier.Some? ==> earlier.value.score < last.value.score
  }

  /** The anchor is one of the candidates as rated, and no candidate rates higher. */
  lemma {:induction false} BestAnchorIsBest(trace: seq<real>, candidates: seq<nat>, preferred: Option<bool>, monitor: Option<Monitor>)
    requires forall k :: 0 <= k < |candidates| ==> candidates[k] < |trace|
    ensures var best := BestAnchor(trace, candidates, preferred, monitor);
            && (best.Some? ==>
                  && best.value.candidate in candidates && best.value.candidate < |trace|
                  && RateAnchor(trace, best.value.candidate, preferred, monitor) == best)
            && (forall c: nat :: c in candidates && c < |trace| && RateAnchor(trace, c, preferred, monitor).Some? ==>
                  best.Some? && RateAnchor(trace, c, preferred, monitor).value.score <= best.value.score)
    decreases |candidates|
  {
    hide EstimateCrossing, SlopeAt, Excursions, Contrast;
    if candidates != [] {
      BestAnchorIsBest(trace, candidates[..|candidates| - 1], preferred, monitor);
      assert candidates == candidates[..|candidates| - 1] + [candidates[|candidates| - 1]];
    }
  }

  /** ... and of those that rate as high it is the first. */
  lemma {:induction false} BestAnchorIsFirst(trace: seq<real>, candidates: seq<nat>, preferred: Option<bool>, monitor: Option<Monitor>)
    returns (k: nat)
    requires forall j :: 0 <= j < |candidates| ==> candidates[j] < |trace|
    requires BestAnchor(trace, candidates, preferred, monitor).Some?
    ensures k < |candidates| && RateAnchor(trace, candidates[k], preferred, monitor) == BestAnchor(trace, candidates, preferred, monitor)
    ensures OutratesEarlier(trace, candidates, preferred, monitor, k)
    decreases |candidates|
  {
    hide RateAnchor;
    var earlier, n := candidates[..|candidates| - 1], |candidates| - 1;
    var best, last := BestAnchor(trace, earlier, preferred, monitor), RateAnchor(trace, candidates[n], preferred, monitor);
    if last.Some? && (best.None? || last.value.score > best.value.score) {
      k := n;
      BestAnchorIsBest(trace, earlier, preferred, monitor);
      assert forall j :: 0 <= j < n ==> earlier[j] == candidates[j] && candidates[j] in earlier;
    } else {
      k := BestAnchorIsFirst(trace, earlier, preferred, monitor);
      assert forall j :: 0 <= j <= k ==> earlier[j] == candidates[j];
    }
  }

  method SelectAnchor(trace: seq<real>, candidates: seq<nat>, preferred: Option<bool>, monitor: Option<Monitor>)
    returns (best: Option<Anchor>)
    requires forall k :: 0 <= k < |candidates| ==> candidates[k] < |trace|
    ensures best == BestAnchor(trace, candidates, preferred, monitor)
  {
    hide RateAnchor;
    best := None;
    for k := 0 to |candidates|
      invariant best == BestAnchor(trace, candidates[..k], preferred, monitor)
    {
      assert candidates[..k + 1][..k] == candidates[..k];
      var rated := RateAnchor(trace, candidates[k], preferred, monitor);
      if rated.Some? && (best.None? || rated.value.score > best.value.score) {
        best := rated;
      }
    }
    assert candidates[..|candidates|] == candidates;
  }

  // ---------------------------------------------------------------------------
  // Lobe width
  // ---------------------------------------------------------------------------

  function Reach(n: nat, anchor: nat, step: int, maxPts: nat): nat
    requires anchor < n
  {
    MinInt(maxPts, if step == 1 then n - 1 - anchor else anchor)
  }

  /** The samples passed walking from the anchor, as heights in the direction the lobe points. */
  function Walk(trace: seq<real>, anchor: nat, step: int, maxPts: nat, positive: bool): (h: seq<real>)
    requires anchor < |trace| && (step == 1 || step == -1)
    ensures |h| == Reach(|trace|, anchor, step, maxPts)
  {
    seq(Reach(|trace|, anchor, step, maxPts), k requires 0 <= k < Reach(|trace|, anchor, step, maxPts) =>
      var v := trace[Sample(anchor, step, k)];
      if positive then v else -v)
  }

  /** Once inside the lobe, no sample before `end` is lower than an earlier one. */
  predicate OnlyRises(h: seq<real>, end: nat)
    requires end <= |h|
  {
    forall j, k :: 0 <= j < k < end && 0.0 < h[j] ==> h[j] <= h[k]
  }

  /** Samples before `end` that first reach their greatest height at `top`. */
  predicate HighestAt(h: seq<real>, top: nat, end: nat)
    requires top < end <= |h|
  {
    && 0.0 < h[top]
    && (forall j :: 0 <= j < top ==> h[j] < h[top])
    && (forall j :: top < j < end ==> h[j] == h[top])
  }

  /** The first turning point of the walk: the lobe only rises to `top`, and first falls at `stop`. */
  predicate NearestPeak(h: seq<real>, top: nat, stop: nat) {
    top < stop < |h| && HighestAt(h, top, stop) && h[stop] < h[top] && OnlyRises(h, stop)
  }

  ghost predicate TurnsAt(h: seq<real>, top: nat) {
    exists stop: nat :: NearestPeak(h, top, stop)
  }

  /**
   * The lobe's offset: its first turning point, if the walk reaches one; otherwise its highest sample, not believed
   * beyond the fallback, which also stands for a walk that meets no lobe at all.
   */
  ghost predicate LobeIs(h: seq<real>, fallback: nat, offset: nat) {
    if !OnlyRises(h, |h|) then offset >= 1 && TurnsAt(h, offset - 1)
    else if forall j :: 0 <= j < |h| ==> h[j] <= 0.0 then offset == fallback
    else exists top: nat :: top < |h| && HighestAt(h, top, |h|) && offset == MinInt(top + 1, fallback)
  }

  method LobeOffset(trace: seq<real>, anchor: nat, step: int, maxPts: nat, positive: bool, fallback: nat) returns (offset: nat)
    requires anchor < |trace| && (step == 1 || step == -1)
    ensures LobeIs(Walk(trace, anchor, step, maxPts, positive), fallback, offset)
  {
    hide HighestAt, OnlyRises, TurnsAt, Walk, LobeIs;
    ghost var h := Walk(trace, anchor, step, maxPts, positive);
    ghost var top := 0;
    var bestMag, bestIdx, entered := 0.0, anchor, false;
    var foundPeak := false;
    var idx, steps := anchor + step, 0;
    NothingWalked(h);
    while 0 <= idx < |trace| && steps < maxPts
      invariant 0 <= steps <= |h| && idx == Sample(anchor, step, steps) && !foundPeak
      invariant Progress(h, steps, entered, top)
      invariant if entered then bestMag == h[top] > 0.0 && bestIdx == Sample(anchor, step, top)
                else bestMag == 0.0 && bestIdx == anchor
      decreases maxPts - steps
    {
      WalkAt(trace, anchor, step, maxPts, positive, steps);
      var mag := if positive then trace[idx] else -trace[idx];
      if mag > 0.0 {
        if mag > bestMag {
          NewTop(h, steps, entered, top);
          bestMag, bestIdx, top := mag, idx, steps;
        } else if bestMag > 0.0 && mag < bestMag {
          foundPeak := true;
          break;
        } else {
          SameTop(h, steps, entered, top);
        }
        entered := true;
      } else if entered {
        foundPeak := true;
        break;
      } else {
        SameTop(h, steps, entered, top);
      }
      idx, steps := idx + step, steps + 1;
    }
    var off := MaxInt(bestIdx - anchor, anchor - bestIdx);
    if foundPeak {
      FallsAfter(h, top, steps, fallback);
      return off;
    }
    WalkedAll(h, steps, entered, top, fallback);
    return if off != 0 then MinInt(off, fallback) else fallback;
  }

  /** The walk so far: nothing of the lobe yet, or a lobe that has only risen, highest at `top`. */
  ghost predicate Progress(h: seq<real>, end: nat, entered: bool, top: nat) {
    && end <= |h| && OnlyRises(h, end)
    && (if entered then top < end && HighestAt(h, top, end) else forall j :: 0 <= j < end ==> h[j] <= 0.0)
  }

  lemma NothingWalked(h: seq<real>)
    ensures Progress(h, 0, false, 0)
  {
  }

  lemma WalkAt(trace: seq<real>, anchor: nat, step: int, maxPts: nat, positive: bool, k: nat)
    requires anchor < |trace| && (step == 1 || step == -1) && k < maxPts && 0 <= Sample(anchor, step, k) < |trace|
    ensures k < |Walk(trace, anchor, step, maxPts, positive)|
    ensures var v := trace[Sample(anchor, step, k)];
            Walk(trace, anchor, step, maxPts, positive)[k] == if positive then v else -v
  {
  }

  lemma NewTop(h: seq<real>, end: nat, entered: bool, top: nat)
    requires end < |h| && Progress(h, end, entered, top) && h[end] > 0.0 && (entered ==> h[end] > h[top])
    ensures Progress(h, end + 1, true, end)
  {
  }

  lemma SameTop(h: seq<real>, end: nat, entered: bool, top: nat)
    requires end < |h| && Progress(h, end, entered, top) && (if entered then h[end] == h[top] else h[end] <= 0.0)
    ensures Progress(h, end + 1, entered, top)
  {
  }

  lemma WalkedAll(h: seq<real>, end: nat, entered: bool, top: nat, fallback: nat)
    requires end == |h| && Progress(h, end, entered, top)
    ensures LobeIs(h, fallback, if entered then MinInt(top + 1, fallback) else fallback)
  {
  }

  function Sample(anchor: nat, step: int, k: nat): int {
    if step == 1 then anchor + 1 + k else anchor - 1 - k
  }

  lemma FallsAfter(h: seq<real>, top: nat, stop: nat, fallback: nat)
    requires stop < |h| && Progress(h, stop, true, top) && h[stop] < h[top]
    ensures LobeIs(h, fallback, top + 1)
  {
    assert NearestPeak(h, top, stop);
  }

  // ---------------------------------------------------------------------------
  // The derived window
  // ---------------------------------------------------------------------------

  function VoltsPerSample(n: nat, amplitude: real): real
    requires n >= 2
  {
    2.0 * Abs(amplitude) / (n - 1) as real
  }

  function DerivedHalfRange(base: real, n: nat, amplitude: real, halfWidth: nat, margin: real): real
    requires n >= 16
  {
    var v := VoltsPerSample(n, amplitude);
    if v > 0.0 then Clamp(Scaled(margin, Scaled(halfWidth as real, v)), Scaled(2.0, v), Scaled((n / 2 - 1) as real, v)) else base
  }

  lemma ScaledClamp(x: real, lo: real, hi: real, v: real)
    requires v > 0.0
    ensures Clamp(Scaled(x, v), Scaled(lo, v), Scaled(hi, v)) == Scaled(Clamp(x, lo, hi), v)
  {
    ScaledOrder(x, lo, v);
    ScaledOrder(Max(x, lo), hi, v);
  }

  lemma ScaledOrder(x: real, y: real, v: real)
    requires v > 0.0
    ensures x * v < y * v <==> x < y
    ensures y * v < x * v <==> y < x
  {
    ProductSign(y - x, v);
    ProductSign(x - y, v);
  }

  lemma InverseScale(x: real, n1: real, span: real, v: real, w: real)
    requires n1 > 0.0 && span > 0.0 && v == span / n1 && w == n1 / span
    ensures v > 0.0 && x * v * w == x
  {
    assert v * n1 == span && w * span == n1;
    ProductSign(v, n1);
    Inverses(n1, span, v, w);
    Reassociate(x, v, w);
  }

  lemma Inverses(n1: real, span: real, v: real, w: real)
    requires span > 0.0 && v * n1 == span && w * span == n1
    ensures v * w == 1.0
  {
    assert v * (w * span) == v * w * span;
    var d := v * w - 1.0;
    assert d * span == 0.0;
    NonzeroFactor(d, span);
  }

  lemma Reassociate(x: real, v: real, w: real)
    requires v * w == 1.0
    ensures x * v * w == x
  {
    assert x * v * w == x * (v * w);
  }

  lemma NonzeroFactor(x: real, y: real)
    requires x * y == 0.0 && y > 0.0
    ensures x == 0.0
  {
  }

  /**
   * Whatever the sweep amplitude, the stored half-range reads back as the measured lobe width times the
   * margin, in samples: calibrating on a narrower or wider sweep never changes the window, only its volts.
   */
  lemma WindowReadsBack(base: real, n: nat, amplitude: real, halfWidth: nat, margin: real)
    requires n >= 16 && Abs(amplitude) > 0.000000001 && margin >= 0.0
    ensures HalfRangeToPoints(DerivedHalfRange(base, n, amplitude, halfWidth, margin), n, amplitude) ==
            RoundHalfEven(Clamp(margin * halfWidth as real, 2.0, (n / 2 - 1) as real))
  {
    hide RoundHalfEven, HalfRangeToPoints, Clamp;
    var v := VoltsPerSample(n, amplitude);
    var perVolt := (n - 1) as real / (2.0 * Abs(amplitude));
    var w := margin * halfWidth as real;
    var x := Clamp(w, 2.0, (n / 2 - 1) as real);
    ClampWithin(w, 2.0, (n / 2 - 1) as real);
    InverseScale(x, (n - 1) as real, 2.0 * Abs(amplitude), v, perVolt);
    ProductSign(x, v);
    RoundedWithin(x, 2, n / 2 - 1);
    HalfRangeIs(base, n, amplitude, halfWidth, margin);
    PointsOf(Scaled(x, v), n, amplitude, perVolt, x);
  }

  lemma ClampWithin(x: real, lo: real, hi: real)
    requires lo <= hi
    ensures lo <= Clamp(x, lo, hi) <= hi
  {
  }

  lemma HalfRangeIs(base: real, n: nat, amplitude: real, halfWidth: nat, margin: real)
    requires n >= 16 && VoltsPerSample(n, amplitude) > 0.0
    ensures DerivedHalfRange(base, n, amplitude, halfWidth, margin) ==
            Scaled(Clamp(margin * halfWidth as real, 2.0, (n / 2 - 1) as real), VoltsPerSample(n, amplitude))
  {
    hide VoltsPerSample;
    var v := VoltsPerSample(n, amplitude);
    ScaledClamp(margin * halfWidth as real, 2.0, (n / 2 - 1) as real, v);
    Regroup(margin, halfWidth as real, v);
  }

  lemma Regroup(x: real, y: real, v: real)
    ensures Scaled(x, Scaled(y, v)) == Scaled(x * y, v)
  {
  }

  lemma PointsOf(halfRange: real, n: nat, amplitude: real, perVolt: real, x: real)
    requires n >= 16 && Abs(amplitude) > 0.000000001 && halfRange >= 0.0
    requires perVolt == (n - 1) as real / (2.0 * Abs(amplitude)) && halfRange * perVolt == x
    requires 2 <= RoundHalfEven(x) <= n / 2 - 1
    ensures HalfRangeToPoints(halfRange, n, amplitude) == RoundHalfEven(x)
  {
    hide RoundedPoints;
    RoundsTo(halfRange, perVolt, x);
  }

  lemma RoundsTo(halfRange: real, perVolt: real, x: real)
    requires halfRange >= 0.0 && halfRange * perVolt == x
    ensures RoundedPoints(halfRange, perVolt) == RoundHalfEven(x)
  {
    assert Max(0.0, halfRange) == halfRange;
    assert Scaled(halfRange, perVolt) == x;
  }

  lemma RoundedWithin(x: real, lo: int, hi: int)
    requires lo as real <= x <= hi as real
    ensures lo <= RoundHalfEven(x) <= hi
  {
  }

  // ---------------------------------------------------------------------------
  // Derived thresholds, and the detector's verdict on the anchor
  // ---------------------------------------------------------------------------

  function Share(f: real, x: real, cap: real): real {
    Clamp(f * x, 0.0, cap)
  }

  function DerivedSettings(base: ScanSettings, lobes: Lobes, halfRange: real, allowSingleSide: bool, f: Factors): ScanSettings {
    base.(halfRange := halfRange,
          errorMin := Share(f.errorMin, lobes.Pair(), 4.0),
          symmetryMin := Share(f.symmetryMargin, lobes.Symmetry(), 0.9),
          minAmplitude := Share(f.minAmplitude, lobes.Pair(), 4.0),
          allowSingleSide := allowSingleSide,
          singleErrorMin := if allowSingleSide then Share(f.singleErrorMin, lobes.Stronger(), 4.0) else base.singleErrorMin)
  }

  /** The stored thresholds: the given fraction of what was measured, up to the range a threshold may take, nothing else changed. */
  lemma ThresholdsAreShares(base: ScanSettings, lobes: Lobes, halfRange: real, allow: bool, f: Factors)
    requires Fractions(f) && lobes.left >= 0.0 && lobes.right >= 0.0
    ensures var s := DerivedSettings(base, lobes, halfRange, allow, f);
            && s.errorMin == Min(Scaled(f.errorMin, lobes.Pair()), 4.0) && s.minAmplitude == Min(Scaled(f.minAmplitude, lobes.Pair()), 4.0)
            && lobes.Pair() == lobes.left + lobes.right
    ensures var s := DerivedSettings(base, lobes, halfRange, allow, f);
            s.singleErrorMin == if allow then Min(Scaled(f.singleErrorMin, Max(lobes.left, lobes.right)), 4.0) else base.singleErrorMin
    ensures var s, wider := DerivedSettings(base, lobes, halfRange, allow, f), Max(lobes.left, lobes.right);
            if wider > 0.000000000001
            then Scaled(s.symmetryMin, wider) == Min(Scaled(f.symmetryMargin, Min(lobes.left, lobes.right)), 0.9 * wider)
            else s.symmetryMin == 0.0
    ensures var s := DerivedSettings(base, lobes, halfRange, allow, f);
            s == base.(halfRange := halfRange, allowSingleSide := allow, errorMin := s.errorMin, minAmplitude := s.minAmplitude,
                          singleErrorMin := s.singleErrorMin, symmetryMin := s.symmetryMin)
  {
    hide Share, Scaled;
    ShareIs(f.errorMin, lobes.Pair(), 4.0);
    ShareIs(f.minAmplitude, lobes.Pair(), 4.0);
    ShareIs(f.singleErrorMin, Max(lobes.left, lobes.right), 4.0);
    BalanceShare(f.symmetryMargin, lobes);
  }

  lemma BalanceShare(f: real, lobes: Lobes)
    requires f >= 0.0 && lobes.left >= 0.0 && lobes.right >= 0.0
    ensures var wider, s := Max(lobes.left, lobes.right), Share(f, lobes.Symmetry(), 0.9);
            if wider > 0.000000000001 then Scaled(s, wider) == Min(Scaled(f, Min(lobes.left, lobes.right)), 0.9 * wider) else s == 0.0
  {
    hide Share;
    SymmetryInUnit(lobes);
    ShareIs(f, lobes.Symmetry(), 0.9);
    if lobes.Stronger() > 0.000000000001 {
      QuotientShare(f, lobes.Weaker(), lobes.Stronger());
    }
  }

  lemma ShareIs(f: real, x: real, cap: real)
    requires f >= 0.0 && x >= 0.0 && cap >= 0.0
    ensures Share(f, x, cap) == Min(Scaled(f, x), cap)
  {
    assert f * x >= 0.0;
  }

  lemma QuotientShare(f: real, w: real, s: real)
    requires s > 0.0
    ensures Scaled(Min(Scaled(f, w / s), 0.9), s) == Min(Scaled(f, w), 0.9 * s)
  {
    var q := w / s;
    assert q * s == w;
    assert f * q * s == f * w;
    ProductSign(0.9 - f * q, s);
    assert (0.9 - f * q) * s == 0.9 * s - f * w;
    ProductSign(f * q - 0.9, s);
  }

  lemma FractionIsNoMore(f: real, x: real, cap: real)
    requires 0.0 <= f <= 1.0 && 0.0 <= x && 0.0 <= cap
    ensures Share(f, x, cap) <= x
  {
    assert (1.0 - f) * x >= 0.0;
  }

  /** The anchor's own lobes always pass the thresholds derived from them. */
  lemma OwnLobesPass(base: ScanSettings, lobes: Lobes, halfRange: real, allowSingleSide: bool, f: Factors)
    requires Fractions(f) && 0.0 <= lobes.left && 0.0 <= lobes.right
    ensures Paired(DerivedSettings(base, lobes, halfRange, allowSingleSide, f), lobes)
  {
    hide Share;
    SymmetryInUnit(lobes);
    FractionIsNoMore(f.errorMin, lobes.Pair(), 4.0);
    FractionIsNoMore(f.symmetryMargin, lobes.Symmetry(), 0.9);
  }

  function MidThreshold(m: Monitor, level: real, f: Factors): real {
    Clamp(m.baseline + f.monitorThreshold * (level - m.baseline), 0.0, 4.0)
  }

  /** The threshold lies the given part of the way from the baseline to the level, as far as thresholds reach. */
  lemma ThresholdIsPartWay(m: Monitor, level: real, f: Factors)
    ensures var t, at := MidThreshold(m, level, f), m.baseline + f.monitorThreshold * (level - m.baseline);
            0.0 <= t <= 4.0 && (0.0 <= at <= 4.0 ==> t == at) && (at < 0.0 ==> t == 0.0) && (at > 4.0 ==> t == 4.0)
  {
  }

  /** The level a correct deviation was measured at. Clamping the threshold to [0, 4] can put it on the wrong side. */
  predicate LevelOnScale(m: Monitor, level: real) {
    if m.above then level >= 0.0 else level <= 4.0
  }

  lemma OwnLevelPassesIff(m: Monitor, level: real, f: Factors)
    requires Fractions(f) && (if m.above then level > m.baseline else level < m.baseline)
    ensures (if m.above then level >= MidThreshold(m, level, f) else level <= MidThreshold(m, level, f)) <==> LevelOnScale(m, level)
  {
    PartWay(f.monitorThreshold, m.baseline, level);
  }

  lemma PartWay(f: real, from: real, to: real)
    requires 0.0 <= f <= 1.0
    ensures if from <= to then f * (to - from) <= to - from else f * (to - from) >= to - from
  {
    ShareOf(f, if from <= to then to - from else from - to);
  }

  lemma ShareOf(f: real, d: real)
    requires 0.0 <= f <= 1.0 && d >= 0.0
    ensures f * d <= d && f * (-d) >= -d
  {
    assert (1.0 - f) * d >= 0.0;
    assert f * (-d) == -(f * d);
  }

  /** How the self-check sets the detector up: `use` says whether the calibrated settings use the monitor. */
  function CheckSetup(settings: ScanSettings, halfPts: nat, monitor: Option<Monitor>, use: bool, threshold: real, rising: bool): Setup {
    Setup(settings, halfPts,
          if monitor.None? then None else Some(monitor.value.(inUse := use, threshold := threshold)),
          Some(rising))
  }

  predicate Calibrated(trace: seq<real>, a: Anchor) {
    && a.candidate < |trace| && a.index == RoundHalfEven(EstimateCrossing(trace, a.candidate))
    && 2 <= a.index < |trace| - 2
  }

  function OwnThreshold(monitor: Option<Monitor>, use: bool, a: Anchor, halfPts: nat, f: Factors): real {
    if use && monitor.Some? && OnResonance(monitor.value, a.index, halfPts).Some?
    then MidThreshold(monitor.value, OnResonance(monitor.value, a.index, halfPts).value, f) else 0.0
  }

  /** The monitor was found to deviate the expected way at the anchor. */
  predicate MonitorDeviates(m: Monitor, a: Anchor, halfPts: nat) {
    Contrast(m, a.index, halfPts).Some? && Contrast(m, a.index, halfPts).value > 0.0
  }

  predicate MonitorFits(m: Monitor, a: Anchor, halfPts: nat) {
    OnResonance(m, a.index, halfPts).Some? && LevelOnScale(m, OnResonance(m, a.index, halfPts).value)
  }

  lemma ThresholdLeavesLevel(m: Monitor, threshold: real, anchor: nat, window: int)
    ensures var used := m.(inUse := true, threshold := threshold);
            OnResonance(used, anchor, window) == OnResonance(m, anchor, window) && Contrast(used, anchor, window) == Contrast(m, anchor, window)
  {
    hide MaxOf, MinOf;
  }

  lemma MonitorAgreesIffFits(m: Monitor, a: Anchor, halfPts: nat, f: Factors)
    requires Fractions(f) && MonitorDeviates(m, a, halfPts) && a.index < |m.trace|
    ensures var used := m.(inUse := true, threshold := OwnThreshold(Some(m), true, a, halfPts, f));
            && Contrast(used, a.index, halfPts) == Contrast(m, a.index, halfPts)
            && (MonitorAgrees(used, OnResonance(used, a.index, halfPts), Contrast(used, a.index, halfPts)) <==>
                MonitorFits(m, a, halfPts))
  {
    hide OnResonance, Contrast, MidThreshold;
    LevelExists(m, a.index, halfPts);
    ThresholdLeavesLevel(m, OwnThreshold(Some(m), true, a, halfPts, f), a.index, halfPts);
    OwnLevelPassesIff(m, OnResonance(m, a.index, halfPts).value, f);
  }

  /**
   * The detector's verdict on the anchor. For any window of two samples or more, thresholds derived from the
   * lobes measured in it and the slope given, the anchor passes every gate: always without the monitor, and
   * with it exactly when the measured level lies in the range thresholds can take.
   */
  lemma AnchorIsAccepted(trace: seq<real>, a: Anchor, base: ScanSettings, halfRange: real, halfPts: nat, allow: bool, f: Factors,
                         monitor: Option<Monitor>, use: bool)
    requires Calibrated(trace, a) && Fractions(f) && halfPts >= 2
    requires use ==> monitor.Some? && |monitor.value.trace| == |trace| && MonitorDeviates(monitor.value, a, halfPts)
    ensures var lobes := Excursions(trace, a.index, halfPts, a.rising);
            var s := DerivedSettings(base, lobes, halfRange, allow, f);
            var threshold := OwnThreshold(monitor, use, a, halfPts, f);
            var verdict := Judge(trace, CheckSetup(s, halfPts, monitor, use, threshold, a.rising), a.candidate);
            var fits := !use || MonitorFits(monitor.value, a, halfPts);
            && (verdict.Accept? <==> fits)
            && (fits ==>
                  && verdict.candidate.index == a.index && verdict.candidate.rising == a.rising
                  && verdict.candidate.score == lobes.Score() +
                     (if use then MONITOR_SCORE_WEIGHT * Contrast(monitor.value, a.index, halfPts).value else 0.0))
  {
    hide DerivedSettings, EstimateCrossing, RoundHalfEven, Excursions, OnResonance, Contrast, MonitorAgrees, OwnThreshold,
         MonitorFits, MonitorDeviates, Paired;
    var lobes := Excursions(trace, a.index, halfPts, a.rising);
    ExcursionsFitTrace(trace, a.index, halfPts, a.rising);
    OwnLobesPass(base, lobes, halfRange, allow, f);
    assert RoomForLobes(|trace|, a.index, halfPts);
    if use {
      MonitorAgreesIffFits(monitor.value, a, halfPts, f);
    }
  }

  /**
   * Calibration is accepted by the detector it feeds. With a slope preference given, once the anchor keeps two
   * samples from either end (and, if the monitor is used, its level is on scale), detection under the derived
   * thresholds succeeds exactly when the trace is as tall as its derived dead-trace floor - so always when it
   * changes sign - and whatever crossing then wins scores at least as high as the anchor.
   */
  lemma CalibratedAnchorIsDetected(trace: seq<real>, order: seq<nat>, a: Anchor, base: ScanSettings, halfRange: real,
                                   halfPts: nat, allow: bool, f: Factors, monitor: Option<Monitor>, use: bool)
    requires |trace| >= 16
    requires Calibrated(trace, a) && a.candidate in Candidates(trace, order) && Fractions(f) && halfPts >= 2
    requires use ==>
               && monitor.Some? && |monitor.value.trace| == |trace|
               && MonitorDeviates(monitor.value, a, halfPts) && MonitorFits(monitor.value, a, halfPts)
    ensures var lobes := Excursions(trace, a.index, halfPts, a.rising);
            var s := DerivedSettings(base, lobes, halfRange, allow, f);
            var d := Detection(trace, order, CheckSetup(s, halfPts, monitor, use, OwnThreshold(monitor, use, a, halfPts, f), a.rising));
            && (d.Ok? <==> TallEnough(trace, lobes, f))
            && (d.Err? ==> d.error == NoLockableSignal)
            && (d.Ok? ==> d.value.score >= lobes.Score() && d.value.rising == a.rising)
    ensures MinOf(trace) <= 0.0 <= MaxOf(trace) ==> TallEnough(trace, Excursions(trace, a.index, halfPts, a.rising), f)
  {
    hide Judge, Excursions, Candidates, MaxOf, MinOf, OwnThreshold, Calibrated, MonitorDeviates, MonitorFits, Share, Detection;
    AnchorInRange(trace, a);
    var lobes := Excursions(trace, a.index, halfPts, a.rising);
    var s := DerivedSettings(base, lobes, halfRange, allow, f);
    var setup := CheckSetup(s, halfPts, monitor, use, OwnThreshold(monitor, use, a, halfPts, f), a.rising);
    SignChangeIsTallEnough(trace, a.index, halfPts, a.rising, f);
    if TallEnough(trace, lobes, f) {
      AnchorIsAccepted(trace, a, base, halfRange, halfPts, allow, f, monitor, use);
      DetectionIsBestAccepted(trace, order, setup);
      assert AcceptsAs(trace, setup, a.candidate, Judge(trace, setup, a.candidate).candidate);
      if use {
        DeviationIsPositive(monitor.value, a, halfPts);
      }
    } else {
      TooFlat(trace, order, setup);
    }
  }

  /** The trace reaches the dead-trace floor that is derived from these lobes. */
  predicate TallEnough(trace: seq<real>, lobes: Lobes, f: Factors)
    requires trace != []
  {
    MaxOf(trace) - MinOf(trace) >= Share(f.minAmplitude, lobes.Pair(), 4.0)
  }

  lemma TooFlat(trace: seq<real>, order: seq<nat>, setup: Setup)
    requires |trace| >= 16 && !HasSignal(trace, setup.settings)
    ensures Detection(trace, order, setup) == Err(NoLockableSignal)
  {
  }

  lemma AnchorInRange(trace: seq<real>, a: Anchor)
    requires Calibrated(trace, a)
    ensures a.candidate < |trace| && a.index < |trace|
  {
  }

  lemma DeviationIsPositive(m: Monitor, a: Anchor, halfPts: nat)
    requires MonitorDeviates(m, a, halfPts)
    ensures Contrast(m, a.index, halfPts).Some? && Contrast(m, a.index, halfPts).value > 0.0
  {
  }

  lemma SignChangeIsTallEnough(trace: seq<real>, anchor: nat, halfPts: nat, rising: bool, f: Factors)
    requires anchor < |trace| && Fractions(f)
    ensures MinOf(trace) <= 0.0 <= MaxOf(trace) ==> TallEnough(trace, Excursions(trace, anchor, halfPts, rising), f)
  {
    hide Excursions, MaxOf, MinOf, Share;
    var lobes := Excursions(trace, anchor, halfPts, rising);
    ExcursionsFitTrace(trace, anchor, halfPts, rising);
    FractionIsNoMore(f.minAmplitude, lobes.Pair(), 4.0);
  }

  // ---------------------------------------------------------------------------
  // The whole calibration
  // ---------------------------------------------------------------------------

  datatype CalibrationError =
    | TooShort | MonitorMissing | NoSignal | NoZeroCrossing | NoDispersiveCrossing
    | MonitorWrongSide | MonitorTooWeak | DetectorFailed(failure: Failure) | DifferentCrossing(winner: Accepted)

  /** What was measured: the dominant crossing, the detector's window at it, and the settings derived there. */
  datatype Measured = Measured(anchor: Anchor, halfPts: nat, settings: ScanSettings)

  datatype Outcome = Calibration(at: Measured, threshold: real, winner: Accepted) | Failed(error: CalibrationError)

  function ConvergeTolerance(s: ScanSettings): int {
    MaxInt(8, 2 * s.smoothWindowPts)
  }

  predicate SameCrossing(s: ScanSettings, found: nat, anchor: nat) {
    -ConvergeTolerance(s) <= found - anchor <= ConvergeTolerance(s)
  }

  /** Half the feature's width: the wider of its two lobes, at least two samples. */
  ghost predicate HalfWidthIs(trace: seq<real>, anchor: nat, rising: bool, halfWidth: nat)
    requires |trace| >= 16 && anchor < |trace|
  {
    var reach, fallback := |trace| / 2 - 1, MaxInt(2, |trace| / 8);
    exists left: nat, right: nat ::
      && LobeIs(Walk(trace, anchor, -1, reach, !rising), fallback, left)
      && LobeIs(Walk(trace, anchor, 1, reach, rising), fallback, right)
      && halfWidth == MaxInt(MaxInt(left, right), 2)
  }

  /**
   * Both lobes are searched over half the trace, an eighth of it standing in for one that never turns; half the
   * width covers them, and no more.
   */
  lemma HalfWidthCoversLobes(trace: seq<real>, anchor: nat, rising: bool, w: nat)
    requires |trace| >= 16 && anchor < |trace| && HalfWidthIs(trace, anchor, rising, w)
    ensures w >= 2
    ensures exists left: nat, right: nat ::
              LobesOf(trace, anchor, rising, left, right) && left <= w && right <= w && (w == left || w == right || w == 2)
  {
    hide LobeIs, Walk;
    assert MaxInt(2, |trace| / 8) == |trace| / 8;
    var reach, fallback := |trace| / 2 - 1, |trace| / 8;
    var left: nat, right: nat :|
      && LobeIs(Walk(trace, anchor, -1, reach, !rising), fallback, left)
      && LobeIs(Walk(trace, anchor, 1, reach, rising), fallback, right)
      && w == MaxInt(MaxInt(left, right), 2);
    assert LobesOf(trace, anchor, rising, left, right);
  }

  /** How far the first lobe on either side reaches: below zero on the left of a rising crossing, above on its right. */
  ghost predicate LobesOf(trace: seq<real>, anchor: nat, rising: bool, left: nat, right: nat)
    requires |trace| >= 16 && anchor < |trace|
  {
    && LobeIs(Walk(trace, anchor, -1, |trace| / 2 - 1, !rising), |trace| / 8, left)
    && LobeIs(Walk(trace, anchor, 1, |trace| / 2 - 1, rising), |trace| / 8, right)
  }

  method HalfWidth(trace: seq<real>, anchor: nat, rising: bool) returns (halfWidth: nat)
    requires |trace| >= 16 && anchor < |trace|
    ensures HalfWidthIs(trace, anchor, rising, halfWidth)
  {
    hide LobeIs, Walk;
    var fallback := MaxInt(2, |trace| / 8);
    var left := LobeOffset(trace, anchor, -1, |trace| / 2 - 1, !rising, fallback);
    var right := LobeOffset(trace, anchor, 1, |trace| / 2 - 1, rising, fallback);
    halfWidth := MaxInt(MaxInt(left, right), 2);
  }

  /** The window of the calibration is its feature's half-width with the margin, clamped to what the scan can show. */
  ghost predicate WindowFromLobes(trace: seq<real>, a: Anchor, amplitude: real, base: real, margin: real, halfRange: real) {
    && |trace| >= 16 && a.index < |trace|
    && exists w: nat :: HalfWidthIs(trace, a.index, a.rising, w) && halfRange == DerivedHalfRange(base, |trace|, amplitude, w, margin)
  }

  function InUse(monitor: Option<Monitor>, use: bool): Option<Monitor> {
    if use then monitor else None
  }

  /** What calibration refuses before measuring anything, in its order. */
  function EarlyFailure(trace: seq<real>, order: seq<nat>, preferred: Option<bool>, monitor: Option<Monitor>, use: bool)
    : (early: Option<CalibrationError>)
    ensures early.Some? ==> early.value in {TooShort, MonitorMissing, NoSignal, NoZeroCrossing, NoDispersiveCrossing}
  {
    if |trace| < 16 then Some(TooShort)
    else if use && monitor.None? then Some(MonitorMissing)
    else if MaxOf(trace) - MinOf(trace) <= 0.000000001 then Some(NoSignal)
    else
      CandidatesInRange(trace, order);
      if Candidates(trace, order) == [] then Some(NoZeroCrossing)
      else if BestAnchor(trace, Candidates(trace, order), preferred, InUse(monitor, use)).None? then Some(NoDispersiveCrossing)
      else None
  }

  /** The monitor's deviation at the anchor, when it is used, is in the expected direction and strong enough. */
  predicate MonitorUsable(m: Monitor, a: Anchor, halfPts: nat, f: Factors) {
    m.trace != [] && MonitorDeviates(m, a, halfPts) && Contrast(m, a.index, halfPts).value >= LeastContrast(m, f)
  }

  function LeastContrast(m: Monitor, f: Factors): real
    requires m.trace != []
  {
    f.monitorMinContrast * Max(0.0, MaxOf(m.trace) - MinOf(m.trace))
  }

  lemma LevelExists(m: Monitor, anchor: nat, window: int)
    requires anchor < |m.trace|
    ensures OnResonance(m, anchor, window).Some?
    ensures var level := OnResonance(m, anchor, window).value;
            Contrast(m, anchor, window) == Some(if m.above then level - m.baseline else m.baseline - level)
  {
  }

  /** The dominant crossing, or what is wrong with the trace before anything is measured. */
  method ChooseAnchor(trace: seq<real>, order: seq<nat>, preferred: Option<bool>, monitor: Option<Monitor>, use: bool)
    returns (chosen: Result<Anchor, CalibrationError>)
    requires OrderedByMagnitude(order, trace)
    ensures var early := EarlyFailure(trace, order, preferred, monitor, use);
            if early.Some? then chosen == Err(early.value)
            else
              && chosen.Ok? && |trace| >= 16 && (use ==> monitor.Some?)
              && IsDominant(trace, order, chosen.value, preferred, InUse(monitor, use))
  {
    hide Candidates, BestAnchor, OrderedByMagnitude;
    if |trace| < 16 {
      return Err(TooShort);
    }
    if use && monitor.None? {
      return Err(MonitorMissing);
    }
    if MaxOf(trace) - MinOf(trace) <= 0.000000001 {
      return Err(NoSignal);
    }
    var candidates := ExtractCrossingCandidates(trace, order);
    CandidatesInRange(trace, order);
    if candidates == [] {
      return Err(NoZeroCrossing);
    }
    var best := SelectAnchor(trace, candidates, preferred, InUse(monitor, use));
    if best.None? {
      return Err(NoDispersiveCrossing);
    }
    chosen := Ok(best.value);
  }

  /** The monitor threshold part-way from baseline to the measured level, or why the monitor cannot be used here. */
  method MonitorThresholdAt(m: Monitor, a: Anchor, halfPts: nat, f: Factors) returns (threshold: Result<real, CalibrationError>)
    requires a.index < |m.trace|
    ensures if MonitorUsable(m, a, halfPts, f) then threshold == Ok(OwnThreshold(Some(m), true, a, halfPts, f))
            else threshold == Err(if MonitorDeviates(m, a, halfPts) then MonitorTooWeak else MonitorWrongSide)
  {
    hide OnResonance, Contrast, MidThreshold;
    LevelExists(m, a.index, halfPts);
    var level := OnResonance(m, a.index, halfPts);
    var contrast := if m.above then level.value - m.baseline else m.baseline - level.value;
    if contrast <= 0.0 {
      return Err(MonitorWrongSide);
    }
    if contrast < LeastContrast(m, f) {
      return Err(MonitorTooWeak);
    }
    threshold := Ok(MidThreshold(m, level.value, f));
  }

  /** What can be measured on this trace: its dominant crossing, the window its lobes give, and the thresholds measured in it. */
  ghost predicate MeasuredOn(trace: seq<real>, order: seq<nat>, amplitude: real, base: ScanSettings, preferred: Option<bool>,
                             monitor: Option<Monitor>, use: bool, allow: bool, f: Factors, at: Measured)
  {
    && WindowFromLobes(trace, at.anchor, amplitude, base.halfRange, f.halfRangeMargin, at.settings.halfRange)
    && IsDominant(trace, order, at.anchor, preferred, InUse(monitor, use))
    && at.halfPts == HalfRangeToPoints(at.settings.halfRange, |trace|, amplitude)
    && at.settings == DerivedSettings(base, Excursions(trace, at.anchor.index, at.halfPts, at.anchor.rising),
                                      at.settings.halfRange, allow, f)
  }

  /** The detector run on the trace under the settings just derived from it. */
  function SelfCheck(trace: seq<real>, order: seq<nat>, preferred: Option<bool>, monitor: Option<Monitor>, use: bool, f: Factors,
                     at: Measured): Result<Accepted, Failure>
  {
    var threshold := OwnThreshold(monitor, use, at.anchor, at.halfPts, f);
    Detection(trace, order, Setup(at.settings, at.halfPts, Used(monitor, use, threshold), preferred))
  }

  /** What becomes of a measurement. */
  function Concluded(trace: seq<real>, order: seq<nat>, base: ScanSettings, preferred: Option<bool>, monitor: Option<Monitor>,
                     use: bool, f: Factors, at: Measured): Outcome
    requires use ==> monitor.Some?
  {
    if use && !MonitorUsable(monitor.value, at.anchor, at.halfPts, f)
    then Failed(if MonitorDeviates(monitor.value, at.anchor, at.halfPts) then MonitorTooWeak else MonitorWrongSide)
    else
      match SelfCheck(trace, order, preferred, monitor, use, f, at)
      case Err(failure) => Failed(DetectorFailed(failure))
      case Ok(winner) =>
        if SameCrossing(base, winner.index, at.anchor.index)
        then Calibration(at, OwnThreshold(monitor, use, at.anchor, at.halfPts, f), winner)
        else Failed(DifferentCrossing(winner))
  }

  /** The answers calibration may give: an early refusal, or the conclusion from something measured on the trace. */
  ghost predicate Answers(trace: seq<real>, order: seq<nat>, amplitude: real, base: ScanSettings, preferred: Option<bool>,
                          monitor: Option<Monitor>, use: bool, allow: bool, f: Factors, r: Outcome)
  {
    var early := EarlyFailure(trace, order, preferred, monitor, use);
    if early.Some? then r == Failed(early.value)
    else exists at :: MeasuredOn(trace, order, amplitude, base, preferred, monitor, use, allow, f, at)
                      && r == Concluded(trace, order, base, preferred, monitor, use, f, at)
  }

  /** The early refusals, in terms of the samples, each only if no earlier one applies. */
  lemma RefusedEarlyWhen(trace: seq<real>, order: seq<nat>, preferred: Option<bool>, monitor: Option<Monitor>, use: bool)
    ensures var early := EarlyFailure(trace, order, preferred, monitor, use);
            var long, equipped := |trace| >= 16, use ==> monitor.Some?;
            var flat := forall j, k :: 0 <= j < |trace| && 0 <= k < |trace| ==> trace[j] - trace[k] <= 0.000000001;
            var rated := exists c: nat ::
                           c in Candidates(trace, order) && c < |trace| && RateAnchor(trace, c, preferred, InUse(monitor, use)).Some?;
            && (early == Some(TooShort) <==> !long)
            && (early == Some(MonitorMissing) <==> long && !equipped)
            && (early == Some(NoSignal) <==> long && equipped && flat)
            && (early == Some(NoZeroCrossing) <==> long && equipped && !flat && Candidates(trace, order) == [])
            && (early == Some(NoDispersiveCrossing) <==> long && equipped && !flat && Candidates(trace, order) != [] && !rated)
            && (early.None? <==> long && equipped && !flat && rated)
  {
    hide Candidates, RateAnchor, BestAnchor, MaxOf, MinOf;
    if |trace| >= 16 {
      FlatWhen(trace);
      CandidatesInRange(trace, order);
      BestAnchorIsBest(trace, Candidates(trace, order), preferred, InUse(monitor, use));
    }
  }

  lemma FlatWhen(trace: seq<real>)
    requires trace != []
    ensures MaxOf(trace) - MinOf(trace) <= 0.000000001 <==>
            forall j, k :: 0 <= j < |trace| && 0 <= k < |trace| ==> trace[j] - trace[k] <= 0.000000001
  {
    hide MaxOf, MinOf;
    var top :| 0 <= top < |trace| && trace[top] == MaxOf(trace);
    var low :| 0 <= low < |trace| && trace[low] == MinOf(trace);
    assert trace[top] - trace[low] == MaxOf(trace) - MinOf(trace);
  }

  /**
   * What a measurement leads to: with the monitor unused or usable, success exactly if the self-check's winner is within
   * eight samples, or twice the smoothing, of the anchor; and the monitor is usable exactly if its level is far enough
   * beyond the baseline, on the expected side.
   */
  lemma ConcludedWhen(trace: seq<real>, order: seq<nat>, base: ScanSettings, preferred: Option<bool>, monitor: Option<Monitor>,
                      use: bool, f: Factors, at: Measured)
    requires use ==> monitor.Some? && |monitor.value.trace| == |trace| > at.anchor.index
    ensures var r := Concluded(trace, order, base, preferred, monitor, use, f, at);
            var check := SelfCheck(trace, order, preferred, monitor, use, f, at);
            var reach := MaxInt(8, 2 * base.smoothWindowPts);
            var near := check.Ok? && at.anchor.index - reach <= check.value.index <= at.anchor.index + reach;
            var usable := use ==> Deviates(monitor.value, at, f);
            && (r.Calibration? <==> usable && near)
            && (r.Failed? && r.error.DetectorFailed? <==> usable && check.Err?)
            && (r.Failed? && r.error.DifferentCrossing? <==> usable && check.Ok? && !near)
            && (r.Calibration? ==> r.at == at && r.winner == check.value)
            && (r.Failed? && r.error == MonitorWrongSide <==>
                  !usable && !MonitorBeyond(monitor.value, OnResonance(monitor.value, at.anchor.index, at.halfPts).value, 0.0))
  {
    hide Detection, OnResonance, Contrast, MaxOf, MinOf, OwnThreshold;
    if use {
      LevelFromSamples(monitor.value, at.anchor.index, at.halfPts);
      LevelExists(monitor.value, at.anchor.index, at.halfPts);
    }
  }

  /** This level lies beyond the baseline on the expected side, by at least this much. */
  predicate MonitorBeyond(m: Monitor, level: real, least: real) {
    var d := if m.above then level - m.baseline else m.baseline - level;
    d > 0.0 && d >= least
  }

  predicate Deviates(m: Monitor, at: Measured, f: Factors) {
    && m.trace != []
    && var level := OnResonance(m, at.anchor.index, at.halfPts);
       level.Some? && MonitorBeyond(m, level.value, f.monitorMinContrast * Max(0.0, MaxOf(m.trace) - MinOf(m.trace)))
  }

  /** Calibration answers exactly what the measurement on its trace leads to. */
  method Calibrate(trace: seq<real>, order: seq<nat>, amplitude: real, base: ScanSettings, preferred: Option<bool>,
                   monitor: Option<Monitor>, includeMonitor: bool, allow: bool, f: Factors) returns (r: Outcome)
    requires OrderedByMagnitude(order, trace) && Fractions(f)
    requires monitor.Some? ==> |monitor.value.trace| == |trace|
    ensures Answers(trace, order, amplitude, base, preferred, monitor, includeMonitor, allow, f, r)
  {
    hide Detection, Excursions, Candidates, BestAnchor, HalfRangeToPoints, OrderedByMagnitude, Share, Contrast, OnResonance,
         HalfWidthIs, DerivedHalfRange, IsDominant, EarlyFailure, MonitorUsable, OwnThreshold, SameCrossing, MaxOf, MinOf,
         DerivedSettings;
    var chosen := ChooseAnchor(trace, order, preferred, monitor, includeMonitor);
    if chosen.Err? {
      return Failed(chosen.error);
    }
    var a := chosen.value;
    DominantIsRated(trace, order, a, preferred, InUse(monitor, includeMonitor));
    var halfWidth := HalfWidth(trace, a.index, a.rising);
    var halfRange := DerivedHalfRange(base.halfRange, |trace|, amplitude, halfWidth, f.halfRangeMargin);
    var halfPts := HalfRangeToPoints(halfRange, |trace|, amplitude);
    PointsAtLeastTwo(halfRange, |trace|, amplitude);
    var lobes := Excursions(trace, a.index, halfPts, a.rising);
    var settings := DerivedSettings(base, lobes, halfRange, allow, f);
    DerivedKeepsWindow(base, lobes, halfRange, allow, f);
    var at := Measured(a, halfPts, settings);
    assert MeasuredOn(trace, order, amplitude, base, preferred, monitor, includeMonitor, allow, f, at);
    var threshold := 0.0;
    if includeMonitor {
      var t := MonitorThresholdAt(monitor.value, a, halfPts, f);
      if t.Err? {
        return Failed(t.error);
      }
      threshold := t.value;
    } else {
      NoThresholdUnused(monitor, a, halfPts, f);
    }
    var check := FindAutoLockTarget(trace, order, Setup(settings, halfPts, Used(monitor, includeMonitor, threshold), preferred));
    if check.Err? {
      return Failed(DetectorFailed(check.error));
    }
    if !SameCrossing(base, check.value.index, a.index) {
      return Failed(DifferentCrossing(check.value));
    }
    r := Calibration(at, threshold, check.value);
  }

  lemma NoThresholdUnused(monitor: Option<Monitor>, a: Anchor, halfPts: nat, f: Factors)
    ensures OwnThreshold(monitor, false, a, halfPts, f) == 0.0
  {
  }

  lemma DerivedKeepsWindow(base: ScanSettings, lobes: Lobes, halfRange: real, allow: bool, f: Factors)
    ensures DerivedSettings(base, lobes, halfRange, allow, f).halfRange == halfRange
  {
  }

  /** The self-check cannot see the anchor: it is too near an end, or its measured monitor level is off the threshold scale. */
  predicate Unseen(trace: seq<real>, at: Measured, monitor: Option<Monitor>) {
    || at.anchor.index < 2 || at.anchor.index >= |trace| - 2
    || (monitor.Some? && !MonitorFits(monitor.value, at.anchor, at.halfPts))
  }

  /**
   * The self-check, on everything that gets as far. Wherever the anchor can be seen at all, the check finds a target
   * exactly when the trace is as tall as the floor derived from it, and then one that scores at least as high.
   */
  lemma SelfCheckFindsIff(trace: seq<real>, order: seq<nat>, amplitude: real, base: ScanSettings, preferred: Option<bool>,
                          monitor: Option<Monitor>, use: bool, allow: bool, f: Factors, at: Measured)
    requires MeasuredOn(trace, order, amplitude, base, preferred, monitor, use, allow, f, at) && Fractions(f)
    requires preferred.Some? && !Unseen(trace, at, InUse(monitor, use))
    requires use ==> monitor.Some? && |monitor.value.trace| == |trace| && MonitorUsable(monitor.value, at.anchor, at.halfPts, f)
    ensures |trace| >= 16 && at.anchor.index < |trace|
    ensures var lobes := Excursions(trace, at.anchor.index, at.halfPts, at.anchor.rising);
            var check := SelfCheck(trace, order, preferred, monitor, use, f, at);
            && (check.Ok? <==> TallEnough(trace, lobes, f))
            && (check.Err? ==> check.error == NoLockableSignal)
            && (check.Ok? ==> check.value.score >= lobes.Score())
    ensures MinOf(trace) <= 0.0 <= MaxOf(trace) ==> SelfCheck(trace, order, preferred, monitor, use, f, at).Ok?
  {
    hide Detection, Excursions, Candidates, MaxOf, MinOf, EstimateCrossing, RoundHalfEven, DerivedSettings, MonitorFits, Contrast,
         OwnThreshold, IsDominant, HalfWidthIs, DerivedHalfRange, TallEnough, HalfRangeToPoints, MonitorDeviates;
    var a := at.anchor;
    DominantIsRated(trace, order, a, preferred, InUse(monitor, use));
    PointsAtLeastTwo(at.settings.halfRange, |trace|, amplitude);
    CalibratedAnchorIsDetected(trace, order, a, base, at.settings.halfRange, at.halfPts, allow, f, monitor, use);
  }

  // ---------------------------------------------------------------------------
  // A trace that never changes sign
  // ---------------------------------------------------------------------------

  /** A trace sitting well off zero: every sample between 10.0 and 10.4. */
  predicate SitsHigh(trace: seq<real>) {
    |trace| >= 16 && forall k :: 0 <= k < |trace| ==> 10.0 <= trace[k] <= 10.4
  }

  lemma HighLobes(trace: seq<real>, anchor: nat, halfPts: nat, rising: bool)
    requires SitsHigh(trace) && 0 < anchor < |trace| - 1 && halfPts >= 2
    ensures Excursions(trace, anchor, halfPts, rising).Pair() >= 10.0
  {
    hide SitsHigh, Above, Below;
    HighSlice(trace, LeftStart(anchor, halfPts), anchor);
    HighSlice(trace, anchor + 1, RightEnd(|trace|, anchor, halfPts));
  }

  lemma HighSlice(trace: seq<real>, lo: nat, hi: nat)
    requires SitsHigh(trace) && lo < hi <= |trace|
    ensures Above(trace[lo..hi]) >= 10.0 && Below(trace[lo..hi]) >= 0.0
  {
    hide MaxOf, MinOf;
    assert trace[lo..hi][0] == trace[lo];
  }

  /** Whatever calibration measures on it, the derived floor is 3 or more and the detector finds no signal. */
  lemma HighTraceHasNoSignal(trace: seq<real>, order: seq<nat>, amplitude: real, base: ScanSettings, preferred: Option<bool>,
                             monitor: Option<Monitor>, allow: bool, at: Measured)
    requires SitsHigh(trace)
    requires MeasuredOn(trace, order, amplitude, base, preferred, monitor, false, allow, DEFAULT_FACTORS, at)
    ensures SelfCheck(trace, order, preferred, monitor, false, DEFAULT_FACTORS, at) == Err(NoLockableSignal)
  {
    hide Detection, Excursions, Candidates, MaxOf, MinOf, IsDominant, HalfWidthIs, DerivedHalfRange, HalfRangeToPoints, OwnThreshold;
    var a := at.anchor;
    DominantIsRated(trace, order, a, preferred, InUse(monitor, false));
    PointsAtLeastTwo(at.settings.halfRange, |trace|, amplitude);
    HighLobes(trace, a.index, at.halfPts, a.rising);
    TooFlat(trace, order, Setup(at.settings, at.halfPts, Used(monitor, false, OwnThreshold(monitor, false, a, at.halfPts, DEFAULT_FACTORS)),
                                preferred));
  }

  lemma HasMember(s: seq<nat>)
    ensures s != [] ==> exists c :: c in s
  {
    if s != [] {
      assert s[0] in s;
    }
  }

  lemma NoCandidateCrosses(trace: seq<real>, order: seq<nat>, c: nat)
    requires SitsHigh(trace) && |order| == |trace| <= 64 && c in order && 1 <= c < |trace| - 1
    ensures c in Candidates(trace, order)
  {
    NominatedExactly(trace, Pairs(trace));
    var crossing := Nominated(trace, Pairs(trace));
    HasMember(crossing);
    InteriorInRange(order, |trace|);
    DeduplicatedHasSameElements(NearZero(order, |trace|));
  }

  lemma HighAnchorIsRated(trace: seq<real>, c: nat, preferred: Option<bool>)
    requires SitsHigh(trace) && 1 <= c < |trace| - 1
    ensures RateAnchor(trace, c, preferred, None).Some?
  {
    hide Excursions;
    assert EstimateCrossing(trace, c) == c as real;
    HighLobes(trace, c, CoarsePts(|trace|), SlopeAt(trace, c, CoarsePts(|trace|), preferred));
  }

  /** So calibration gets as far as its self-check, and every answer it can give is that the detector sees no signal. */
  lemma HighTraceIsRefused(trace: seq<real>, order: seq<nat>, amplitude: real, base: ScanSettings, preferred: Option<bool>,
                           monitor: Option<Monitor>, allow: bool, r: Outcome)
    requires SitsHigh(trace) && MaxOf(trace) - MinOf(trace) > 0.000000001 && OrderedByMagnitude(order, trace)
    requires |trace| <= 64 && exists c: nat :: c in order && 1 <= c < |trace| - 1
    requires Answers(trace, order, amplitude, base, preferred, monitor, false, allow, DEFAULT_FACTORS, r)
    ensures r == Failed(DetectorFailed(NoLockableSignal))
  {
    hide MeasuredOn, SelfCheck, MaxOf, MinOf, Candidates, RateAnchor, BestAnchor;
    var c: nat :| c in order && 1 <= c < |trace| - 1;
    NoCandidateCrosses(trace, order, c);
    HighAnchorIsRated(trace, c, preferred);
    CandidatesInRange(trace, order);
    BestAnchorIsBest(trace, Candidates(trace, order), preferred, None);
    var at :| MeasuredOn(trace, order, amplitude, base, preferred, monitor, false, allow, DEFAULT_FACTORS, at)
              && r == Concluded(trace, order, base, preferred, monitor, false, DEFAULT_FACTORS, at);
    HighTraceHasNoSignal(trace, order, amplitude, base, preferred, monitor, allow, at);
  }

  function Offset(high: real, low: real): seq<real> {
    [high] + seq(19, k => low)
  }

  function LastFirst(n: nat): seq<nat>
    requires n > 0
  {
    seq(n, k requires 0 <= k => if k == n - 1 then 0 else k + 1)
  }

  /** A run of the calibration that ends so: twenty samples at 10, the first at 10.4. */
  method CalibrateOffsetTrace(amplitude: real, base: ScanSettings, rising: bool) returns (r: Outcome)
    ensures r == Failed(DetectorFailed(NoLockableSignal))
  {
    hide Answers, MaxOf, MinOf;
    var trace, order := Offset(10.4, 10.0), LastFirst(20);
    assert trace[0] == 10.4 && trace[1] == 10.0 && order[0] == 1;
    assert 1 in order;
    r := Calibrate(trace, order, amplitude, base, Some(rising), None, false, false, DEFAULT_FACTORS);
    HighTraceIsRefused(trace, order, amplitude, base, Some(rising), None, false, r);
  }

  function Used(monitor: Option<Monitor>, use: bool, threshold: real): Option<Monitor> {
    if monitor.None? then None else Some(monitor.value.(inUse := use, threshold := threshold))
  }

  /** The anchor the candidate ranking settles on. */
  predicate IsDominant(trace: seq<real>, order: seq<nat>, a: Anchor, preferred: Option<bool>, monitor: Option<Monitor>) {
    CandidatesInRange(trace, order);
    BestAnchor(trace, Candidates(trace, order), preferred, monitor) == Some(a)
  }

  lemma DominantIsRated(trace: seq<real>, order: seq<nat>, a: Anchor, preferred: Option<bool>, monitor: Option<Monitor>)
    requires IsDominant(trace, order, a, preferred, monitor)
    ensures a.candidate in Candidates(trace, order) && a.candidate < |trace| && 0 < a.index < |trace| - 1
    ensures a.index == RoundHalfEven(EstimateCrossing(trace, a.candidate))
    ensures preferred.Some? ==> a.rising == preferred.value
  {
    hide Candidates, BestAnchor, EstimateCrossing, Excursions, Contrast;
    CandidatesInRange(trace, order);
    BestAnchorIsBest(trace, Candidates(trace, order), preferred, monitor);
  }

  lemma PointsAtLeastTwo(halfRange: real, n: nat, amplitude: real)
    ensures HalfRangeToPoints(halfRange, n, amplitude) >= 2
  {
  }
}
