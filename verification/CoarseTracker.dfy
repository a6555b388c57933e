/**
 * The coarse tracker as a whole (find_coarse_auto_lock_target in
 * linien-gateway/app/auto_lock_scan.py): rate every extrema pair at three smoothing widths
 * and take the best. The smoothed traces, the noise floor and the monitor's median are inputs.
 */
module CoarseTracker {
  import opened Common
  import opened AutoLockSettings
  import opened Crossings
  import opened ExtremaPairs
  import opened Ranking

  datatype Track = Track(
    score: real, cross: nat, left: real, right: real, width: nat, spacing: Option<real>, monitorLevel: Option<real>)

  datatype Rating = Skipped | MonitorRejects | Rated(track: Track)

  /** One smoothing of the trace, with the magnitude ordering of its samples. */
  datatype Level = Level(width: nat, signal: seq<real>, order: seq<nat>)

  datatype Scan = Scan(
    n: nat, noise: real, monitor: Option<Monitor>, settings: ScanSettings, rising: bool, halfPts: nat)

  function MaxGap(scan: Scan): nat {
    MaxInt(3, MinInt(scan.n / 4, scan.halfPts * 6))
  }

  function Exclusion(scan: Scan): nat {
    MaxInt(3, scan.halfPts)
  }

  predicate Pdh(scan: Scan) {
    scan.settings.signalType == "pdh"
  }

  function Balance(left: real, right: real): real {
    Min(left, right) / Max(Max(left, right), 0.000000000001)
  }

  predicate Promising(scan: Scan, left: real, right: real)
    requires scan.noise > 0.0
  {
    (left + right) / scan.noise >= 6.0 && Balance(left, right) >= 0.12
  }

  function Worth(scan: Scan, left: real, right: real, spacing: Option<real>, contrast: Option<real>): real
    requires scan.noise > 0.0
  {
    var bonus := if spacing.Some? then 1.15 else 1.0;
    var base := (left + right) / scan.noise * (0.5 + 0.5 * Balance(left, right)) * bonus;
    if scan.monitor.Some? && scan.monitor.value.inUse && contrast.Some? then base * (1.0 + MONITOR_SCORE_WEIGHT * contrast.value)
    else base
  }

  function Rate(scan: Scan, level: Level, p: Pair, spacing: Option<real>): Rating
    requires scan.noise > 0.0 && p.left < |level.signal| && p.right < |level.signal| && p.cross < |level.signal|
  {
    var left := Abs(level.signal[p.left] - level.signal[p.cross]);
    var right := Abs(level.signal[p.right] - level.signal[p.cross]);
    if !Promising(scan, left, right) then Skipped
    else
      var contrast := if scan.monitor.None? then None else Contrast(scan.monitor.value, p.cross, scan.halfPts);
      if scan.monitor.Some? && scan.monitor.value.inUse && (contrast.None? || contrast.value <= 0.0) then MonitorRejects
      else Rated(Track(Worth(scan, left, right, spacing, contrast), p.cross, left, right, level.width, spacing,
                       if contrast.None? then None else Some(contrast.value + scan.monitor.value.baseline)))
  }

  // ---------------------------------------------------------------------------
  // Specification: every pair, every sample
  // ---------------------------------------------------------------------------

  ghost predicate LevelOk(scan: Scan, level: Level) {
    |level.signal| == scan.n && OrderedByMagnitude(level.order, level.signal)
  }

  predicate PairsInTrace(pairs: seq<Pair>, n: nat) {
    forall k :: 0 <= k < |pairs| ==> pairs[k].left < n && pairs[k].right < n && pairs[k].cross < n
  }

  function Sidebands(scan: Scan, level: Level): set<nat> {
    set i | 0 <= i < |level.signal| && Qualifies(level.signal, Candidates(level.signal, level.order), scan.rising, i)
  }

  function NaiveSpacing(scan: Scan, level: Level, cross: nat): Option<real> {
    if Pdh(scan) then NaiveSidebands(Sidebands(scan, level), scan.n, cross, Exclusion(scan)) else None
  }

  function NaiveRatings(scan: Scan, level: Level, pairs: seq<Pair>): seq<Rating>
    requires scan.noise > 0.0 && PairsInTrace(pairs, |level.signal|)
  {
    if pairs == [] then []
    else
      var p := pairs[|pairs| - 1];
      NaiveRatings(scan, level, pairs[..|pairs| - 1]) + [Rate(scan, level, p, NaiveSpacing(scan, level, p.cross))]
  }

  function Tracks(ratings: seq<Rating>): seq<Track> {
    if ratings == [] then []
    else
      Tracks(ratings[..|ratings| - 1]) +
      (if ratings[|ratings| - 1].Rated? then [ratings[|ratings| - 1].track] else [])
  }

  function ScoreOf(t: Track): real {
    t.score
  }

  function LevelPairs(scan: Scan, level: Level): seq<Pair>
    requires |level.signal| == scan.n
  {
    ExtremaBelowIs(level.signal, scan.rising, scan.n);
    MembersAreEntries(ExtremaBelow(level.signal, scan.rising, scan.n));
    NaivePairs(Magnitudes(level.signal), ExtremaBelow(level.signal, !scan.rising, scan.n),
               ExtremaBelow(level.signal, scan.rising, scan.n), MaxGap(scan))
  }

  lemma {:induction false} NaivePairsInTrace(a: seq<real>, lefts: seq<nat>, rights: seq<nat>, maxGap: nat)
    requires forall k :: 0 <= k < |lefts| ==> 1 <= lefts[k] < |a| - 1
    requires forall k :: 0 <= k < |rights| ==> 1 <= rights[k] < |a| - 1
    ensures forall p: Pair :: p in NaivePairs(a, lefts, rights, maxGap) ==>
              p.left in lefts && p.right in rights && p.left < p.right <= p.left + maxGap
              && IsFirstLeast(a, p.left, p.right, p.cross) && 1 <= p.cross < |a| - 1
    ensures PairsInTrace(NaivePairs(a, lefts, rights, maxGap), |a|)
    decreases |lefts|
  {
    hide FirstLeast;
    var pairs := NaivePairs(a, lefts, rights, maxGap);
    if lefts != [] {
      NaivePairsInTrace(a, lefts[..|lefts| - 1], rights, maxGap);
      PairsFromAreAll(a, lefts[|lefts| - 1], rights, maxGap);
    }
    assert forall k :: 0 <= k < |pairs| ==> pairs[k] in pairs;
  }

  lemma LevelPairsInTrace(scan: Scan, level: Level)
    requires |level.signal| == scan.n
    ensures PairsInTrace(LevelPairs(scan, level), scan.n)
    ensures forall p: Pair :: p in LevelPairs(scan, level) ==>
              && 1 <= p.left < p.right < scan.n - 1 && p.right <= p.left + MaxGap(scan)
              && IsExtremum(level.signal, !scan.rising, p.left) && IsExtremum(level.signal, scan.rising, p.right)
              && IsFirstLeast(Magnitudes(level.signal), p.left, p.right, p.cross) && 1 <= p.cross < scan.n - 1
  {
    hide NaivePairs, ExtremaBelow, IsExtremum, IsFirstLeast;
    var lefts, rights := ExtremaBelow(level.signal, !scan.rising, scan.n), ExtremaBelow(level.signal, scan.rising, scan.n);
    ExtremaBelowIs(level.signal, scan.rising, scan.n);
    ExtremaBelowIs(level.signal, !scan.rising, scan.n);
    MembersAreEntries(lefts);
    MembersAreEntries(rights);
    NaivePairsInTrace(Magnitudes(level.signal), lefts, rights, MaxGap(scan));
  }

  function LevelRatings(scan: Scan, level: Level): seq<Rating>
    requires scan.noise > 0.0 && |level.signal| == scan.n
  {
    LevelPairsInTrace(scan, level);
    NaiveRatings(scan, level, LevelPairs(scan, level))
  }

  function AllRatings(scan: Scan, levels: seq<Level>): seq<Rating>
    requires scan.noise > 0.0 && forall k :: 0 <= k < |levels| ==> |levels[k].signal| == scan.n
  {
    if levels == [] then []
    else AllRatings(scan, levels[..|levels| - 1]) + LevelRatings(scan, levels[|levels| - 1])
  }

  datatype CoarseError = TraceTooShort | RejectedByMonitor | NoTrackablePair

  datatype CoarseTarget = CoarseTarget(
    index: nat, voltage: real, slopeRising: bool, track: Track, spacing: Option<real>, hzPerV: Option<real>)

  function Target(scan: Scan, track: Track, center: real, amplitude: real, modulation: Option<real>): CoarseTarget
    requires scan.n >= 16
  {
    var spacing := if Pdh(scan) && SpacingIsMeasurable(scan.settings, scan.n, amplitude) && track.spacing.Some?
                   then Some(track.spacing.value * (2.0 * Abs(amplitude) / (scan.n - 1) as real)) else None;
    var hz := if modulation.Some? && modulation.value != 0.0 && spacing.Some? && spacing.value > 0.000000000001
              then Some(modulation.value / spacing.value) else None;
    CoarseTarget(track.cross, IndexToVoltage(track.cross as real, scan.n, center, amplitude), scan.rising, track, spacing, hz)
  }

  function NaiveCoarse(scan: Scan, levels: seq<Level>, center: real, amplitude: real, modulation: Option<real>)
    : Result<CoarseTarget, CoarseError>
    requires scan.noise > 0.0 && forall k :: 0 <= k < |levels| ==> |levels[k].signal| == scan.n
  {
    if scan.n < 16 then Err(TraceTooShort)
    else
      var ratings := AllRatings(scan, levels);
      var tracks := Tracks(ratings);
      if tracks == [] then Err(if MonitorRejects in ratings then RejectedByMonitor else NoTrackablePair)
      else Ok(Target(scan, tracks[FirstBest(tracks, ScoreOf)], center, amplitude, modulation))
  }

  // ---------------------------------------------------------------------------
  // The code's way
  // ---------------------------------------------------------------------------

  method RatePairs(scan: Scan, level: Level, pairs: seq<Pair>, opposite: seq<nat>) returns (ratings: seq<Rating>)
    requires scan.noise > 0.0 && PairsInTrace(pairs, |level.signal|) && |level.signal| == scan.n
    requires Ascending(opposite) && forall k :: 0 <= k < |opposite| ==> opposite[k] < scan.n
    requires Pdh(scan) ==> Members(opposite) == Sidebands(scan, level)
    ensures ratings == NaiveRatings(scan, level, pairs)
  {
    hide Rate, Sidebands, NaiveSidebands, Members, Ascending;
    ratings := [];
    for k := 0 to |pairs|
      invariant ratings == NaiveRatings(scan, level, pairs[..k])
    {
      assert pairs[..k + 1][..k] == pairs[..k];
      var spacing: Option<real> := None;
      if Pdh(scan) {
        spacing := TwoSidedSidebands(opposite, scan.n, pairs[k].cross, Exclusion(scan));
      }
      ratings := ratings + [Rate(scan, level, pairs[k], spacing)];
    }
    assert pairs[..|pairs|] == pairs;
  }

  method RateLevel(scan: Scan, level: Level) returns (ratings: seq<Rating>)
    requires scan.noise > 0.0 && LevelOk(scan, level)
    ensures ratings == LevelRatings(scan, level)
  {
    hide NaiveRatings, NaivePairs, ExtremaBelow, Qualifies, Candidates, OrderedByMagnitude, PairsInTrace;
    var candidates := ExtractCrossingCandidates(level.signal, level.order);
    var opposite: seq<nat> := [];
    if Pdh(scan) {
      opposite := OppositeSlopeCrossings(level.signal, candidates, scan.rising);
      QualifyingInRange(level.signal, candidates, scan.rising, opposite);
    }
    var lefts := Extrema(level.signal, !scan.rising);
    var rights := Extrema(level.signal, scan.rising);
    ExtremaBelowIs(level.signal, scan.rising, scan.n);
    MembersAreEntries(rights);
    var pairs := FastPairs(Magnitudes(level.signal), lefts, rights, MaxGap(scan));
    LevelPairsInTrace(scan, level);
    ratings := RatePairs(scan, level, pairs, opposite);
  }

  lemma QualifyingInRange(signal: seq<real>, candidates: seq<nat>, rising: bool, opposite: seq<nat>)
    requires forall i: nat :: i in opposite <==> Qualifies(signal, candidates, rising, i)
    ensures forall k :: 0 <= k < |opposite| ==> opposite[k] < |signal|
    ensures Members(opposite) == set i | 0 <= i < |signal| && Qualifies(signal, candidates, rising, i)
  {
    MembersAreEntries(opposite);
  }

  method KeepTracks(ratings: seq<Rating>) returns (tracks: seq<Track>, monitorRejects: nat)
    ensures tracks == Tracks(ratings) && (monitorRejects > 0 <==> MonitorRejects in ratings)
  {
    tracks, monitorRejects := [], 0;
    for k := 0 to |ratings|
      invariant tracks == Tracks(ratings[..k]) && (monitorRejects > 0 <==> MonitorRejects in ratings[..k])
    {
      assert ratings[..k + 1] == ratings[..k] + [ratings[k]];
      match ratings[k]
      case Skipped =>
      case MonitorRejects => monitorRejects := monitorRejects + 1;
      case Rated(track) => tracks := tracks + [track];
    }
    assert ratings[..|ratings|] == ratings;
  }

  /** The tracker's answer is the one the plain search over every pair and sample gives. */
  method FindCoarseTarget(scan: Scan, levels: seq<Level>, center: real, amplitude: real, modulation: Option<real>)
    returns (outcome: Result<CoarseTarget, CoarseError>)
    requires scan.noise > 0.0 && forall k :: 0 <= k < |levels| ==> LevelOk(scan, levels[k])
    requires forall k :: 0 <= k < |levels| ==> |levels[k].signal| == scan.n
    ensures outcome == NaiveCoarse(scan, levels, center, amplitude, modulation)
  {
    hide LevelRatings, Target, OrderedByMagnitude, Tracks, FirstBest;
    if scan.n < 16 {
      return Err(TraceTooShort);
    }
    var ratings: seq<Rating> := [];
    for k := 0 to |levels|
      invariant ratings == AllRatings(scan, levels[..k])
    {
      var more := RateLevel(scan, levels[k]);
      assert levels[..k + 1][..k] == levels[..k];
      ratings := ratings + more;
    }
    assert levels[..|levels|] == levels;
    var tracks, monitorRejects := KeepTracks(ratings);
    if tracks == [] {
      return Err(if monitorRejects > 0 then RejectedByMonitor else NoTrackablePair);
    }
    var best := SelectBest(tracks, ScoreOf);
    outcome := Ok(Target(scan, best, center, amplitude, modulation));
  }

  // ---------------------------------------------------------------------------
  // What the answer means
  // ---------------------------------------------------------------------------

  /** Some extrema pair of this smoothing earns the rating. */
  ghost predicate Earns(scan: Scan, level: Level, r: Rating) {
    && scan.noise > 0.0 && |level.signal| == scan.n
    && exists p: Pair :: p in LevelPairs(scan, level) && RatedAs(scan, level, p, r)
  }

  predicate RatedAs(scan: Scan, level: Level, p: Pair, r: Rating)
    requires scan.noise > 0.0
  {
    && p.left < |level.signal| && p.right < |level.signal| && p.cross < |level.signal|
    && Rate(scan, level, p, NaiveSpacing(scan, level, p.cross)) == r
  }

  lemma {:induction false} NaiveRatingsAre(scan: Scan, level: Level, pairs: seq<Pair>)
    requires scan.noise > 0.0 && PairsInTrace(pairs, |level.signal|)
    ensures forall r :: r in NaiveRatings(scan, level, pairs) <==> exists p: Pair :: p in pairs && RatedAs(scan, level, p, r)
    decreases |pairs|
  {
    hide Rate, NaiveSpacing;
    if pairs != [] {
      var shorter, last := pairs[..|pairs| - 1], pairs[|pairs| - 1];
      NaiveRatingsAre(scan, level, shorter);
      assert pairs == shorter + [last];
      forall r ensures r in NaiveRatings(scan, level, pairs) <==> exists p: Pair :: p in pairs && RatedAs(scan, level, p, r) {
        if r in NaiveRatings(scan, level, shorter) {
          var p: Pair :| p in shorter && RatedAs(scan, level, p, r);
          assert p in pairs;
        } else if r in NaiveRatings(scan, level, pairs) {
          assert last in pairs && RatedAs(scan, level, last, r);
        }
      }
    }
  }

  lemma {:induction false} AllRatingsAre(scan: Scan, levels: seq<Level>, r: Rating)
    requires scan.noise > 0.0 && forall k :: 0 <= k < |levels| ==> |levels[k].signal| == scan.n
    ensures r in AllRatings(scan, levels) <==> exists k :: 0 <= k < |levels| && Earns(scan, levels[k], r)
    decreases |levels|
  {
    hide NaiveRatings, LevelPairs, RatedAs, PairsInTrace;
    if levels != [] {
      var shorter, last := levels[..|levels| - 1], levels[|levels| - 1];
      AllRatingsAre(scan, shorter, r);
      LevelPairsInTrace(scan, last);
      NaiveRatingsAre(scan, last, LevelPairs(scan, last));
      if r in AllRatings(scan, shorter) {
        var k :| 0 <= k < |shorter| && Earns(scan, shorter[k], r);
        assert Earns(scan, levels[k], r);
      }
      if r in LevelRatings(scan, last) {
        assert Earns(scan, levels[|levels| - 1], r);
      }
    }
  }

  lemma {:induction false} TracksAre(ratings: seq<Rating>, t: Track)
    ensures t in Tracks(ratings) <==> Rated(t) in ratings
    decreases |ratings|
  {
    if ratings != [] {
      TracksAre(ratings[..|ratings| - 1], t);
      assert ratings == ratings[..|ratings| - 1] + [ratings[|ratings| - 1]];
    }
  }

  /**
   * A target is found exactly when some extrema pair passes the gates. It is then the crossing of
   * such a pair, no pair of any smoothing scores higher, and it lies strictly inside the trace, so
   * its voltage lies inside the window scanned.
   */
  lemma CoarseTargetIsBestPair(scan: Scan, levels: seq<Level>, center: real, amplitude: real, modulation: Option<real>)
    requires scan.noise > 0.0 && scan.n >= 16
    requires forall k :: 0 <= k < |levels| ==> |levels[k].signal| == scan.n
    ensures var outcome := NaiveCoarse(scan, levels, center, amplitude, modulation);
            && (outcome.Ok? <==> exists k, t :: 0 <= k < |levels| && Earns(scan, levels[k], Rated(t)))
            && (outcome.Ok? ==>
                  && (exists k :: 0 <= k < |levels| && Earns(scan, levels[k], Rated(outcome.value.track)))
                  && (forall k, t :: 0 <= k < |levels| && Earns(scan, levels[k], Rated(t)) ==> t.score <= outcome.value.track.score)
                  && outcome.value.slopeRising == scan.rising
                  && outcome.value.index == outcome.value.track.cross && 1 <= outcome.value.index < scan.n - 1
                  && outcome.value.voltage == IndexToVoltage(outcome.value.index as real, scan.n, center, amplitude)
                  && (amplitude >= 0.0 ==> Abs(outcome.value.voltage - center) <= amplitude))
  {
    hide AllRatings, Earns, Tracks, IndexToVoltage, SpacingIsMeasurable;
    var ratings := AllRatings(scan, levels);
    var tracks := Tracks(ratings);
    var outcome := NaiveCoarse(scan, levels, center, amplitude, modulation);
    forall k, t | 0 <= k < |levels| && Earns(scan, levels[k], Rated(t)) ensures t in tracks {
      AllRatingsAre(scan, levels, Rated(t));
      TracksAre(ratings, t);
    }
    if outcome.Ok? {
      var best := outcome.value.track;
      assert best == tracks[FirstBest(tracks, ScoreOf)];
      TracksAre(ratings, best);
      AllRatingsAre(scan, levels, Rated(best));
      var k :| 0 <= k < |levels| && Earns(scan, levels[k], Rated(best));
      EarnedCrossInTrace(scan, levels[k], best);
      if amplitude >= 0.0 { IndexVoltageInWindow(best.cross as real, scan.n, center, amplitude); }
    }
  }

  lemma EarnedCrossInTrace(scan: Scan, level: Level, t: Track)
    requires Earns(scan, level, Rated(t))
    ensures 1 <= t.cross < scan.n - 1
  {
    hide LevelPairs, NaiveSpacing, Worth, Promising, Contrast;
    LevelPairsInTrace(scan, level);
  }

  /**
   * What a track is, in terms of the samples: for a rising feature a trough and then a peak, for a falling one a peak and
   * then a trough, close enough together, crossing where the magnitude is least between them.
   */
  lemma TrackJoinsLobes(scan: Scan, level: Level, t: Track) returns (left: nat, right: nat)
    requires Earns(scan, level, Rated(t))
    ensures 1 <= left <= t.cross <= right < scan.n - 1 && right - left <= MaxInt(3, MinInt(scan.n / 4, 6 * scan.halfPts))
    ensures var s := level.signal;
            && |s| == scan.n
            && (if scan.rising then s[left] <= s[left - 1] && s[left] < s[left + 1] && s[right] >= s[right - 1] && s[right] > s[right + 1]
                else s[left] >= s[left - 1] && s[left] > s[left + 1] && s[right] <= s[right - 1] && s[right] < s[right + 1])
            && (forall k :: left <= k <= right ==> Abs(s[t.cross]) <= Abs(s[k]))
            && (forall k :: left <= k < t.cross ==> Abs(s[t.cross]) < Abs(s[k]))
            && t.left == Abs(s[left] - s[t.cross]) && t.right == Abs(s[right] - s[t.cross])
            && t.spacing == NaiveSpacing(scan, level, t.cross) && t.width == level.width
  {
    hide LevelPairs, NaiveSpacing, Rate, IsFirstLeast, Magnitudes;
    LevelPairsInTrace(scan, level);
    var p: Pair :| p in LevelPairs(scan, level) && RatedAs(scan, level, p, Rated(t));
    RatedFields(scan, level, p, NaiveSpacing(scan, level, p.cross), t);
    LeastInSamples(level.signal, p.left, p.right, p.cross);
    left, right := p.left, p.right;
  }

  lemma RatedFields(scan: Scan, level: Level, p: Pair, spacing: Option<real>, t: Track)
    requires scan.noise > 0.0 && p.left < |level.signal| && p.right < |level.signal| && p.cross < |level.signal|
    requires Rate(scan, level, p, spacing) == Rated(t)
    ensures t.cross == p.cross && t.spacing == spacing && t.width == level.width
    ensures t.left == Abs(level.signal[p.left] - level.signal[p.cross]) && t.right == Abs(level.signal[p.right] - level.signal[p.cross])
  {
    hide Promising, Worth, Contrast;
  }

  lemma LeastInSamples(s: seq<real>, left: nat, right: nat, c: nat)
    requires IsFirstLeast(Magnitudes(s), left, right, c)
    ensures left <= c <= right < |s|
    ensures forall k :: left <= k <= right ==> Abs(s[c]) <= Abs(s[k])
    ensures forall k :: left <= k < c ==> Abs(s[c]) < Abs(s[k])
  {
    var a := Magnitudes(s);
    assert forall k :: 0 <= k < |s| ==> a[k] == Abs(s[k]);
  }

  /**
   * When a pair is tracked: exactly if its lobes are six times the noise together and the smaller is 12 % of the larger,
   * and the monitor, when it is in use, is on the expected side of its baseline.
   */
  lemma RatedExactlyWhen(scan: Scan, level: Level, p: Pair, spacing: Option<real>)
    requires scan.noise > 0.0 && p.left < |level.signal| && p.right < |level.signal| && p.cross < |level.signal|
    requires scan.monitor.Some? ==> |scan.monitor.value.trace| == |level.signal|
    ensures var left, right := Abs(level.signal[p.left] - level.signal[p.cross]), Abs(level.signal[p.right] - level.signal[p.cross]);
            var promising := left + right >= 6.0 * scan.noise && Min(left, right) >= 0.12 * Max(Max(left, right), 0.000000000001);
            var used := scan.monitor.Some? && scan.monitor.value.inUse;
            var seen := used ==> BeyondBaseline(scan.monitor.value, p.cross, scan.halfPts);
            var r := Rate(scan, level, p, spacing);
            && (r.Skipped? <==> !promising) && (r.MonitorRejects? <==> promising && !seen) && (r.Rated? <==> promising && seen)
            && (r.Rated? ==> r.track.score == Worth(scan, left, right, spacing, MonitorContrast(scan, p.cross)))
            // the level reported is the one seen for a peak, and for a dip its mirror image in the baseline
            && (r.Rated? ==> if scan.monitor.None? then r.track.monitorLevel.None? else
                  var seenAt := OnResonance(scan.monitor.value, p.cross, scan.halfPts).value;
                  r.track.monitorLevel == Some(if scan.monitor.value.above then seenAt else 2.0 * scan.monitor.value.baseline - seenAt))
  {
    hide Contrast, OnResonance, Worth, Promising;
    var left, right := Abs(level.signal[p.left] - level.signal[p.cross]), Abs(level.signal[p.right] - level.signal[p.cross]);
    PromisingWhen(scan, left, right);
    if scan.monitor.Some? {
      LevelFromSamples(scan.monitor.value, p.cross, scan.halfPts);
    }
  }

  function MonitorContrast(scan: Scan, cross: nat): Option<real> {
    if scan.monitor.None? then None else Contrast(scan.monitor.value, cross, scan.halfPts)
  }

  /** A track's score without its quotients. */
  lemma WorthIs(scan: Scan, left: real, right: real, spacing: Option<real>, contrast: Option<real>)
    requires scan.noise > 0.0
    ensures var wider := Max(Max(left, right), 0.000000000001);
            var factor := if scan.monitor.Some? && scan.monitor.value.inUse && contrast.Some? then 1.0 + contrast.value / 2.0 else 1.0;
            Worth(scan, left, right, spacing, contrast) * scan.noise * (2.0 * wider) ==
            (left + right) * (wider + Min(left, right)) * (if spacing.Some? then 1.15 else 1.0) * factor
  {
    var wider := Max(Max(left, right), 0.000000000001);
    var factor := if scan.monitor.Some? && scan.monitor.value.inUse && contrast.Some? then 1.0 + contrast.value / 2.0 else 1.0;
    var x, y := (left + right) / scan.noise, Min(left, right) / wider;
    assert x * scan.noise == left + right && y * wider == Min(left, right);
    Rearranged(x, y, scan.noise, wider, if spacing.Some? then 1.15 else 1.0, factor, left + right, Min(left, right));
  }

  lemma Rearranged(x: real, y: real, d: real, w: real, bonus: real, factor: real, p: real, q: real)
    requires x * d == p && y * w == q
    ensures x * (0.5 + 0.5 * y) * bonus * factor * d * (2.0 * w) == p * (w + q) * bonus * factor
  {
    assert (0.5 + 0.5 * y) * (2.0 * w) == w + q;
    calc {
      x * (0.5 + 0.5 * y) * bonus * factor * d * (2.0 * w);
      (x * d) * ((0.5 + 0.5 * y) * (2.0 * w)) * bonus * factor;
      p * (w + q) * bonus * factor;
    }
  }

  predicate BeyondBaseline(m: Monitor, cross: nat, window: int) {
    var level := OnResonance(m, cross, window);
    level.Some? && if m.above then level.value > m.baseline else level.value < m.baseline
  }

  lemma PromisingWhen(scan: Scan, left: real, right: real)
    requires scan.noise > 0.0 && left >= 0.0 && right >= 0.0
    ensures Promising(scan, left, right) <==>
            left + right >= 6.0 * scan.noise && Min(left, right) >= 0.12 * Max(Max(left, right), 0.000000000001)
  {
    AtLeast(left + right, scan.noise, 6.0);
    AtLeast(Min(left, right), Max(Max(left, right), 0.000000000001), 0.12);
  }

  lemma AtLeast(x: real, d: real, q: real)
    requires d > 0.0
    ensures x / d >= q <==> x >= q * d
  {
    assert (x / d) * d == x;
    assert (x / d - q) * d == x - q * d;
    ProductSign(x / d - q, d);
  }

  /** Which pairs are looked at: every trough with every later peak within the gap, or the other way round, and no others. */
  lemma PairsLookedAt(scan: Scan, level: Level, p: Pair)
    requires |level.signal| == scan.n
    ensures p in LevelPairs(scan, level) <==>
              && 1 <= p.left < p.right < scan.n - 1 && p.right - p.left <= MaxInt(3, MinInt(scan.n / 4, 6 * scan.halfPts))
              && IsExtremum(level.signal, !scan.rising, p.left) && IsExtremum(level.signal, scan.rising, p.right)
              && IsFirstLeast(Magnitudes(level.signal), p.left, p.right, p.cross)
  {
    hide NaivePairs, ExtremaBelow, IsExtremum, IsFirstLeast;
    var lefts, rights := ExtremaBelow(level.signal, !scan.rising, scan.n), ExtremaBelow(level.signal, scan.rising, scan.n);
    ExtremaBelowIs(level.signal, scan.rising, scan.n);
    ExtremaBelowIs(level.signal, !scan.rising, scan.n);
    MembersAreEntries(rights);
    NaivePairsAreAll(Magnitudes(level.signal), lefts, rights, MaxGap(scan), p);
  }

  /** The crossings a spacing is measured to: candidates off the ends with the opposite local slope. */
  predicate MayBeSideband(scan: Scan, level: Level, i: nat) {
    && i in Candidates(level.signal, level.order) && 4 <= i < |level.signal| - 4
    && (if scan.rising then level.signal[i + 1] <= level.signal[i - 1] else level.signal[i + 1] > level.signal[i - 1])
  }

  /** The spacing of a pair: only for PDH, and measured to crossings at least three samples and the half-width away. */
  lemma SpacingOfPair(scan: Scan, level: Level, cross: nat)
    requires |level.signal| == scan.n
    ensures scan.settings.signalType != "pdh" ==> NaiveSpacing(scan, level, cross).None?
    ensures scan.settings.signalType == "pdh" ==>
              exists wanted: set<nat>, exclusion: nat ::
                && (forall i: nat :: i in wanted <==> MayBeSideband(scan, level, i))
                && exclusion >= 3 && exclusion >= scan.halfPts && (exclusion == 3 || exclusion == scan.halfPts)
                && NaiveSpacing(scan, level, cross) == NaiveSidebands(wanted, scan.n, cross, exclusion)
  {
    hide NaiveSidebands, Candidates;
    if scan.settings.signalType == "pdh" {
      var wanted := Sidebands(scan, level);
      assert forall i: nat :: i in wanted <==> MayBeSideband(scan, level, i);
      assert NaiveSpacing(scan, level, cross) == NaiveSidebands(wanted, scan.n, cross, Exclusion(scan));
    }
  }

  /** What a target reports besides its track: the spacing in volts where the scan resolves one, and the scale from it. */
  lemma TargetReports(scan: Scan, track: Track, center: real, amplitude: real, modulation: Option<real>)
    requires scan.n >= 16
    ensures var t := Target(scan, track, center, amplitude, modulation);
            && (t.spacing.Some? <==>
                  && scan.settings.signalType == "pdh" && track.spacing.Some?
                  && SpacingIsMeasurable(scan.settings, scan.n, amplitude))
            && (t.spacing.Some? ==> t.spacing.value * (scan.n - 1) as real == track.spacing.value * (2.0 * Abs(amplitude)))
            && (t.hzPerV.Some? <==> modulation.Some? && modulation.value != 0.0 && t.spacing.Some? && t.spacing.value > 0.000000000001)
            && (t.hzPerV.Some? ==> t.hzPerV.value * t.spacing.value == modulation.value)
  {
    hide IndexToVoltage, SpacingIsMeasurable;
    if track.spacing.Some? {
      var m := (scan.n - 1) as real;
      var perSample := 2.0 * Abs(amplitude) / m;
      assert perSample * m == 2.0 * Abs(amplitude);
      assert track.spacing.value * perSample * m == track.spacing.value * (perSample * m);
    }
    var t := Target(scan, track, center, amplitude, modulation);
    if t.hzPerV.Some? {
      assert modulation.value / t.spacing.value * t.spacing.value == modulation.value;
    }
  }

  /** With no track to answer with, the monitor is named exactly if it rejected some pair. */
  lemma RefusedExactlyWhen(scan: Scan, levels: seq<Level>, center: real, amplitude: real, modulation: Option<real>)
    requires scan.noise > 0.0
    requires forall k :: 0 <= k < |levels| ==> |levels[k].signal| == scan.n
    ensures var outcome := NaiveCoarse(scan, levels, center, amplitude, modulation);
            var long := scan.n >= 16;
            var tracked := exists k, t :: 0 <= k < |levels| && Earns(scan, levels[k], Rated(t));
            var vetoed := exists k :: 0 <= k < |levels| && Earns(scan, levels[k], MonitorRejects);
            && (outcome == Err(TraceTooShort) <==> !long)
            && (outcome == Err(RejectedByMonitor) <==> long && !tracked && vetoed)
            && (outcome == Err(NoTrackablePair) <==> long && !tracked && !vetoed)
  {
    hide AllRatings, Earns, Tracks, Target;
    if scan.n >= 16 {
      CoarseTargetIsBestPair(scan, levels, center, amplitude, modulation);
      AllRatingsAre(scan, levels, MonitorRejects);
    }
  }
}
