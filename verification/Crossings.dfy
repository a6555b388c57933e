/**
 * Zero crossings of an error trace and the lobe excursions around them, as both the
 * detectors and the calibration measure them (linien-gateway/app/auto_lock_scan.py).
 * A trace is a sequence of exact reals, already smoothed.
 */
module Crossings {
  import opened Common
  import opened AutoLockSettings

  // ---------------------------------------------------------------------------
  // Extremes of a stretch of trace
  // ---------------------------------------------------------------------------

  function MaxOf(s: seq<real>): (m: real)
    requires s != []
    ensures m in s
    ensures forall k :: 0 <= k < |s| ==> s[k] <= m
  {
    if |s| == 1 then s[0] else
    var rest := MaxOf(s[..|s| - 1]);
    Max(rest, s[|s| - 1])
  }

  function MinOf(s: seq<real>): (m: real)
    requires s != []
    ensures m in s
    ensures forall k :: 0 <= k < |s| ==> m <= s[k]
  {
    if |s| == 1 then s[0] else
    var rest := MinOf(s[..|s| - 1]);
    Min(rest, s[|s| - 1])
  }

  // ---------------------------------------------------------------------------
  // Candidate crossings
  // ---------------------------------------------------------------------------

  /** The sample nominated by the pair (i, i + 1), if that pair touches or straddles zero. */
  function NominatedBy(trace: seq<real>, i: nat): Option<nat>
    requires i + 1 < |trace|
  {
    var left, right := trace[i], trace[i + 1];
    if left == 0.0 && right == 0.0 then None
    else if left == 0.0 then Some(i)
    else if right == 0.0 then Some(i + 1)
    else if (left < 0.0 <= right) || (left > 0.0 >= right) then Some(if Abs(left) <= Abs(right) then i else i + 1)
    else None
  }

  /** A pair nominates a sample exactly if it reaches or passes zero either way: the one nearer zero, the earlier on a tie. */
  lemma NominatesNearer(trace: seq<real>, i: nat)
    requires i + 1 < |trace|
    ensures var c := NominatedBy(trace, i);
            && (c.Some? <==> trace[i] != trace[i + 1] && (trace[i] <= 0.0 <= trace[i + 1] || trace[i] >= 0.0 >= trace[i + 1]))
            && (c.Some? ==> i <= c.value <= i + 1 && Abs(trace[c.value]) <= Abs(trace[i]) && Abs(trace[c.value]) <= Abs(trace[i + 1]))
            && (c == Some(i + 1) ==> Abs(trace[i + 1]) < Abs(trace[i]))
  {
  }

  function Nominated(trace: seq<real>, pairs: nat): seq<nat>
    requires pairs == 0 || pairs < |trace|
  {
    if pairs == 0 then []
    else
      var earlier := Nominated(trace, pairs - 1);
      match NominatedBy(trace, pairs - 1)
      case None => earlier
      case Some(c) => earlier + [c]
  }

  function Pairs(trace: seq<real>): nat {
    if |trace| <= 1 then 0 else |trace| - 1
  }

  /** First occurrences only, in order. */
  function Deduplicated(s: seq<nat>): seq<nat> {
    if s == [] then []
    else
      var earlier := Deduplicated(s[..|s| - 1]);
      if s[|s| - 1] in earlier then earlier else earlier + [s[|s| - 1]]
  }

  /** An ordering of all samples by magnitude, ties in any order. */
  predicate OrderedByMagnitude(order: seq<nat>, trace: seq<real>) {
    && |order| == |trace|
    && (forall k :: 0 <= k < |order| ==> order[k] < |trace|)
    && (forall j, k :: 0 <= j < k < |order| ==> order[j] != order[k] && Abs(trace[order[j]]) <= Abs(trace[order[k]]))
  }

  /** The near-zero samples tried when nothing crosses: at most 64, and no end sample. */
  function NearZero(order: seq<nat>, n: nat): seq<nat> {
    Interior(if |order| <= 64 then order else order[..64], n)
  }

  function Interior(s: seq<nat>, n: nat): seq<nat> {
    if s == [] then []
    else Interior(s[..|s| - 1], n) + (if 1 <= s[|s| - 1] < n - 1 then [s[|s| - 1]] else [])
  }

  function Candidates(trace: seq<real>, order: seq<nat>): seq<nat> {
    var crossing := Nominated(trace, Pairs(trace));
    Deduplicated(if crossing == [] then NearZero(order, |trace|) else crossing)
  }

  method NominateCrossings(trace: seq<real>) returns (candidates: seq<nat>)
    ensures candidates == Nominated(trace, Pairs(trace))
  {
    candidates := [];
    for idx := 0 to Pairs(trace)
      invariant candidates == Nominated(trace, idx)
    {
      var left, right := trace[idx], trace[idx + 1];
      if left == 0.0 && right == 0.0 {
        continue;
      }
      if left == 0.0 {
        candidates := candidates + [idx];
        continue;
      }
      if right == 0.0 {
        candidates := candidates + [idx + 1];
        continue;
      }
      if (left < 0.0 <= right) || (left > 0.0 >= right) {
        candidates := candidates + [if Abs(left) <= Abs(right) then idx else idx + 1];
      }
    }
  }

  method KeepInterior(near: seq<nat>, n: nat) returns (kept: seq<nat>)
    ensures kept == Interior(near, n)
  {
    kept := [];
    for k := 0 to |near|
      invariant kept == Interior(near[..k], n)
    {
      assert near[..k + 1][..k] == near[..k];
      if 1 <= near[k] < n - 1 {
        kept := kept + [near[k]];
      }
    }
    assert near[..|near|] == near;
  }

  method DropRepeats(candidates: seq<nat>) returns (unique: seq<nat>)
    ensures unique == Deduplicated(candidates)
  {
    var seen: set<nat> := {};
    unique := [];
    for k := 0 to |candidates|
      invariant unique == Deduplicated(candidates[..k])
      invariant forall c :: c in seen <==> c in unique
    {
      assert candidates[..k + 1][..k] == candidates[..k];
      if candidates[k] in seen {
        continue;
      }
      seen := seen + {candidates[k]};
      unique := unique + [candidates[k]];
    }
    assert candidates[..|candidates|] == candidates;
  }

  method ExtractCrossingCandidates(trace: seq<real>, order: seq<nat>) returns (unique: seq<nat>)
    requires OrderedByMagnitude(order, trace)
    ensures unique == Candidates(trace, order)
  {
    var candidates := NominateCrossings(trace);
    if candidates == [] {
      candidates := KeepInterior(if |order| <= 64 then order else order[..64], |trace|);
    }
    unique := DropRepeats(candidates);
  }

  lemma {:induction false} DeduplicatedHasSameElements(s: seq<nat>)
    ensures forall c :: c in Deduplicated(s) <==> c in s
    ensures forall j, k :: 0 <= j < k < |Deduplicated(s)| ==> Deduplicated(s)[j] != Deduplicated(s)[k]
    decreases |s|
  {
    if s != [] {
      DeduplicatedHasSameElements(s[..|s| - 1]);
      assert s == s[..|s| - 1] + [s[|s| - 1]];
    }
  }

  /** `c` is a zero with a non-zero neighbour, or the end nearer zero of a sign change. */
  predicate IsCrossing(trace: seq<real>, c: nat) {
    exists i: nat :: i + 1 < |trace| && NominatedBy(trace, i) == Some(c)
  }

  lemma {:induction false} NominatedExactly(trace: seq<real>, pairs: nat)
    requires pairs == 0 || pairs < |trace|
    ensures forall c: nat :: c in Nominated(trace, pairs) <==> exists i: nat :: i < pairs && NominatedBy(trace, i) == Some(c)
  {
    if pairs > 0 {
      NominatedExactly(trace, pairs - 1);
      forall c: nat
        ensures c in Nominated(trace, pairs) <==> exists i: nat :: i < pairs && NominatedBy(trace, i) == Some(c)
      {
        if i: nat :| i < pairs && NominatedBy(trace, i) == Some(c) {
          assert i < pairs - 1 || NominatedBy(trace, pairs - 1) == Some(c);
        }
        if c in Nominated(trace, pairs) && c !in Nominated(trace, pairs - 1) {
          assert NominatedBy(trace, pairs - 1) == Some(c);
        }
      }
    }
  }

  /** When the trace crosses zero at all, the candidates are exactly its crossings. */
  lemma CandidatesAreTheCrossings(trace: seq<real>, order: seq<nat>)
    requires exists c: nat :: IsCrossing(trace, c)
    ensures forall c: nat :: c in Candidates(trace, order) <==> IsCrossing(trace, c)
  {
    hide NominatedBy;
    NominatedExactly(trace, Pairs(trace));
    var some: nat :| IsCrossing(trace, some);
    assert some in Nominated(trace, Pairs(trace));
    DeduplicatedHasSameElements(Nominated(trace, Pairs(trace)));
  }

  /** No sign change is missed: between a sample below zero and one above lies a candidate. */
  lemma {:induction false} SignChangeHasCrossing(trace: seq<real>, i: nat, j: nat) returns (c: nat)
    requires i < j < |trace|
    requires trace[i] < 0.0 < trace[j] || trace[j] < 0.0 < trace[i]
    ensures i <= c <= j && IsCrossing(trace, c)
    decreases j - i
  {
    if NominatedBy(trace, i).Some? {
      c := NominatedBy(trace, i).value;
      assert NominatedBy(trace, i) == Some(c);
    } else {
      c := SignChangeHasCrossing(trace, i + 1, j);
    }
  }

  lemma {:induction false} InteriorInRange(s: seq<nat>, n: nat)
    ensures forall c :: c in Interior(s, n) <==> c in s && 1 <= c < n - 1
    decreases |s|
  {
    if s != [] {
      InteriorInRange(s[..|s| - 1], n);
      assert s == s[..|s| - 1] + [s[|s| - 1]];
    }
  }

  lemma CandidatesInRange(trace: seq<real>, order: seq<nat>)
    ensures forall c :: c in Candidates(trace, order) ==> c < |trace|
    ensures forall k :: 0 <= k < |Candidates(trace, order)| ==> Candidates(trace, order)[k] < |trace|
  {
    var all := Candidates(trace, order);
    assert forall k :: 0 <= k < |all| ==> all[k] in all;
    var crossing := Nominated(trace, Pairs(trace));
    NominatedExactly(trace, Pairs(trace));
    InteriorInRange(if |order| <= 64 then order else order[..64], |trace|);
    DeduplicatedHasSameElements(if crossing == [] then NearZero(order, |trace|) else crossing);
  }

  // ---------------------------------------------------------------------------
  // Sub-sample position
  // ---------------------------------------------------------------------------

  /** Where the straight line between samples i and i + 1 meets zero, if it does. */
  function Bracket(trace: seq<real>, i: int): Option<real>
  {
    if i < 0 || i + 1 >= |trace| then None
    else
      var left, right := trace[i], trace[i + 1];
      if left == 0.0 then Some(i as real)
      else if right == 0.0 then Some((i + 1) as real)
      else if left * right < 0.0 then
        Some(i as real + Max(0.0, Min(1.0, -left / (right - left))))
      else None
  }

  function EstimateCrossing(trace: seq<real>, c: int): real {
    if c < 0 || c >= |trace| then c as real
    else
      match (Bracket(trace, c - 1), Bracket(trace, c))
      case (None, None) => c as real
      case (Some(p), None) => p
      case (None, Some(q)) => q
      case (Some(p), Some(q)) => if Abs(q - c as real) < Abs(p - c as real) then q else p
  }

  /** The trace between its samples, by straight lines. */
  function Interpolated(trace: seq<real>, i: nat, x: real): real
    requires i + 1 < |trace|
  {
    trace[i] + (x - i as real) * (trace[i + 1] - trace[i])
  }

  lemma OppositeSigns(left: real, right: real)
    requires left != 0.0 && right != 0.0
    ensures left * right < 0.0 <==> (left < 0.0) != (right < 0.0)
  {
  }

  lemma BracketFraction(left: real, right: real)
    requires left != 0.0 && right != 0.0 && (left < 0.0) != (right < 0.0)
    ensures right != left
    ensures 0.0 < -left / (right - left) < 1.0
    ensures left + (-left / (right - left)) * (right - left) == 0.0
  {
    var d := right - left;
    var f := -left / d;
    assert f * d == -left;
    if d > 0.0 {
      ProductSign(-f, d);
      ProductSign(f - 1.0, d);
    } else {
      ProductSign(-f, -d);
      ProductSign(f - 1.0, -d);
    }
  }

  /** A bracket position is a zero of the interpolated trace, inside its own pair of samples. */
  lemma BracketIsZero(trace: seq<real>, i: nat)
    requires i + 1 < |trace| && Bracket(trace, i).Some?
    ensures var x := Bracket(trace, i).value;
            i as real <= x <= (i + 1) as real && Interpolated(trace, i, x) == 0.0
  {
    var left, right := trace[i], trace[i + 1];
    if left != 0.0 && right != 0.0 {
      OppositeSigns(left, right);
      BracketFraction(left, right);
    }
  }

  /** The estimate stays within one sample of the candidate and inside the trace. */
  lemma EstimateIsInTrace(trace: seq<real>, c: nat)
    requires c < |trace|
    ensures var x := EstimateCrossing(trace, c);
            && Abs(x - c as real) <= 1.0 && 0.0 <= x <= (|trace| - 1) as real
            && 0 <= RoundHalfEven(x) < |trace|
  {
    hide Bracket;
    if c > 0 && Bracket(trace, c - 1).Some? {
      BracketIsZero(trace, c - 1);
    }
    if c + 1 < |trace| && Bracket(trace, c).Some? {
      BracketIsZero(trace, c);
    }
    assert Bracket(trace, -1).None? && Bracket(trace, |trace| - 1).None? by {
      NoBracketAtEnds(trace);
    }
  }

  /** Of the zeros either side of a candidate the estimate is the nearer one, the left one on a tie; with none it is the candidate. */
  lemma EstimateIsNearer(trace: seq<real>, c: nat)
    requires c < |trace|
    ensures var x, left, right := EstimateCrossing(trace, c), Bracket(trace, c - 1), Bracket(trace, c);
            && (left.None? && right.None? ==> x == c as real)
            && (left.Some? || right.Some? ==> Some(x) == left || Some(x) == right)
            && (left.Some? ==> Abs(x - c as real) <= Abs(left.value - c as real))
            && (right.Some? ==> Abs(x - c as real) <= Abs(right.value - c as real))
            && (left.Some? && right.Some? && Abs(left.value - c as real) == Abs(right.value - c as real) ==> x == left.value)
  {
    hide Bracket;
  }

  lemma NoBracketAtEnds(trace: seq<real>)
    ensures Bracket(trace, -1).None? && Bracket(trace, |trace| - 1).None?
  {
  }

  /**
   * A candidate the trace crosses at has an estimate that is a true zero of the interpolated
   * trace, and no other zero of the two adjoining segments is nearer the candidate.
   */
  lemma EstimateIsNearestZero(trace: seq<real>, c: nat)
    requires IsCrossing(trace, c)
    ensures c < |trace|
    ensures var x := EstimateCrossing(trace, c);
            exists i: nat :: (i == c || i + 1 == c) && i + 1 < |trace| && Bracket(trace, i) == Some(x) &&
                             Interpolated(trace, i, x) == 0.0
    ensures forall i: nat :: (i == c || i + 1 == c) && Bracket(trace, i).Some? ==>
              Abs(EstimateCrossing(trace, c) - c as real) <= Abs(Bracket(trace, i).value - c as real)
  {
    var i: nat :| i + 1 < |trace| && NominatedBy(trace, i) == Some(c);
    OppositeSignsAll(trace, i);
    assert Bracket(trace, i).Some? && (i == c || i + 1 == c);
    var x := EstimateCrossing(trace, c);
    var j: nat := if c + 1 < |trace| && Bracket(trace, c) == Some(x) then c else c - 1;
    BracketIsZero(trace, j);
  }

  lemma OppositeSignsAll(trace: seq<real>, i: nat)
    requires i + 1 < |trace| && NominatedBy(trace, i).Some?
    ensures Bracket(trace, i).Some?
  {
    if trace[i] != 0.0 && trace[i + 1] != 0.0 {
      OppositeSigns(trace[i], trace[i + 1]);
    }
  }

  // ---------------------------------------------------------------------------
  // Lobe excursions
  // ---------------------------------------------------------------------------

  datatype Lobes = Lobes(left: real, right: real) {
    function Pair(): real { left + right }
    function Stronger(): real { Max(left, right) }
    function Weaker(): real { Min(left, right) }
    function Symmetry(): real { if Stronger() > 0.000000000001 then Weaker() / Stronger() else 0.0 }
    function Score(): real { Pair() + 0.25 * Weaker() }
  }

  function Above(s: seq<real>): real {
    if s == [] then 0.0 else Max(0.0, MaxOf(s))
  }

  function Below(s: seq<real>): real {
    if s == [] then 0.0 else Max(0.0, -MinOf(s))
  }

  function LeftStart(anchor: nat, window: int): nat {
    MaxInt(0, anchor - window)
  }

  function RightEnd(n: nat, anchor: nat, window: int): int {
    MinInt(n, anchor + 1 + window)
  }

  /** Rising: how far the trace dips left of the anchor and peaks right of it; falling: the other way round. */
  function Excursions(trace: seq<real>, anchor: nat, window: nat, rising: bool): Lobes
    requires anchor < |trace|
  {
    var left := trace[LeftStart(anchor, window)..anchor];
    var right := trace[anchor + 1..RightEnd(|trace|, anchor, window)];
    if rising then Lobes(Below(left), Above(right)) else Lobes(Above(left), Below(right))
  }

  /** How far a sample lies on one side of zero: above it (`up`), or below. */
  function Height(x: real, up: bool): real {
    if up then x else -x
  }

  /** The least v >= 0 that no sample of trace[lo..hi] exceeds on this side of zero. */
  ghost predicate IsExcursion(trace: seq<real>, lo: int, hi: int, up: bool, v: real)
  {
    && v >= 0.0
    && (forall k :: 0 <= k < |trace| && lo <= k < hi ==> Height(trace[k], up) <= v)
    && (v > 0.0 ==> exists k :: 0 <= k < |trace| && lo <= k < hi && Height(trace[k], up) == v)
  }

  /**
   * Excursions in terms of the samples. Rising: how far the window left of the anchor dips below zero and the
   * window right of it rises above; falling: the mirror image.
   */
  lemma LobesFromSamples(trace: seq<real>, anchor: nat, window: nat, rising: bool)
    requires anchor < |trace|
    ensures var l := Excursions(trace, anchor, window, rising);
            && IsExcursion(trace, anchor - window, anchor, !rising, l.left)
            && IsExcursion(trace, anchor + 1, anchor + 1 + window, rising, l.right)
  {
    hide MaxOf, MinOf;
    SideOfSlice(trace, LeftStart(anchor, window), anchor, anchor - window, anchor);
    SideOfSlice(trace, anchor + 1, RightEnd(|trace|, anchor, window), anchor + 1, anchor + 1 + window);
  }

  lemma SideOfSlice(trace: seq<real>, lo: nat, hi: nat, from: int, to: int)
    requires lo <= hi <= |trace| && lo == MaxInt(0, from) && hi == MinInt(|trace|, to)
    ensures IsExcursion(trace, from, to, true, Above(trace[lo..hi]))
    ensures IsExcursion(trace, from, to, false, Below(trace[lo..hi]))
  {
    hide MaxOf, MinOf;
    if lo < hi {
      ExtremesOfSlice(trace, lo, hi);
    }
  }

  /** Excursions are no larger than the trace itself: together they fit in its peak-to-peak if it has both signs. */
  lemma ExcursionsFitTrace(trace: seq<real>, anchor: nat, window: nat, rising: bool)
    requires anchor < |trace|
    ensures var l := Excursions(trace, anchor, window, rising);
            && 0.0 <= l.left && 0.0 <= l.right
            && (MinOf(trace) <= 0.0 <= MaxOf(trace) ==> l.Pair() <= MaxOf(trace) - MinOf(trace))
  {
    hide MaxOf, MinOf;
    SliceWithin(trace, LeftStart(anchor, window), anchor);
    SliceWithin(trace, anchor + 1, RightEnd(|trace|, anchor, window));
  }

  lemma SliceWithin(trace: seq<real>, lo: nat, hi: nat)
    requires trace != [] && lo <= hi <= |trace|
    ensures 0.0 <= Above(trace[lo..hi]) && 0.0 <= Below(trace[lo..hi])
    ensures Above(trace[lo..hi]) <= Max(0.0, MaxOf(trace)) && Below(trace[lo..hi]) <= Max(0.0, -MinOf(trace))
  {
    hide MaxOf, MinOf;
    if lo < hi {
      MaxOfSlice(trace, lo, hi);
      MinOfSlice(trace, lo, hi);
    }
  }

  lemma MaxOfSlice(trace: seq<real>, lo: nat, hi: nat)
    requires lo < hi <= |trace|
    ensures MaxOf(trace[lo..hi]) <= MaxOf(trace)
  {
    hide MaxOf;
    var s := trace[lo..hi];
    var k :| 0 <= k < |s| && s[k] == MaxOf(s);
    assert trace[lo + k] == s[k];
  }

  lemma MinOfSlice(trace: seq<real>, lo: nat, hi: nat)
    requires lo < hi <= |trace|
    ensures MinOf(trace) <= MinOf(trace[lo..hi])
  {
    hide MinOf;
    var s := trace[lo..hi];
    var k :| 0 <= k < |s| && s[k] == MinOf(s);
    assert trace[lo + k] == s[k];
  }

  lemma SymmetryInUnit(l: Lobes)
    requires 0.0 <= l.left && 0.0 <= l.right
    ensures 0.0 <= l.Symmetry() <= 1.0
  {
    if l.Stronger() > 0.000000000001 {
      QuotientInUnit(l.Weaker(), l.Stronger());
    }
  }

  lemma QuotientInUnit(w: real, s: real)
    requires 0.0 <= w <= s && s > 0.0
    ensures 0.0 <= w / s <= 1.0
  {
    var q := w / s;
    assert q * s == w;
    FractionInUnit(q, s);
  }

  // ---------------------------------------------------------------------------
  // Sidebands
  // ---------------------------------------------------------------------------

  const SIDEBAND_SYMMETRY_TOLERANCE := 0.35

  function SymmetricSidebandOffset(left: Option<real>, right: Option<real>): Option<real> {
    if left.None? || right.None? then None
    else if left.value <= 0.0 || right.value <= 0.0 then None
    else if Abs(left.value - right.value) > SIDEBAND_SYMMETRY_TOLERANCE * Max(left.value, right.value) then None
    else Some((left.value + right.value) / 2.0)
  }

  /**
   * A spacing is reported exactly for two real sides that differ by at most 35 % of the wider one, and then it is
   * half-way between them; so it is positive and does not depend on which side is which.
   */
  lemma SpacingIsBalanced(left: Option<real>, right: Option<real>)
    ensures SymmetricSidebandOffset(left, right) == SymmetricSidebandOffset(right, left)
    ensures var r := SymmetricSidebandOffset(left, right);
            && (r.Some? <==> left.Some? && right.Some? && left.value > 0.0 && right.value > 0.0
                             && 0.65 * left.value <= right.value && 0.65 * right.value <= left.value)
            && (r.Some? ==> r.value > 0.0 && r.value - left.value == right.value - r.value)
  {
  }

  // ---------------------------------------------------------------------------
  // Monitor
  // ---------------------------------------------------------------------------

  const MONITOR_SCORE_WEIGHT := 0.5

  /**
   * `baseline` is the median of the trace. `above`: the feature shows as a peak, not a dip. `inUse`: the settings
   * let the monitor veto; `threshold` is the level the strict detector then asks for.
   */
  datatype Monitor = Monitor(trace: seq<real>, baseline: real, above: bool, inUse: bool, threshold: real)

  /** On-resonance level: the extreme of the monitor in a bounded window around the crossing. */
  function OnResonance(m: Monitor, anchor: nat, window: int): Option<real> {
    var n := |m.trace|;
    var w := MaxInt(2, MinInt(window, n / 8));
    var lo, hi := MaxInt(0, anchor - w), MinInt(n, anchor + w + 1);
    if lo >= hi then None
    else
      var segment := m.trace[lo..hi];
      assert |segment| == hi - lo;
      Some(if m.above then MaxOf(segment) else MinOf(segment))
  }

  /** How far the monitor deviates from its baseline in the expected direction. */
  function Contrast(m: Monitor, anchor: nat, window: int): Option<real> {
    match OnResonance(m, anchor, window)
    case None => None
    case Some(level) => Some(if m.above then level - m.baseline else m.baseline - level)
  }

  /**
   * The level and the contrast in terms of the samples: the highest sample of the bounded window for a peak, the
   * lowest for a dip, and how far it lies on that side of the baseline.
   */
  lemma LevelFromSamples(m: Monitor, anchor: nat, window: int)
    requires anchor < |m.trace|
    ensures OnResonance(m, anchor, window).Some? && Contrast(m, anchor, window).Some?
    ensures var level, contrast := OnResonance(m, anchor, window).value, Contrast(m, anchor, window).value;
            var w := MaxInt(2, MinInt(window, |m.trace| / 8));
            && (forall k :: 0 <= k < |m.trace| && anchor - w <= k <= anchor + w ==> Height(m.trace[k], m.above) <= Height(level, m.above))
            && (exists k :: 0 <= k < |m.trace| && anchor - w <= k <= anchor + w && m.trace[k] == level)
            && (contrast > 0.0 <==> if m.above then level > m.baseline else level < m.baseline)
            && Abs(contrast) == Abs(level - m.baseline)
  {
    hide MaxOf, MinOf, OnResonance;
    var w := MaxInt(2, MinInt(window, |m.trace| / 8));
    var lo, hi := MaxInt(0, anchor - w), MinInt(|m.trace|, anchor + w + 1);
    LevelOfSlice(m, anchor, window, lo, hi);
    ExtremesOfSlice(m.trace, lo, hi);
  }

  lemma LevelOfSlice(m: Monitor, anchor: nat, window: int, lo: int, hi: int)
    requires anchor < |m.trace|
    requires var w := MaxInt(2, MinInt(window, |m.trace| / 8)); lo == MaxInt(0, anchor - w) && hi == MinInt(|m.trace|, anchor + w + 1)
    ensures 0 <= lo < hi <= |m.trace|
    ensures OnResonance(m, anchor, window) == Some(if m.above then MaxOf(m.trace[lo..hi]) else MinOf(m.trace[lo..hi]))
  {
    hide MaxOf, MinOf;
  }

  lemma ExtremesOfSlice(trace: seq<real>, lo: nat, hi: nat)
    requires lo < hi <= |trace|
    ensures forall k :: lo <= k < hi ==> MinOf(trace[lo..hi]) <= trace[k] <= MaxOf(trace[lo..hi])
    ensures exists k :: lo <= k < hi && trace[k] == MaxOf(trace[lo..hi])
    ensures exists k :: lo <= k < hi && trace[k] == MinOf(trace[lo..hi])
  {
    hide MaxOf, MinOf;
    var s := trace[lo..hi];
    assert forall k :: lo <= k < hi ==> s[k - lo] == trace[k];
    var top :| 0 <= top < |s| && s[top] == MaxOf(s);
    var low :| 0 <= low < |s| && s[low] == MinOf(s);
    assert trace[lo + top] == MaxOf(s) && trace[lo + low] == MinOf(s);
  }
}
