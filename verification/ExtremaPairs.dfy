/**
 * The searches inside the coarse tracker (find_coarse_auto_lock_target in
 * linien-gateway/app/auto_lock_scan.py): every pair of neighbouring extrema, its crossing
 * and its sidebands. The code finds them with bisections and one running first-argmin per
 * left extremum; the specification is the plain search over all pairs and samples.
 */
module ExtremaPairs {
  import opened Common
  import opened Crossings

  predicate Ascending(s: seq<nat>) {
    forall j, k :: 0 <= j < k < |s| ==> s[j] < s[k]
  }

  // ---------------------------------------------------------------------------
  // Bisection
  // ---------------------------------------------------------------------------

  /** Everything before `cut` lies below the limit, everything from `cut` on does not. */
  predicate Splits(s: seq<nat>, limit: int, cut: nat) {
    && cut <= |s|
    && (forall j :: 0 <= j < cut ==> s[j] < limit)
    && (forall j :: cut <= j < |s| ==> limit <= s[j])
  }

  /** searchsorted: before any equal entries (`left` side). The `right` side is the search for v + 1. */
  method SearchSorted(s: seq<nat>, v: int) returns (cut: nat)
    requires Ascending(s)
    ensures Splits(s, v, cut)
  {
    var lo: nat, hi: nat := 0, |s|;
    while lo < hi
      invariant lo <= hi <= |s|
      invariant forall j :: 0 <= j < lo ==> s[j] < v
      invariant forall j :: hi <= j < |s| ==> v <= s[j]
    {
      var mid := (lo + hi) / 2;
      if s[mid] < v { lo := mid + 1; } else { hi := mid; }
    }
    cut := lo;
  }

  lemma SplitsInOrder(s: seq<nat>, low: int, high: int, lo: nat, hi: nat)
    requires Splits(s, low, lo) && Splits(s, high, hi) && low <= high
    ensures lo <= hi
  {
    if hi < |s| {
      assert high <= s[hi];
    }
  }

  // ---------------------------------------------------------------------------
  // First least sample of a stretch
  // ---------------------------------------------------------------------------

  predicate IsFirstLeast(a: seq<real>, lo: nat, hi: nat, c: nat) {
    && lo <= c <= hi < |a|
    && (forall k :: lo <= k <= hi ==> a[c] <= a[k])
    && (forall k :: lo <= k < c ==> a[c] < a[k])
  }

  /** The plain scan, keeping the first of equals. */
  function FirstLeast(a: seq<real>, lo: nat, hi: nat): (c: nat)
    requires lo <= hi < |a|
    ensures IsFirstLeast(a, lo, hi, c)
    decreases hi
  {
    if lo == hi then lo
    else
      var best := FirstLeast(a, lo, hi - 1);
      if a[hi] < a[best] then hi else best
  }

  lemma FirstLeastIsUnique(a: seq<real>, lo: nat, hi: nat, c: nat, d: nat)
    requires IsFirstLeast(a, lo, hi, c) && IsFirstLeast(a, lo, hi, d)
    ensures c == d
  {
    assert a[c] <= a[d] && a[d] <= a[c];
  }

  lemma FirstLeastExtends(a: seq<real>, k: nat)
    requires k < |a|
    ensures FirstLeast(a, 0, 0) == 0 && FirstLeast(a, 0, k) <= k
    ensures k > 0 ==> var best := FirstLeast(a, 0, k - 1);
                      FirstLeast(a, 0, k) == if a[k] < a[best] then k else best
  {
  }

  /** minimum.accumulate */
  method RunningMinimum(window: seq<real>) returns (least: seq<real>)
    requires window != []
    ensures |least| == |window| && forall k :: 0 <= k < |window| ==> least[k] == window[FirstLeast(window, 0, k)]
  {
    hide FirstLeast;
    FirstLeastExtends(window, 0);
    least := [window[0]];
    for k := 1 to |window|
      invariant |least| == k && forall j :: 0 <= j < k ==> least[j] == window[FirstLeast(window, 0, j)]
    {
      FirstLeastExtends(window, k);
      least := least + [Min(least[k - 1], window[k])];
    }
  }

  /**
   * One running first-argmin for every prefix at once: a position counts where the window drops
   * strictly below everything before it, and the largest such position so far is the answer.
   */
  method RunningFirstLeast(window: seq<real>) returns (first: seq<nat>)
    requires window != []
    ensures |first| == |window| && forall k :: 0 <= k < |window| ==> first[k] == FirstLeast(window, 0, k)
  {
    hide FirstLeast, IsFirstLeast;
    var least := RunningMinimum(window);
    var improved: seq<bool> := [true];
    for k := 1 to |window|
      invariant |improved| == k && improved[0]
      invariant forall j :: 1 <= j < k ==> improved[j] == (window[j] < least[j - 1])
    {
      improved := improved + [window[k] < least[k - 1]];
    }
    first := [];
    var latest: nat := 0;
    for k := 0 to |window|
      invariant |first| == k && latest <= k && (k > 0 ==> latest == first[k - 1])
      invariant forall j :: 0 <= j < k ==> first[j] == FirstLeast(window, 0, j)
    {
      FirstLeastExtends(window, k);
      var position := if improved[k] then k else 0;
      latest := MaxInt(latest, position);
      first := first + [latest];
    }
  }

  // ---------------------------------------------------------------------------
  // Extrema and their pairs
  // ---------------------------------------------------------------------------

  predicate IsExtremum(signal: seq<real>, peak: bool, i: nat)
    requires 1 <= i < |signal| - 1
  {
    if peak then signal[i] >= signal[i - 1] && signal[i] > signal[i + 1]
    else signal[i] <= signal[i - 1] && signal[i] < signal[i + 1]
  }

  /** An extremum stands out: no less than the sample before it and more than the one after, counted its own way. */
  lemma ExtremumStandsOut(signal: seq<real>, peak: bool, i: nat)
    requires 1 <= i < |signal| - 1
    ensures IsExtremum(signal, peak, i) <==>
              && Height(signal[i] - signal[i - 1], peak) >= 0.0
              && Height(signal[i] - signal[i + 1], peak) > 0.0
  {
  }

  lemma MembersAreEntries(s: seq<nat>)
    ensures forall k :: 0 <= k < |s| ==> s[k] in s
  {
  }

  /** All extrema of one kind, in order. */
  function ExtremaBelow(signal: seq<real>, peak: bool, i: nat): seq<nat> {
    if i == 0 then []
    else
      var earlier := ExtremaBelow(signal, peak, i - 1);
      if 1 <= i - 1 < |signal| - 1 && IsExtremum(signal, peak, i - 1) then earlier + [i - 1] else earlier
  }

  lemma {:induction false} ExtremaBelowIs(signal: seq<real>, peak: bool, i: nat)
    ensures Ascending(ExtremaBelow(signal, peak, i))
    ensures forall j: nat :: j in ExtremaBelow(signal, peak, i) <==>
              j < i && 1 <= j < |signal| - 1 && IsExtremum(signal, peak, j)
  {
    if i > 0 {
      ExtremaBelowIs(signal, peak, i - 1);
      MembersAreEntries(ExtremaBelow(signal, peak, i - 1));
    }
  }

  method Extrema(signal: seq<real>, peak: bool) returns (found: seq<nat>)
    ensures found == ExtremaBelow(signal, peak, |signal|)
  {
    found := [];
    for i := 1 to MaxInt(1, |signal| - 1)
      invariant found == ExtremaBelow(signal, peak, i)
    {
      if IsExtremum(signal, peak, i) {
        found := found + [i];
      }
    }
  }

  datatype Pair = Pair(left: nat, right: nat, cross: nat)

  function Magnitudes(signal: seq<real>): (a: seq<real>)
    ensures |a| == |signal|
  {
    seq(|signal|, k requires 0 <= k < |signal| => Abs(signal[k]))
  }

  /** The plain search: every right extremum up to `maxGap` after this left one, with the first least |signal| between them. */
  function PairsFrom(a: seq<real>, left: nat, rights: seq<nat>, maxGap: nat): seq<Pair>
    requires forall k :: 0 <= k < |rights| ==> rights[k] < |a|
  {
    if rights == [] then []
    else
      var earlier, right := PairsFrom(a, left, rights[..|rights| - 1], maxGap), rights[|rights| - 1];
      if left < right <= left + maxGap then earlier + [Pair(left, right, FirstLeast(a, left, right))] else earlier
  }

  function NaivePairs(a: seq<real>, lefts: seq<nat>, rights: seq<nat>, maxGap: nat): seq<Pair>
    requires forall k :: 0 <= k < |rights| ==> rights[k] < |a|
  {
    if lefts == [] then []
    else NaivePairs(a, lefts[..|lefts| - 1], rights, maxGap) + PairsFrom(a, lefts[|lefts| - 1], rights, maxGap)
  }

  function PairUp(left: nat, rights: seq<nat>, crosses: seq<nat>): (p: seq<Pair>)
    requires |rights| == |crosses|
    ensures |p| == |rights|
    ensures forall k :: 0 <= k < |p| ==> p[k] == Pair(left, rights[k], crosses[k])
  {
    seq(|rights|, k requires 0 <= k < |rights| => Pair(left, rights[k], crosses[k]))
  }

  /** Rights past the gap contribute nothing. */
  lemma {:induction false} PairsBeforeCut(a: seq<real>, left: nat, rights: seq<nat>, maxGap: nat, hi: nat)
    requires Ascending(rights) && forall k :: 0 <= k < |rights| ==> rights[k] < |a|
    requires Splits(rights, left + maxGap + 1, hi)
    ensures hi <= |rights| && PairsFrom(a, left, rights, maxGap) == PairsFrom(a, left, rights[..hi], maxGap)
    decreases |rights|
  {
    hide FirstLeast, Ascending, Splits;
    SplitsInRange(rights, left + maxGap + 1, hi);
    if hi == |rights| {
      assert rights[..hi] == rights;
    } else {
      var shorter := rights[..|rights| - 1];
      SplitsButLast(rights, left + maxGap + 1, hi);
      PairsBeforeCut(a, left, shorter, maxGap, hi);
      assert shorter[..hi] == rights[..hi];
    }
  }

  /** Before the gap, rights not past the left extremum contribute nothing and all later ones a pair each. */
  lemma {:induction false} PairsFromSlice(a: seq<real>, left: nat, rights: seq<nat>, maxGap: nat, lo: nat, crosses: seq<nat>)
    requires forall k :: 0 <= k < |rights| ==> rights[k] < |a|
    requires lo <= |rights| && |crosses| == |rights| - lo
    requires forall k :: 0 <= k < lo ==> rights[k] <= left
    requires forall k :: lo <= k < |rights| ==> left < rights[k] <= left + maxGap
    requires forall k :: lo <= k < |rights| ==> crosses[k - lo] == FirstLeast(a, left, rights[k])
    ensures PairsFrom(a, left, rights, maxGap) == PairUp(left, rights[lo..], crosses)
    decreases |rights|
  {
    hide FirstLeast, IsFirstLeast, PairUp;
    if rights != [] {
      var last := |rights| - 1;
      var shorter := rights[..last];
      if lo < |rights| {
        var fewer := crosses[..last - lo];
        PairsFromSlice(a, left, shorter, maxGap, lo, fewer);
        PairUpAppends(left, rights[lo..], crosses);
        assert rights[lo..][..last - lo] == shorter[lo..];
      } else {
        NoPairs(a, left, rights, maxGap);
      }
    }
  }

  lemma {:induction false} NoPairs(a: seq<real>, left: nat, rights: seq<nat>, maxGap: nat)
    requires forall k :: 0 <= k < |rights| ==> rights[k] < |a| && rights[k] <= left
    ensures PairsFrom(a, left, rights, maxGap) == []
    decreases |rights|
  {
    hide FirstLeast;
    if rights != [] {
      NoPairs(a, left, rights[..|rights| - 1], maxGap);
    }
  }

  lemma SplitsInRange(s: seq<nat>, limit: int, cut: nat)
    requires Splits(s, limit, cut)
    ensures cut <= |s|
  {
  }

  lemma SplitsButLast(s: seq<nat>, limit: int, cut: nat)
    requires s != [] && Ascending(s) && Splits(s, limit, cut)
    ensures Ascending(s[..|s| - 1]) && Splits(s[..|s| - 1], limit, if cut == |s| then cut - 1 else cut)
    ensures s[|s| - 1] < limit <==> cut == |s|
    ensures cut <= |s|
  {
  }

  lemma PairUpAppends(left: nat, rights: seq<nat>, crosses: seq<nat>)
    requires |rights| == |crosses| > 0
    ensures var m := |rights| - 1;
            PairUp(left, rights, crosses) == PairUp(left, rights[..m], crosses[..m]) + [Pair(left, rights[m], crosses[m])]
  {
  }

  lemma FirstLeastOfWindow(a: seq<real>, left: nat, end: nat, k: nat)
    requires left + k < end <= |a|
    ensures left + FirstLeast(a[left..end], 0, k) == FirstLeast(a, left, left + k)
  {
    hide FirstLeast;
    var w := a[left..end];
    var c := left + FirstLeast(w, 0, k);
    assert IsFirstLeast(a, left, left + k, c) by {
      assert forall j :: left <= j < end ==> a[j] == w[j - left];
    }
    FirstLeastIsUnique(a, left, left + k, c, FirstLeast(a, left, left + k));
  }

  /** The pairs of one left extremum, all their crossings read off one running argmin. */
  method FastPairsFrom(a: seq<real>, left: nat, rights: seq<nat>, maxGap: nat) returns (pairs: seq<Pair>)
    requires Ascending(rights) && forall k :: 0 <= k < |rights| ==> rights[k] < |a|
    ensures pairs == PairsFrom(a, left, rights, maxGap)
  {
    hide FirstLeast, PairsFrom, PairUp;
    var lo := SearchSorted(rights, left + 1);
    var hi := SearchSorted(rights, left + maxGap + 1);
    SplitsInOrder(rights, left + 1, left + maxGap + 1, lo, hi);
    PairsBeforeCut(a, left, rights, maxGap, hi);
    if lo >= hi {
      PairsFromSlice(a, left, rights[..hi], maxGap, lo, []);
      assert rights[..hi][lo..] == [];
      return [];
    }
    var end := rights[hi - 1] + 1;
    var first := RunningFirstLeast(a[left..end]);
    var crosses: seq<nat> := [];
    for k := lo to hi
      invariant |crosses| == k - lo
      invariant forall j :: 0 <= j < k - lo ==> crosses[j] == FirstLeast(a, left, rights[lo + j])
    {
      FirstLeastOfWindow(a, left, end, rights[k] - left);
      crosses := crosses + [left + first[rights[k] - left]];
    }
    PairsFromSlice(a, left, rights[..hi], maxGap, lo, crosses);
    assert rights[..hi][lo..] == rights[lo..hi];
    pairs := PairUp(left, rights[lo..hi], crosses);
  }

  method FastPairs(a: seq<real>, lefts: seq<nat>, rights: seq<nat>, maxGap: nat) returns (pairs: seq<Pair>)
    requires Ascending(rights) && forall k :: 0 <= k < |rights| ==> rights[k] < |a|
    ensures pairs == NaivePairs(a, lefts, rights, maxGap)
  {
    hide PairsFrom;
    pairs := [];
    for k := 0 to |lefts|
      invariant pairs == NaivePairs(a, lefts[..k], rights, maxGap)
    {
      var some := FastPairsFrom(a, lefts[k], rights, maxGap);
      assert lefts[..k + 1][..k] == lefts[..k];
      pairs := pairs + some;
    }
    assert lefts[..|lefts|] == lefts;
  }

  /** Nothing is missed and nothing invented: the pairs are exactly the in-range ones, each with its first least crossing. */
  lemma {:induction false} PairsFromAreAll(a: seq<real>, left: nat, rights: seq<nat>, maxGap: nat)
    requires forall k :: 0 <= k < |rights| ==> rights[k] < |a|
    ensures forall p: Pair :: p in PairsFrom(a, left, rights, maxGap) <==>
              && p.left == left && p.right in rights && left < p.right <= left + maxGap
              && IsFirstLeast(a, left, p.right, p.cross)
    decreases |rights|
  {
    hide FirstLeast;
    if rights != [] {
      var shorter, right := rights[..|rights| - 1], rights[|rights| - 1];
      PairsFromAreAll(a, left, shorter, maxGap);
      assert rights == shorter + [right];
      forall p: Pair | p.left == left && p.right == right && left < right <= left + maxGap && IsFirstLeast(a, left, right, p.cross)
        ensures p == Pair(left, right, FirstLeast(a, left, right))
      {
        FirstLeastIsUnique(a, left, right, p.cross, FirstLeast(a, left, right));
      }
    }
  }

  /** Over all left extrema: exactly the pairs within the gap. */
  lemma {:induction false} NaivePairsAreAll(a: seq<real>, lefts: seq<nat>, rights: seq<nat>, maxGap: nat, p: Pair)
    requires forall k :: 0 <= k < |rights| ==> rights[k] < |a|
    ensures p in NaivePairs(a, lefts, rights, maxGap) <==>
              p.left in lefts && p.right in rights && p.left < p.right <= p.left + maxGap && IsFirstLeast(a, p.left, p.right, p.cross)
    decreases |lefts|
  {
    hide PairsFrom, IsFirstLeast;
    if lefts != [] {
      var shorter, left := lefts[..|lefts| - 1], lefts[|lefts| - 1];
      NaivePairsAreAll(a, shorter, rights, maxGap, p);
      PairsFromAreAll(a, left, rights, maxGap);
      assert lefts == shorter + [left];
    }
  }

  // ---------------------------------------------------------------------------
  // Sidebands
  // ---------------------------------------------------------------------------

  /** May this candidate be a sideband of a carrier of the given slope? */
  predicate Qualifies(signal: seq<real>, candidates: seq<nat>, rising: bool, i: nat) {
    i in candidates && 3 < i < |signal| - 4 && (signal[i + 1] - signal[i - 1] > 0.0) != rising
  }

  method OppositeSlopeCrossings(signal: seq<real>, candidates: seq<nat>, rising: bool) returns (opposite: seq<nat>)
    ensures Ascending(opposite)
    ensures forall i: nat :: i in opposite <==> Qualifies(signal, candidates, rising, i)
    ensures forall i: nat :: i in opposite <==>
              && i in candidates && 4 <= i < |signal| - 4
              && (if rising then signal[i + 1] <= signal[i - 1] else signal[i + 1] > signal[i - 1])
  {
    var kept: set<nat> := {};
    for k := 0 to |candidates|
      invariant forall i: nat :: i in kept <==> Qualifies(signal, candidates[..k], rising, i)
    {
      if Qualifies(signal, candidates, rising, candidates[k]) {
        kept := kept + {candidates[k]};
      }
    }
    assert candidates[..|candidates|] == candidates;
    opposite := [];
    for i := 0 to |signal|
      invariant Ascending(opposite) && forall k :: 0 <= k < |opposite| ==> opposite[k] < i
      invariant forall j: nat :: j in opposite <==> j < i && j in kept
    {
      if i in kept {
        opposite := opposite + [i];
      }
    }
  }

  /** The plain outward scans. */
  function NearestAtOrBelow(wanted: set<nat>, from: int): Option<nat>
    decreases from
  {
    if from < 0 then None else if from in wanted then Some(from) else NearestAtOrBelow(wanted, from - 1)
  }

  function NearestAtOrAbove(wanted: set<nat>, from: nat, end: nat): Option<nat>
    decreases end - from
  {
    if from >= end then None else if from in wanted then Some(from) else NearestAtOrAbove(wanted, from + 1, end)
  }

  /** Spacing of the nearest qualifying crossing on each side, `exclusion` or more away. */
  function NaiveSidebands(wanted: set<nat>, n: nat, crossing: nat, exclusion: nat): Option<real> {
    match (NearestAtOrBelow(wanted, crossing - exclusion), NearestAtOrAbove(wanted, crossing + exclusion, n))
    case (Some(l), Some(r)) => SymmetricSidebandOffset(Some((crossing - l) as real), Some((r - crossing) as real))
    case _ => None
  }

  lemma {:induction false} NearestBelowIs(wanted: set<nat>, from: int, hit: Option<nat>)
    requires hit.Some? ==> hit.value in wanted && hit.value <= from
    requires forall i: nat :: i in wanted && i <= from ==> hit.Some? && i <= hit.value
    ensures NearestAtOrBelow(wanted, from) == hit
    decreases from
  {
    if from >= 0 && from !in wanted {
      NearestBelowIs(wanted, from - 1, hit);
    }
  }

  lemma {:induction false} NearestAboveIs(wanted: set<nat>, from: nat, end: nat, hit: Option<nat>)
    requires hit.Some? ==> hit.value in wanted && from <= hit.value < end
    requires forall i: nat :: i in wanted && from <= i < end ==> hit.Some? && hit.value <= i
    ensures NearestAtOrAbove(wanted, from, end) == hit
    decreases end - from
  {
    if from < end && from !in wanted {
      NearestAboveIs(wanted, from + 1, end, hit);
    }
  }

  /** `l` is the nearest wanted crossing at least `exclusion` before the crossing. */
  ghost predicate NearestBefore(wanted: set<nat>, crossing: nat, exclusion: nat, l: nat) {
    l in wanted && l + exclusion <= crossing && forall i: nat :: i in wanted && i + exclusion <= crossing ==> i <= l
  }

  ghost predicate NearestAfter(wanted: set<nat>, n: nat, crossing: nat, exclusion: nat, r: nat) {
    r in wanted && crossing + exclusion <= r < n && forall i: nat :: i in wanted && crossing + exclusion <= i < n ==> r <= i
  }

  /** The spacing is half the distance between the nearest crossings on either side, if both exist and are balanced. */
  lemma SidebandsFromCrossings(wanted: set<nat>, n: nat, crossing: nat, exclusion: nat)
    requires exclusion >= 1
    ensures var spacing := NaiveSidebands(wanted, n, crossing, exclusion);
            && (spacing.Some? ==> exists l: nat, r: nat :: NearestBefore(wanted, crossing, exclusion, l)
                                    && NearestAfter(wanted, n, crossing, exclusion, r) && 2.0 * spacing.value == (r - l) as real)
            && (forall l: nat, r: nat :: NearestBefore(wanted, crossing, exclusion, l) && NearestAfter(wanted, n, crossing, exclusion, r) ==>
                  (spacing.Some? <==> 0.65 * (crossing - l) as real <= (r - crossing) as real
                                      && 0.65 * (r - crossing) as real <= (crossing - l) as real))
  {
    var before, after := NearestAtOrBelow(wanted, crossing - exclusion), NearestAtOrAbove(wanted, crossing + exclusion, n);
    ScansFindNearest(wanted, crossing - exclusion, crossing + exclusion, n);
    if before.Some? && after.Some? {
      assert NearestBefore(wanted, crossing, exclusion, before.value) && NearestAfter(wanted, n, crossing, exclusion, after.value);
      SpacingIsBalanced(Some((crossing - before.value) as real), Some((after.value - crossing) as real));
    }
  }

  lemma {:induction false} ScansFindNearest(wanted: set<nat>, from: int, upFrom: nat, n: nat)
    ensures var hit := NearestAtOrBelow(wanted, from);
            && (hit.Some? ==> hit.value in wanted && hit.value <= from)
            && (forall i: nat :: i in wanted && i <= from ==> hit.Some? && i <= hit.value)
    ensures var hit := NearestAtOrAbove(wanted, upFrom, n);
            && (hit.Some? ==> hit.value in wanted && upFrom <= hit.value < n)
            && (forall i: nat :: i in wanted && upFrom <= i < n ==> hit.Some? && hit.value <= i)
    decreases (if from < 0 then 0 else from + 1) + (if upFrom < n then n - upFrom else 0)
  {
    if from >= 0 && from !in wanted {
      ScansFindNearest(wanted, from - 1, upFrom, n);
    } else if upFrom < n && upFrom !in wanted {
      ScansFindNearest(wanted, from, upFrom + 1, n);
    }
  }

  function Members(s: seq<nat>): set<nat> {
    set i | i in s
  }

  method TwoSidedSidebands(opposite: seq<nat>, n: nat, crossing: nat, exclusion: nat) returns (spacing: Option<real>)
    requires Ascending(opposite) && forall k :: 0 <= k < |opposite| ==> opposite[k] < n
    ensures spacing == NaiveSidebands(Members(opposite), n, crossing, exclusion)
  {
    hide SymmetricSidebandOffset;
    var afterLeft := SearchSorted(opposite, crossing - exclusion + 1);
    var rightPos := SearchSorted(opposite, crossing + exclusion);
    NearestBelowIs(Members(opposite), crossing - exclusion,
                   if afterLeft == 0 then None else Some(opposite[afterLeft - 1]));
    NearestAboveIs(Members(opposite), crossing + exclusion, n,
                   if rightPos >= |opposite| then None else Some(opposite[rightPos]));
    if afterLeft == 0 || rightPos >= |opposite| {
      return None;
    }
    spacing := SymmetricSidebandOffset(Some((crossing - opposite[afterLeft - 1]) as real),
                                       Some((opposite[rightPos] - crossing) as real));
  }
}
