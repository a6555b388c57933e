/**
 * Waiting for a sweep newer than a geometry write (_wait_for_fresh_unlocked_trace and the plot
 * path of _poll_loop in linien-gateway/app/session.py), and what the wait is worth.
 */
module FreshTrace {
  import opened Common

  /** Newer stamps a capture waits for. */
  const VERIFY_TRACE_FRAMES := 2

  /**
   * An unlocked sweep the poll thread handled: when the board put it into `to_plot`, when the gateway fetched it
   * and when it was stamped. `queued`: it came through the change queue; otherwise no plot had come for a second
   * and the poll loop read the current value of `to_plot`, whatever its age.
   */
  datatype Frame = Frame(queued: bool, published: real, fetched: real, processed: real)

  /** One look at the latest stamp: the frame it belongs to, if any, and the clock just after. */
  datatype Look = Look(frame: Option<nat>, now: real)

  /**
   * What one poll thread guarantees. It fetches a frame only after it has processed the one before, and `to_plot`
   * never goes back. A fetch empties the queue, so what a later fetch finds in it was published after.
   */
  ghost predicate Pipeline(frames: seq<Frame>) {
    && (forall k :: 0 <= k < |frames| ==> frames[k].published <= frames[k].fetched <= frames[k].processed)
    && (forall j, k :: 0 <= j < k < |frames| ==>
          frames[j].processed <= frames[k].fetched && frames[j].published <= frames[k].published)
    && (forall j, k :: 0 <= j < k < |frames| && frames[j].queued && frames[k].queued ==>
          frames[j].fetched <= frames[k].published)
  }

  predicate LooksAt(frames: seq<Frame>, looks: seq<Look>) {
    forall i :: 0 <= i < |looks| && looks[i].frame.Some? ==> looks[i].frame.value < |frames|
  }

  function Deadline(start: real, timeout: real, frames: int): real {
    start + Max(0.0, timeout) * MaxInt(1, frames) as real
  }

  /** One timeout for the first frame, another for each further one; a negative timeout allows no time. */
  lemma DeadlineAllows(start: real, timeout: real, frames: int)
    ensures var each := if timeout > 0.0 then timeout else 0.0;
            && (frames <= 1 ==> Deadline(start, timeout, frames) == start + each)
            && (frames >= 1 ==> Deadline(start, timeout, frames + 1) == Deadline(start, timeout, frames) + each)
  {
    var each := Max(0.0, timeout);
    if frames >= 1 {
      assert each * (frames + 1) as real == each * frames as real + each;
    }
  }

  predicate Stamped(frames: seq<Frame>, look: Look, threshold: real)
    requires look.frame.Some? ==> look.frame.value < |frames|
  {
    look.frame.Some? && frames[look.frame.value].processed > threshold
  }

  /** The looks taken before giving up: the first one at or past the deadline is the last. */
  function InTime(looks: seq<Look>, deadline: real): seq<Look> {
    if looks == [] then []
    else if looks[0].now >= deadline then [looks[0]]
    else [looks[0]] + InTime(looks[1..], deadline)
  }

  /** The frames at which the stamp is seen to advance over these looks, starting from the mark. */
  function Counted(frames: seq<Frame>, looks: seq<Look>, mark: real): (counted: seq<nat>)
    requires LooksAt(frames, looks)
    ensures forall k :: 0 <= k < |counted| ==> counted[k] < |frames|
    decreases |looks|
  {
    if looks == [] then []
    else if Stamped(frames, looks[0], mark) then
      [looks[0].frame.value] + Counted(frames, looks[1..], frames[looks[0].frame.value].processed)
    else Counted(frames, looks[1..], mark)
  }

  lemma {:induction false} InTimeLooks(frames: seq<Frame>, looks: seq<Look>, deadline: real)
    requires LooksAt(frames, looks)
    ensures LooksAt(frames, InTime(looks, deadline))
    ensures forall look :: look in InTime(looks, deadline) ==> look in looks
    decreases |looks|
  {
    if looks != [] {
      InTimeLooks(frames, looks[1..], deadline);
    }
  }

  lemma InTimeStep(looks: seq<Look>, i: nat, deadline: real)
    requires i < |looks|
    ensures InTime(looks[i..], deadline) ==
            if looks[i].now >= deadline then [looks[i]] else [looks[i]] + InTime(looks[i + 1..], deadline)
  {
    assert looks[i..][1..] == looks[i + 1..];
  }

  /** True exactly when the stamp advances `wantedFrames` times past the mark within the deadline. */
  method WaitForFreshTrace(frames: seq<Frame>, after: real, timeout: real, wantedFrames: int, start: real, looks: seq<Look>)
      returns (arrived: bool)
    requires LooksAt(frames, looks)
    requires looks != [] && looks[|looks| - 1].now >= Deadline(start, timeout, wantedFrames)
    ensures LooksAt(frames, InTime(looks, Deadline(start, timeout, wantedFrames)))
    ensures arrived <==>
              |Counted(frames, InTime(looks, Deadline(start, timeout, wantedFrames)), after)| >= MaxInt(1, wantedFrames)
  {
    var wanted := MaxInt(1, wantedFrames);
    var deadline := Deadline(start, timeout, wantedFrames);
    InTimeLooks(frames, looks, deadline);
    var threshold := after;
    var seen := 0;
    assert looks[0..] == looks;
    for i := 0 to |looks|
      invariant 0 <= seen < wanted
      invariant forall k :: 0 <= k < i ==> looks[k].now < deadline
      invariant LooksAt(frames, InTime(looks[i..], deadline))
      invariant |Counted(frames, InTime(looks, deadline), after)| ==
                seen + |Counted(frames, InTime(looks[i..], deadline), threshold)|
    {
      InTimeLooks(frames, looks[i + 1..], deadline);
      InTimeStep(looks, i, deadline);
      CountedStep(frames, looks[i], if looks[i].now >= deadline then [] else InTime(looks[i + 1..], deadline), threshold);
      if Stamped(frames, looks[i], threshold) {
        seen := seen + 1;
        threshold := frames[looks[i].frame.value].processed;
        if seen >= wanted { return true; }
      }
      if looks[i].now >= deadline { return false; }
    }
    assert false;
  }

  lemma CountedStep(frames: seq<Frame>, look: Look, rest: seq<Look>, mark: real)
    requires LooksAt(frames, [look] + rest) && LooksAt(frames, rest)
    ensures look.frame.Some? ==> look.frame.value < |frames|
    ensures Counted(frames, [look] + rest, mark) ==
            if Stamped(frames, look, mark)
            then [look.frame.value] + Counted(frames, rest, frames[look.frame.value].processed)
            else Counted(frames, rest, mark)
  {
    var all := [look] + rest;
    assert all[0] == look && all[1..] == rest;
  }

  // ---------------------------------------------------------------------------
  // What a wait is worth
  // ---------------------------------------------------------------------------

  predicate SeenIn(looks: seq<Look>, frame: nat) {
    exists i :: 0 <= i < |looks| && looks[i].frame == Some(frame)
  }

  /** A counted frame is stamped after the mark, and after the one counted before it. */
  lemma {:induction false} CountedAscend(frames: seq<Frame>, looks: seq<Look>, mark: real, k: nat)
    requires Pipeline(frames) && LooksAt(frames, looks) && k < |Counted(frames, looks, mark)|
    ensures frames[Counted(frames, looks, mark)[k]].processed > mark
    ensures k > 0 ==> Counted(frames, looks, mark)[k - 1] < Counted(frames, looks, mark)[k]
    decreases |looks|
  {
    if !Stamped(frames, looks[0], mark) {
      CountedAscend(frames, looks[1..], mark, k);
    } else if k > 0 {
      var first := looks[0].frame.value;
      CountedAscend(frames, looks[1..], frames[first].processed, k - 1);
      if k == 1 {
        StampOrder(frames, first, Counted(frames, looks, mark)[1]);
      }
    }
  }

  lemma {:induction false} CountedIsSeen(frames: seq<Frame>, looks: seq<Look>, mark: real, k: nat)
    requires LooksAt(frames, looks) && k < |Counted(frames, looks, mark)|
    ensures SeenIn(looks, Counted(frames, looks, mark)[k])
    decreases |looks|
  {
    var counts := Stamped(frames, looks[0], mark);
    if counts && k == 0 {
      assert looks[0].frame == Some(Counted(frames, looks, mark)[0]);
    } else if counts {
      CountedIsSeen(frames, looks[1..], frames[looks[0].frame.value].processed, k - 1);
      SeenInMore(looks, Counted(frames, looks, mark)[k]);
    } else {
      CountedIsSeen(frames, looks[1..], mark, k);
      SeenInMore(looks, Counted(frames, looks, mark)[k]);
    }
  }

  lemma SeenInMore(looks: seq<Look>, frame: nat)
    requires looks != [] && SeenIn(looks[1..], frame)
    ensures SeenIn(looks, frame)
  {
    var i :| 0 <= i < |looks[1..]| && looks[1..][i].frame == Some(frame);
    assert looks[i + 1].frame == Some(frame);
  }

  lemma StampOrder(frames: seq<Frame>, j: nat, k: nat)
    requires Pipeline(frames) && j < |frames| && k < |frames| && frames[k].processed > frames[j].processed
    ensures j < k
  {
  }

  /** Two advances: the second of them, and every later sweep, was fetched after the mark. */
  lemma SecondAdvanceIsFetchedLater(frames: seq<Frame>, looks: seq<Look>, mark: real, sweep: nat)
    requires Pipeline(frames) && LooksAt(frames, looks) && |Counted(frames, looks, mark)| >= 2
    requires Counted(frames, looks, mark)[1] <= sweep < |frames|
    ensures frames[sweep].fetched > mark
  {
    CountedAscend(frames, looks, mark, 0);
    CountedAscend(frames, looks, mark, 1);
    var first := Counted(frames, looks, mark)[0];
    assert frames[first].processed <= frames[sweep].fetched;
  }

  /** Up to this sweep, one that came through the queue follows another that was itself fetched after the mark. */
  ghost predicate Guarded(frames: seq<Frame>, sweep: nat, mark: real)
    requires sweep < |frames|
  {
    exists i, j :: 0 <= i < j <= sweep && frames[i].queued && frames[j].queued && frames[i].fetched > mark
  }

  /** The same run as far as the gateway can tell. */
  ghost predicate SameTimes(frames: seq<Frame>, other: seq<Frame>) {
    |other| == |frames| && forall k :: 0 <= k < |frames| ==> other[k] == frames[k].(published := other[k].published)
  }

  /** A run that could as well have happened: everything up to this sweep already published at the mark. */
  function Stalest(frames: seq<Frame>, sweep: nat, mark: real): seq<Frame> {
    seq(|frames|, k requires 0 <= k < |frames| =>
      if k <= sweep then frames[k].(published := Min(frames[k].published, mark)) else frames[k])
  }

  /**
   * The exact worth of what the gateway can see: a sweep is sure to have been published after the mark exactly
   * when it is guarded. Otherwise the same fetches and stamps are consistent with one that was not.
   */
  lemma SurelyNewerIffGuarded(frames: seq<Frame>, sweep: nat, mark: real)
    requires Pipeline(frames) && sweep < |frames|
    ensures Guarded(frames, sweep, mark) <==>
            forall other: seq<Frame> :: SameTimes(frames, other) && Pipeline(other) ==> other[sweep].published > mark
  {
    hide Pipeline, Guarded;
    if Guarded(frames, sweep, mark) {
      forall other: seq<Frame> | SameTimes(frames, other) && Pipeline(other) ensures other[sweep].published > mark {
        GuardedIsNewer(frames, other, sweep, mark);
      }
    } else {
      var other := Stalest(frames, sweep, mark);
      StalestIsPossible(frames, sweep, mark);
      assert SameTimes(frames, other) && Pipeline(other) && other[sweep].published <= mark;
    }
  }

  lemma GuardedIsNewer(frames: seq<Frame>, other: seq<Frame>, sweep: nat, mark: real)
    requires sweep < |frames| && Guarded(frames, sweep, mark) && SameTimes(frames, other) && Pipeline(other)
    ensures other[sweep].published > mark
  {
    var i, j :| 0 <= i < j <= sweep && frames[i].queued && frames[j].queued && frames[i].fetched > mark;
    assert other[i].queued && other[j].queued && other[i].fetched == frames[i].fetched;
    assert other[i].fetched <= other[j].published;
    assert j < sweep ==> other[j].published <= other[sweep].published;
  }

  lemma StalestIsPossible(frames: seq<Frame>, sweep: nat, mark: real)
    requires Pipeline(frames) && sweep < |frames| && !Guarded(frames, sweep, mark)
    ensures Pipeline(Stalest(frames, sweep, mark))
  {
    var other := Stalest(frames, sweep, mark);
    forall j, k | 0 <= j < k < |other| && other[j].queued && other[k].queued ensures other[j].fetched <= other[k].published {
      assert frames[j].fetched <= frames[k].published;
    }
  }

  /** While every sweep comes through the queue, the guard is that the one before was fetched after the mark. */
  lemma GuardOnTheQueue(frames: seq<Frame>, sweep: nat, mark: real)
    requires Pipeline(frames) && sweep < |frames| && forall k :: 0 <= k <= sweep ==> frames[k].queued
    ensures Guarded(frames, sweep, mark) <==> sweep >= 1 && frames[sweep - 1].fetched > mark
  {
    if Guarded(frames, sweep, mark) {
      var i, j :| 0 <= i < j <= sweep && frames[i].queued && frames[j].queued && frames[i].fetched > mark;
      assert i < sweep - 1 ==> frames[i].processed <= frames[sweep - 1].fetched;
    }
    if sweep >= 1 && frames[sweep - 1].fetched > mark {
      assert frames[sweep - 1].queued && frames[sweep].queued;
    }
  }

  /** Three advances whose last two came through the queue are enough. */
  lemma ThreeAdvancesSuffice(frames: seq<Frame>, looks: seq<Look>, mark: real, sweep: nat)
    requires Pipeline(frames) && LooksAt(frames, looks) && |Counted(frames, looks, mark)| >= 3
    requires frames[Counted(frames, looks, mark)[1]].queued && frames[Counted(frames, looks, mark)[2]].queued
    requires Counted(frames, looks, mark)[2] <= sweep < |frames|
    ensures Guarded(frames, sweep, mark) && frames[sweep].published > mark
  {
    CountedAscend(frames, looks, mark, 2);
    SecondAdvanceIsFetchedLater(frames, looks, mark, Counted(frames, looks, mark)[1]);
    SurelyNewerIffGuarded(frames, sweep, mark);
    assert SameTimes(frames, frames);
  }

  /** One is worth nothing: the sweep may have been fetched before the mark and stamped after it. */
  lemma OneFrameIsNotEnough()
    ensures exists frames: seq<Frame>, looks: seq<Look>, mark: real ::
              && Pipeline(frames) && LooksAt(frames, looks) && |frames| == 1 && frames[0].queued
              && Counted(frames, looks, mark) == [0] && frames[0].fetched < mark
  {
    var frames, looks := [Frame(true, 0.0, 0.0, 2.0)], [Look(Some(0), 2.0)];
    assert looks[1..] == [];
    assert Pipeline(frames) && LooksAt(frames, looks) && Counted(frames, looks, 1.0) == [0];
  }

  /** Two are not, even on the queue: a sweep published between the first fetch and the mark is fetched second. */
  lemma TwoAdvancesAreNotEnough()
    ensures exists frames: seq<Frame>, looks: seq<Look>, mark: real ::
              && Pipeline(frames) && LooksAt(frames, looks) && (forall f <- frames :: f.queued)
              && |frames| == 2 && Counted(frames, looks, mark) == [0, 1] && frames[1].published < mark
  {
    var frames, looks := [Frame(true, 0.0, 1.0, 5.0), Frame(true, 2.0, 6.0, 7.0)], [Look(Some(0), 5.0), Look(Some(1), 7.0)];
    assert looks[1..] == [Look(Some(1), 7.0)] && looks[1..][1..] == [];
    assert Pipeline(frames) && LooksAt(frames, looks) && Counted(frames, looks, 3.0) == [0, 1];
  }

  /** A board that has stopped: the same sweep read again and again, each time under a new stamp. */
  function Reread(n: nat): seq<Frame> {
    seq(n, k => Frame(false, 0.0, (k + 2) as real, (k + 2) as real))
  }

  function OneLookEach(n: nat): seq<Look> {
    seq(n, k requires 0 <= k => Look(Some(k), (k + 2) as real))
  }

  lemma {:induction false} EveryRereadCounts(n: nat, m: nat, mark: real)
    requires m <= n && mark < (m + 2) as real
    ensures LooksAt(Reread(n), OneLookEach(n)[m..])
    ensures |Counted(Reread(n), OneLookEach(n)[m..], mark)| == n - m
    decreases n - m
  {
    if m < n {
      var looks := OneLookEach(n)[m..];
      assert looks[0] == Look(Some(m), (m + 2) as real) && looks[1..] == OneLookEach(n)[m + 1..];
      EveryRereadCounts(n, m + 1, (m + 2) as real);
    }
  }

  /** No number of advances is enough when the value is re-read: all of them can show one sweep from before the mark. */
  lemma NoCountSufficesOnRereads(n: nat)
    ensures exists frames: seq<Frame>, looks: seq<Look>, mark: real ::
              && Pipeline(frames) && LooksAt(frames, looks) && |Counted(frames, looks, mark)| == n
              && forall f <- frames :: f.published < mark
  {
    EveryRereadCounts(n, 0, 1.0);
    assert OneLookEach(n)[0..] == OneLookEach(n);
    assert Pipeline(Reread(n)) && LooksAt(Reread(n), OneLookEach(n));
  }

  // ---------------------------------------------------------------------------
  // The plot path as a capture sees it
  // ---------------------------------------------------------------------------

  /**
   * The environment's choices, by step of the session: the clock, the looks a wait begun at that step would take,
   * and the sweep then in hand for a snapshot.
   */
  datatype Feed = Feed(frames: seq<Frame>, looks: nat -> seq<Look>, inHand: nat -> Option<nat>, timeout: real, clock: nat -> real)

  /** A wait sees nothing newer than what the snapshot after it takes, and goes on until its deadline. */
  ghost predicate Consistent(f: Feed) {
    && Pipeline(f.frames)
    && (forall k :: f.inHand(k).Some? ==> f.inHand(k).value < |f.frames|)
    && (forall k, look :: look in f.looks(k) && look.frame.Some? ==>
          f.inHand(k).Some? && look.frame.value <= f.inHand(k).value)
    && (forall k :: f.looks(k) != [] &&
          f.looks(k)[|f.looks(k)| - 1].now >= Deadline(f.clock(k), f.timeout, VERIFY_TRACE_FRAMES))
  }

  type PlotFeed = f: Feed | Consistent(f)
    ghost witness Feed([], (k: nat) => [Look(None, 0.0)], (k: nat) => None, 0.0, (k: nat) => 0.0)

  lemma LooksAtFrames(f: PlotFeed, k: nat)
    ensures LooksAt(f.frames, f.looks(k))
  {
    forall i | 0 <= i < |f.looks(k)| && f.looks(k)[i].frame.Some? ensures f.looks(k)[i].frame.value < |f.frames| {
      assert f.looks(k)[i] in f.looks(k);
    }
  }

  /** The wait a capture begun at step `k` makes comes to an end with a sweep. */
  ghost predicate Arrives(f: PlotFeed, k: nat, mark: real) {
    LooksAtFrames(f, k);
    var deadline := Deadline(f.clock(k), f.timeout, VERIFY_TRACE_FRAMES);
    InTimeLooks(f.frames, f.looks(k), deadline);
    |Counted(f.frames, InTime(f.looks(k), deadline), mark)| >= VERIFY_TRACE_FRAMES
  }

  /** What is known of a sweep judged after a wait: fetched after the mark and, if it is guarded, published after it. */
  ghost predicate FetchedAfter(f: PlotFeed, sweep: nat, mark: real) {
    && sweep < |f.frames| && f.frames[sweep].fetched > mark
    && (Guarded(f.frames, sweep, mark) ==> f.frames[sweep].published > mark)
  }

  /** The sweep in hand once the wait is over. */
  lemma ArrivedIsFetchedAfter(f: PlotFeed, k: nat, mark: real)
    requires Arrives(f, k, mark)
    ensures f.inHand(k).Some? && FetchedAfter(f, f.inHand(k).value, mark)
  {
    LooksAtFrames(f, k);
    var deadline := Deadline(f.clock(k), f.timeout, VERIFY_TRACE_FRAMES);
    InTimeLooks(f.frames, f.looks(k), deadline);
    var looks := InTime(f.looks(k), deadline);
    CountedIsSeen(f.frames, looks, mark, 1);
    var second := Counted(f.frames, looks, mark)[1];
    var i :| 0 <= i < |looks| && looks[i].frame == Some(second);
    assert looks[i] in f.looks(k);
    SecondAdvanceIsFetchedLater(f.frames, looks, mark, f.inHand(k).value);
    SurelyNewerIffGuarded(f.frames, f.inHand(k).value, mark);
    assert SameTimes(f.frames, f.frames);
  }

  /** On either path a capture can end with a sweep from before its mark. */
  lemma CaptureCanJudgeOlderSweep(queued: bool)
    ensures exists f: PlotFeed, k: nat, mark: real ::
              && f.clock(k) == mark && Arrives(f, k, mark) && f.inHand(k) == Some(1) && |f.frames| == 2
              && f.frames[1].queued == queued && f.frames[1].published < mark
  {
    var frames := [Frame(queued, 0.0, 1.0, 5.0), Frame(queued, 2.0, 6.0, 7.0)];
    var looks := [Look(Some(0), 5.0), Look(Some(1), 100.0)];
    var f: Feed := Feed(frames, (k: nat) => looks, (k: nat) => Some(1), 3.0, (k: nat) => 3.0);
    assert Consistent(f);
    assert looks[1..] == [Look(Some(1), 100.0)] && looks[1..][1..] == [];
    assert InTime(looks, Deadline(3.0, 3.0, VERIFY_TRACE_FRAMES)) == looks;
    assert Counted(frames, looks, 3.0) == [0, 1];
    var feed: PlotFeed := f;
    assert Arrives(feed, 0, 3.0);
  }
}
