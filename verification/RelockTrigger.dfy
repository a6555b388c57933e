/**
 * Indicator and controller together: each plot frame is judged by the lock indicator and
 * then ticks the relock controller (_on_to_plot in linien-gateway/app/session.py).
 */
module RelockTrigger {
  import opened Common
  import opened AutoRelock
  import opened AutoRelockRuns
  import Indicator = LockIndicator

  /**
   * `seen[i]` is the indicator's history up to and including the frame behind input i. A tick is given
   * the frame's own lock flag and whether the indicator, having judged that frame, reads "lost".
   */
  ghost predicate DrivenBy(h: seq<Input>, seen: seq<seq<Indicator.Entry>>) {
    && |seen| == |h|
    && forall i :: 0 <= i < |h| && h[i].Tick? ==> TickFrom(h[i], seen[i])
  }

  predicate TickFrom(tick: Input, history: seq<Indicator.Entry>)
    requires tick.Tick?
  {
    && history != [] && Indicator.Last(history).Frame? && Indicator.Last(history).lock == tick.lock
    && (tick.lost <==> Indicator.Reference(history) == Indicator.Lost)
  }

  /** A frame the indicator judged, with something wrong. */
  predicate Troubled(history: seq<Indicator.Entry>) {
    history != [] && Indicator.Judged(Indicator.Last(history)) && Indicator.Bad(history)
  }

  /** An unbroken run that reaches back to `t` covers every later tick. */
  lemma {:induction false} RunCovers(good: Input -> bool, t0: real, h: seq<Input>, t: real)
    requires Chronological(t0, h) && UnbrokenSince(good, h, t)
    ensures forall i :: 0 <= i < |h| && h[i].Tick? && h[i].now > t ==> good(h[i])
    decreases |h|
  {
    if h != [] {
      var front := Front(h);
      if Last(h).Tick? && RunStart(good, front).None? {
        TicksAreNoLater(t0, front);
      } else {
        RunCovers(good, t0, front, t);
      }
      assert forall i :: 0 <= i < |front| ==> front[i] == h[i];
    }
  }

  lemma {:induction false} TicksAreNoLater(t0: real, h: seq<Input>)
    requires Chronological(t0, h)
    ensures forall i :: 0 <= i < |h| && h[i].Tick? ==> h[i].now <= Clock(t0, h)
    decreases |h|
  {
    if h != [] {
      TicksAreNoLater(t0, Front(h));
      assert forall i :: 0 <= i < |h| - 1 ==> h[i] == Front(h)[i];
    }
  }

  lemma LostFrameIsTroubled(tick: Input, history: seq<Indicator.Entry>)
    requires tick.Tick? && TickFrom(tick, history) && LostTick(tick)
    ensures Troubled(history)
  {
    hide Indicator.Bad, Indicator.BadRun, Indicator.BadRunIsHard;
  }

  /**
   * An attempt nothing primed answers a real outage: every frame of the last trigger_hold_s was locked with
   * something wrong, and the outage began at a frame with a bad run of bad_hold_s or a hard failure.
   */
  lemma UnprimedAttemptAnswersOutage(c: Config, t0: real, h: seq<Input>, seen: seq<seq<Indicator.Entry>>) returns (onset: nat)
    requires h != [] && SweepsReported(c, h) && StampsAdvance(h) && Chronological(t0, h) && DrivenBy(h, seen)
    requires LastStep(c, h).action == Some(Sweep) && !After(c, Front(h)).retryPrimed
    ensures Last(h).Tick?
    ensures var since := Last(h).now - After(c, Front(h)).config.triggerHold;
            forall i :: 0 <= i < |h| && h[i].Tick? && h[i].now > since ==> Troubled(seen[i])
    ensures var history := seen[|h| - 1];
            && 1 <= onset <= |history| && Indicator.Judged(history[onset - 1])
            && Indicator.Reference(history[..onset - 1]) != Indicator.Lost
            && (Indicator.HardFailure(history[..onset]) ||
                Indicator.BadRun(history[..onset]) >= history[onset - 1].config.badHold)
  {
    hide Indicator.Reference, Indicator.Bad, Indicator.BadRun, Indicator.HardFailure;
    OnlyTicksSweep(c, h);
    UnprimedAttemptNeedsLostRun(c, t0, h);
    var since := Last(h).now - After(c, Front(h)).config.triggerHold;
    RunCovers(LostTick, t0, h, since);
    forall i | 0 <= i < |h| && h[i].Tick? && h[i].now > since ensures Troubled(seen[i]) {
      LostFrameIsTroubled(h[i], seen[i]);
    }
    RunEndsGood(LostTick, h);
    onset := Indicator.LostHasOnset(seen[|h| - 1]);
  }

  lemma OnlyTicksSweep(c: Config, h: seq<Input>)
    requires h != [] && LastStep(c, h).action == Some(Sweep)
    ensures Last(h).Tick?
  {
  }

  lemma RunEndsGood(good: Input -> bool, h: seq<Input>)
    requires h != [] && Last(h).Tick? && RunStart(good, h).Some?
    ensures good(Last(h))
  {
  }
}
