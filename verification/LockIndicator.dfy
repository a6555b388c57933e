/**
 * The lock indicator (linien-gateway/app/lock_indicator.py): "locked", "marginal" or "lost"
 * with hysteresis. The evaluator keeps running durations; the reference below reads the state
 * off the whole history of frames instead.
 */
module LockIndicator {
  import opened Common

  datatype Config = Config(
    enabled: bool, badHold: real, goodHold: real,
    useControl: bool, stuckDeltaCounts: int, stuckTime: real, railThreshold: real, railHold: real,
    useError: bool, errorMeanAbsMax: real, errorStdMin: real, errorStdMax: real,
    useMonitor: bool, monitorAbove: bool, monitorThreshold: real)

  /** A field is absent iff its source signal was absent from the frame. */
  datatype Stats = Stats(
    errorMeanAbs: Option<real>, errorStd: Option<real>, controlMean: Option<real>, controlRange: Option<real>,
    monitorMean: Option<real>)

  datatype State = Unknown | Locked | Marginal | Lost

  datatype Reason =
    | Disabled | NotLocked | MissingError | ControlStuck | ControlNearRail | MissingControl | ErrorMeanOutOfRange
    | ErrorStdTooLow | ErrorStdTooHigh | MissingMonitor | MonitorBelowThreshold | MonitorAboveThreshold

  /** What the evaluator was given: a frame, with the clamped time since the one before, or a new configuration. */
  datatype Entry = Frame(config: Config, lock: bool, stats: Stats, dt: real) | Reconfigured(config: Config)

  // ---------------------------------------------------------------------------
  // Reference: the state as a function of the history
  // ---------------------------------------------------------------------------

  function Last(h: seq<Entry>): Entry
    requires h != []
  {
    h[|h| - 1]
  }

  function Before(h: seq<Entry>): seq<Entry>
    requires h != []
  {
    h[..|h| - 1]
  }

  predicate Judged(e: Entry) {
    e.Frame? && e.config.enabled && e.lock
  }

  predicate Stuck(c: Config, s: Stats) {
    && c.useControl && s.controlMean.Some?
    && (if s.controlRange.Some? then s.controlRange.value else 0.0) <= c.stuckDeltaCounts as real
  }

  predicate Railed(c: Config, s: Stats) {
    c.useControl && s.controlMean.Some? && Abs(s.controlMean.value) >= c.railThreshold
  }

  /** Time covered by the unbroken run of stuck frames at the end. */
  function StuckRun(h: seq<Entry>): real {
    if h == [] || !Judged(Last(h)) || !Stuck(Last(h).config, Last(h).stats) then 0.0 else StuckRun(Before(h)) + Last(h).dt
  }

  function RailRun(h: seq<Entry>): real {
    if h == [] || !Judged(Last(h)) || !Railed(Last(h).config, Last(h).stats) then 0.0 else RailRun(Before(h)) + Last(h).dt
  }

  function When(c: bool, r: Reason): seq<Reason> {
    if c then [r] else []
  }

  function ControlReasons(c: Config, s: Stats, stuck: real, rail: real): seq<Reason> {
    if !c.useControl then []
    else if s.controlMean.None? then [MissingControl]
    else When(stuck >= c.stuckTime, ControlStuck) + When(rail >= c.railHold, ControlNearRail)
  }

  function ErrorReasons(c: Config, s: Stats): seq<Reason> {
    if !c.useError || s.errorStd.None? then []
    else
      When(s.errorMeanAbs.Some? && s.errorMeanAbs.value > c.errorMeanAbsMax, ErrorMeanOutOfRange) +
      When(c.errorStdMin > 0.0 && s.errorStd.value < c.errorStdMin, ErrorStdTooLow) +
      When(c.errorStdMax > 0.0 && s.errorStd.value > c.errorStdMax, ErrorStdTooHigh)
  }

  function MonitorReasons(c: Config, s: Stats): seq<Reason> {
    if !c.useMonitor then []
    else if s.monitorMean.None? then [MissingMonitor]
    else if c.monitorAbove then When(s.monitorMean.value < c.monitorThreshold, MonitorBelowThreshold)
    else When(s.monitorMean.value > c.monitorThreshold, MonitorAboveThreshold)
  }

  function BadReasons(c: Config, s: Stats, stuck: real, rail: real): seq<Reason> {
    When(c.useError && s.errorStd.None?, MissingError) + ControlReasons(c, s, stuck, rail) + ErrorReasons(c, s) + MonitorReasons(c, s)
  }

  /** The control signal has been stuck too long. */
  predicate HardFailure(h: seq<Entry>)
    requires h != [] && Judged(Last(h))
  {
    var e := Last(h);
    e.config.useControl && e.stats.controlMean.Some? && StuckRun(h) >= e.config.stuckTime
  }

  predicate Bad(h: seq<Entry>)
    requires h != [] && Judged(Last(h))
  {
    BadReasons(Last(h).config, Last(h).stats, StuckRun(h), RailRun(h)) != []
  }

  /** Time covered by the unbroken run of good frames at the end. */
  function GoodRun(h: seq<Entry>): real {
    if h == [] || !Judged(Last(h)) || Bad(h) then 0.0 else GoodRun(Before(h)) + Last(h).dt
  }

  function GoodFrames(h: seq<Entry>): nat {
    if h == [] || !Judged(Last(h)) || Bad(h) then 0 else GoodFrames(Before(h)) + 1
  }

  /** Time covered by the unbroken run of bad frames at the end. */
  function BadRun(h: seq<Entry>): real {
    if h == [] || !Judged(Last(h)) || !Bad(h) then 0.0 else BadRun(Before(h)) + Last(h).dt
  }

  /** Does that run contain a hard failure? */
  predicate BadRunIsHard(h: seq<Entry>) {
    h != [] && Judged(Last(h)) && Bad(h) && (HardFailure(h) || BadRunIsHard(Before(h)))
  }

  function Reference(h: seq<Entry>): State {
    if h == [] then Unknown
    else if Last(h).Reconfigured? then Reference(Before(h))
    else if !Judged(Last(h)) then Unknown
    else if Bad(h) then if BadRunIsHard(h) || BadRun(h) >= Last(h).config.badHold then Lost else Marginal
    else if Reference(Before(h)) in {Lost, Marginal} && GoodRun(h) < Last(h).config.goodHold then Marginal
    else Locked
  }

  function ReasonsFor(h: seq<Entry>): seq<Reason> {
    if h == [] then []
    else if Last(h).Reconfigured? then ReasonsFor(Before(h))
    else if !Last(h).config.enabled then [Disabled]
    else if !Last(h).lock then [NotLocked]
    else BadReasons(Last(h).config, Last(h).stats, StuckRun(h), RailRun(h))
  }

  /** Seconds credited to a frame, whatever the clock does. */
  function TimeDelta(last: Option<real>, now: real): (dt: real)
    ensures 0.02 <= dt <= 2.0 && (last.None? ==> dt == 0.1)
    ensures last.Some? ==> var gap := now - last.value;
              (0.02 <= gap <= 2.0 ==> dt == gap) && (gap < 0.02 ==> dt == 0.02) && (gap > 2.0 ==> dt == 2.0)
  {
    if last.None? then 0.1 else Min(2.0, Max(0.02, now - last.value))
  }

  // ---------------------------------------------------------------------------
  // The evaluator
  // ---------------------------------------------------------------------------

  class LockIndicatorEvaluator {
    var config: Config
    var state: State
    var reasons: seq<Reason>
    var lastUpdateAt: Option<real>
    var badDuration: real
    var goodDuration: real
    var stuckDuration: real
    var railDuration: real
    ghost var history: seq<Entry>

    /** The running durations say what the history says. */
    ghost predicate Valid()
      reads this
    {
      && ConfigCurrent(history, config)
      && stuckDuration == StuckRun(history) && railDuration == RailRun(history) && goodDuration == GoodRun(history)
      && (if BadRunIsHard(history) then badDuration >= config.badHold else badDuration == BadRun(history))
      && state == Reference(history) && reasons == ReasonsFor(history)
    }

    constructor (config: Config)
      ensures Valid() && this.config == config && history == []
    {
      this.config, state, reasons, lastUpdateAt := config, Unknown, [], None;
      badDuration, goodDuration, stuckDuration, railDuration := 0.0, 0.0, 0.0, 0.0;
      history := [];
    }

    method SetConfig(config: Config)
      requires Valid()
      modifies this
      ensures Valid() && this.config == config && history == old(history) + [Reconfigured(config)]
      ensures state == old(state)
    {
      this.config := config;
      badDuration, goodDuration, stuckDuration, railDuration := 0.0, 0.0, 0.0, 0.0;
      history := history + [Reconfigured(config)];
      assert Before(history) == old(history);
    }

    method TakeTimeDelta(now: real) returns (dt: real)
      modifies this`lastUpdateAt
      ensures dt == TimeDelta(old(lastUpdateAt), now) && lastUpdateAt == Some(now)
    {
      if lastUpdateAt.None? {
        lastUpdateAt := Some(now);
        return 0.1;
      }
      dt := now - lastUpdateAt.value;
      lastUpdateAt := Some(now);
      dt := Min(2.0, Max(0.02, dt));
    }

    method ResetDurations()
      modifies this`badDuration, this`goodDuration, this`stuckDuration, this`railDuration
      ensures badDuration == goodDuration == stuckDuration == railDuration == 0.0
    {
      badDuration, goodDuration, stuckDuration, railDuration := 0.0, 0.0, 0.0, 0.0;
    }

    /** Advances the stuck and rail durations. Without a control signal they start over; with it out of use they stand still. */
    method InspectControl(stats: Stats, dt: real) returns (bad: seq<Reason>, hardFail: bool)
      modifies this`stuckDuration, this`railDuration
      ensures !config.useControl && stats.controlMean.Some? ==> unchanged(this)
      ensures config.useControl || stats.controlMean.None? ==>
                && stuckDuration == (if Stuck(config, stats) then old(stuckDuration) + dt else 0.0)
                && railDuration == (if Railed(config, stats) then old(railDuration) + dt else 0.0)
      ensures bad == ControlReasons(config, stats, stuckDuration, railDuration)
      ensures hardFail <==> config.useControl && stats.controlMean.Some? && stuckDuration >= config.stuckTime
    {
      bad, hardFail := [], false;
      if stats.controlMean.Some? {
        if config.useControl {
          var range := if stats.controlRange.Some? then stats.controlRange.value else 0.0;
          stuckDuration := if range <= config.stuckDeltaCounts as real then stuckDuration + dt else 0.0;
          railDuration := if Abs(stats.controlMean.value) >= config.railThreshold then railDuration + dt else 0.0;
          if stuckDuration >= config.stuckTime {
            hardFail := true;
            bad := bad + [ControlStuck];
          }
          if railDuration >= config.railHold {
            bad := bad + [ControlNearRail];
          }
        }
      } else {
        if config.useControl {
          bad := bad + [MissingControl];
        }
        stuckDuration, railDuration := 0.0, 0.0;
      }
    }

    /** Everything that is wrong with the frame. */
    method Inspect(stats: Stats, dt: real) returns (bad: seq<Reason>, hardFail: bool)
      modifies this`stuckDuration, this`railDuration
      ensures !config.useControl && stats.controlMean.Some? ==> unchanged(this)
      ensures config.useControl || stats.controlMean.None? ==>
                && stuckDuration == (if Stuck(config, stats) then old(stuckDuration) + dt else 0.0)
                && railDuration == (if Railed(config, stats) then old(railDuration) + dt else 0.0)
      ensures bad == BadReasons(config, stats, stuckDuration, railDuration)
      ensures hardFail <==> config.useControl && stats.controlMean.Some? && stuckDuration >= config.stuckTime
    {
      hide ControlReasons, ErrorReasons, MonitorReasons, Stuck, Railed;
      var control;
      control, hardFail := InspectControl(stats, dt);
      var signals := InspectSignals(stats);
      bad := (if stats.errorStd.None? && config.useError then [MissingError] else []) + control + signals;
    }

    method InspectSignals(stats: Stats) returns (bad: seq<Reason>)
      ensures bad == ErrorReasons(config, stats) + MonitorReasons(config, stats)
    {
      bad := [];
      if config.useError && stats.errorStd.Some? {
        if stats.errorMeanAbs.Some? && stats.errorMeanAbs.value > config.errorMeanAbsMax {
          bad := bad + [ErrorMeanOutOfRange];
        }
        if config.errorStdMin > 0.0 && stats.errorStd.value < config.errorStdMin {
          bad := bad + [ErrorStdTooLow];
        }
        if config.errorStdMax > 0.0 && stats.errorStd.value > config.errorStdMax {
          bad := bad + [ErrorStdTooHigh];
        }
      }
      if config.useMonitor {
        if stats.monitorMean.None? {
          bad := bad + [MissingMonitor];
        } else if config.monitorAbove {
          if stats.monitorMean.value < config.monitorThreshold {
            bad := bad + [MonitorBelowThreshold];
          }
        } else if stats.monitorMean.value > config.monitorThreshold {
          bad := bad + [MonitorAboveThreshold];
        }
      }
    }

    /** One frame: the evaluator answers what the reference reads off the extended history. */
    method Update(lock: bool, stats: Stats, now: real) returns (answer: State)
      requires Valid()
      modifies this
      ensures Valid() && config == old(config) && answer == state == Reference(history)
      ensures history == old(history) + [Frame(config, lock, stats, TimeDelta(old(lastUpdateAt), now))]
    {
      hide BadReasons, Stuck, Railed, Reference, GoodRun, BadRun, BadRunIsHard, ReasonsFor, StuckRun, RailRun, TimeDelta, ConfigCurrent;
      var dt := TakeTimeDelta(now);
      ghost var h := history;
      history := history + [Frame(config, lock, stats, dt)];
      if !config.enabled || !lock {
        OffFrame(h, config, lock, stats, dt);
        ResetDurations();
        reasons := [if !config.enabled then Disabled else NotLocked];
        state := Unknown;
        return state;
      }
      var bad, hardFail := Inspect(stats, dt);
      RunsOneMore(h, config, stats, dt);
      JudgedFrame(h, config, stats, dt);
      if hardFail {
        HardIsBad(config, stats, stuckDuration, railDuration);
      }
      Settle(bad, hardFail, dt);
      return state;
    }

    /** Hysteresis: how the frame's findings move the durations and the state. */
    method Settle(bad: seq<Reason>, hardFail: bool, dt: real)
      requires hardFail ==> bad != []
      modifies this`reasons, this`badDuration, this`goodDuration, this`state
      ensures reasons == bad
      ensures badDuration == if hardFail then config.badHold else if bad != [] then old(badDuration) + dt else 0.0
      ensures goodDuration == if bad != [] then 0.0 else old(goodDuration) + dt
      ensures state == if bad != [] then if hardFail || badDuration >= config.badHold then Lost else Marginal
                       else if old(state) in {Lost, Marginal} && goodDuration < config.goodHold then Marginal else Locked
    {
      reasons := bad;
      if hardFail {
        badDuration, goodDuration, state := config.badHold, 0.0, Lost;
        return;
      }
      if bad != [] {
        badDuration := badDuration + dt;
        goodDuration := 0.0;
        state := if badDuration >= config.badHold then Lost else Marginal;
        return;
      }
      badDuration := 0.0;
      goodDuration := goodDuration + dt;
      if state in {Lost, Marginal} && goodDuration < config.goodHold {
        state := Marginal;
        return;
      }
      state, reasons := Locked, [];
    }
  }

  /** A disabled or unlocked frame ends every run. */
  lemma OffFrame(h: seq<Entry>, config: Config, lock: bool, stats: Stats, dt: real)
    requires ConfigCurrent(h, config) && (!config.enabled || !lock)
    ensures var g := h + [Frame(config, lock, stats, dt)];
            && ConfigCurrent(g, config) && Reference(g) == Unknown
            && StuckRun(g) == RailRun(g) == GoodRun(g) == BadRun(g) == 0.0 && !BadRunIsHard(g)
            && ReasonsFor(g) == [if !config.enabled then Disabled else NotLocked]
  {
    assert Before(h + [Frame(config, lock, stats, dt)]) == h;
  }

  /** What one judged frame does to the runs and to the state. */
  lemma JudgedFrame(h: seq<Entry>, config: Config, stats: Stats, dt: real)
    requires ConfigCurrent(h, config) && config.enabled
    ensures var g := h + [Frame(config, true, stats, dt)];
            var hard := config.useControl && stats.controlMean.Some? && StuckRun(g) >= config.stuckTime;
            var bad := BadReasons(config, stats, StuckRun(g), RailRun(g));
            && ConfigCurrent(g, config) && ReasonsFor(g) == bad
            && GoodRun(g) == (if bad == [] then GoodRun(h) + dt else 0.0)
            && BadRun(g) == (if bad == [] then 0.0 else BadRun(h) + dt)
            && BadRunIsHard(g) == (bad != [] && (hard || BadRunIsHard(h)))
            && Reference(g) == (if bad != [] then if BadRunIsHard(g) || BadRun(g) >= config.badHold then Lost else Marginal
                                else if Reference(h) in {Lost, Marginal} && GoodRun(g) < config.goodHold then Marginal else Locked)
  {
    hide BadReasons, StuckRun, RailRun;
    var g := h + [Frame(config, true, stats, dt)];
    assert Before(g) == h;
  }

  lemma HardIsBad(c: Config, s: Stats, stuck: real, rail: real)
    requires c.useControl && s.controlMean.Some? && stuck >= c.stuckTime
    ensures BadReasons(c, s, stuck, rail) != []
  {
    assert ControlReasons(c, s, stuck, rail)[0] == ControlStuck;
  }

  /** Every frame since the last reconfiguration was judged under the current configuration. */
  ghost predicate ConfigCurrent(h: seq<Entry>, config: Config)
    decreases |h|
  {
    h == [] || (Last(h).config == config && (Last(h).Reconfigured? || ConfigCurrent(Before(h), config)))
  }

  /** With the control signal out of use nothing is ever counted as stuck or railed. */
  lemma {:induction false} NoControlNoRuns(h: seq<Entry>, config: Config)
    requires ConfigCurrent(h, config) && !config.useControl
    ensures StuckRun(h) == 0.0 && RailRun(h) == 0.0
  {
  }

  lemma RunsOneMore(h: seq<Entry>, config: Config, stats: Stats, dt: real)
    requires ConfigCurrent(h, config) && config.enabled
    ensures var e := Frame(config, true, stats, dt);
            && StuckRun(h + [e]) == (if Stuck(config, stats) then StuckRun(h) + dt else 0.0)
            && RailRun(h + [e]) == (if Railed(config, stats) then RailRun(h) + dt else 0.0)
            && (!config.useControl ==> StuckRun(h) == RailRun(h) == StuckRun(h + [e]) == RailRun(h + [e]) == 0.0)
  {
    var e := Frame(config, true, stats, dt);
    assert Before(h + [e]) == h;
    if !config.useControl {
      NoControlNoRuns(h, config);
    }
  }

  // ---------------------------------------------------------------------------
  // Hysteresis over runs
  // ---------------------------------------------------------------------------

  /** The configuration in force after the last entry. */
  function Current(h: seq<Entry>): Config
    requires h != []
  {
    Last(h).config
  }

  predicate NoneOff(h: seq<Entry>, from: nat) {
    forall k :: from <= k < |h| ==> h[k].Reconfigured? || Judged(h[k])
  }

  /**
   * Recovery takes a good run. Once "marginal" or "lost", and with no unlocked or disabled frame since, the
   * indicator can only read "locked" if at some frame since then an unbroken run of good frames had lasted
   * good_hold, and that is the frame at which it turned.
   */
  lemma {:induction false} LockedOnlyAfterGoodRun(h: seq<Entry>, i: nat) returns (k: nat)
    requires i < |h| && NoneOff(h, i)
    requires Reference(h[..i]) in {Lost, Marginal} && Reference(h) == Locked
    ensures i < k <= |h| && Reference(h[..k]) == Locked && Reference(h[..k - 1]) in {Lost, Marginal}
    ensures h[k - 1].Frame? && GoodRun(h[..k]) >= h[k - 1].config.goodHold
    decreases |h|
  {
    hide Bad, BadRunIsHard, BadRun, GoodRun;
    var earlier := Before(h);
    assert forall m: nat :: m <= |earlier| ==> h[..m] == earlier[..m];
    assert h[..|h|] == h && earlier[..|earlier|] == earlier;
    if Reference(earlier) in {Lost, Marginal} {
      k := |h|;
      TurnsByGoodRun(h);
    } else {
      NotOffStays(h, i, |h| - 1);
      assert i < |earlier|;
      assert NoneOff(earlier, i) by {
        assert forall m :: i <= m < |earlier| ==> earlier[m] == h[m];
      }
      k := LockedOnlyAfterGoodRun(earlier, i);
      assert h[..k - 1] == earlier[..k - 1];
    }
  }

  lemma TurnsByGoodRun(h: seq<Entry>)
    requires h != [] && Reference(h) == Locked && Reference(Before(h)) in {Lost, Marginal}
    ensures Last(h).Frame? && GoodRun(h) >= Last(h).config.goodHold
  {
  }

  /** Without an unlocked or disabled frame the indicator never falls back to "unknown". */
  lemma {:induction false} NotOffStays(h: seq<Entry>, i: nat, j: nat)
    requires i <= j <= |h| && NoneOff(h, i) && Reference(h[..i]) != Unknown
    ensures Reference(h[..j]) != Unknown
    decreases j
  {
    hide Bad, BadRunIsHard, BadRun, GoodRun;
    if i < j {
      NotOffStays(h, i, j - 1);
      assert Before(h[..j]) == h[..j - 1] && Last(h[..j]) == h[j - 1];
    }
  }

  /** The frames that make up a good run, and the time they can stand for. */
  lemma {:induction false} GoodRunIsUnbroken(h: seq<Entry>)
    requires forall k :: 0 <= k < |h| && h[k].Frame? ==> h[k].dt <= 2.0
    ensures GoodFrames(h) <= |h|
    ensures forall k: nat :: |h| - GoodFrames(h) <= k < |h| ==> Judged(h[k]) && !Bad(h[..k + 1])
    ensures GoodRun(h) <= 2.0 * GoodFrames(h) as real
    decreases |h|
  {
    hide BadReasons, StuckRun, RailRun, Bad;
    if h != [] && Judged(Last(h)) && !Bad(h) {
      var earlier := Before(h);
      GoodRunIsUnbroken(earlier);
      forall k: nat | |h| - GoodFrames(h) <= k < |h| ensures Judged(h[k]) && !Bad(h[..k + 1]) {
        if k + 1 == |h| {
          assert h[..k + 1] == h;
        } else {
          assert h[..k + 1] == earlier[..k + 1] && h[k] == earlier[k];
        }
      }
    }
  }

  /** A clock jump cannot fake recovery: turning "locked" takes at least good_hold / 2 consecutive good frames. */
  lemma RecoveryTakesFrames(h: seq<Entry>)
    requires h != [] && Reference(h) == Locked && Reference(Before(h)) in {Lost, Marginal}
    requires forall k :: 0 <= k < |h| && h[k].Frame? ==> h[k].dt <= 2.0
    ensures 2.0 * GoodFrames(h) as real >= Current(h).goodHold
  {
    hide BadRun, BadRunIsHard, Bad;
    TurnsByGoodRun(h);
    GoodRunIsUnbroken(h);
  }

  /** "lost" appears only at a frame that ends an unbroken bad run that has reached bad_hold or contains a hard failure. */
  lemma LostOnlyAfterBadRun(h: seq<Entry>)
    requires h != [] && Reference(h) == Lost && Reference(Before(h)) != Lost
    ensures Judged(Last(h)) && Bad(h)
    ensures HardFailure(h) || BadRun(h) >= Current(h).badHold
  {
    hide BadReasons, BadRun;
    if BadRunIsHard(Before(h)) {
      HardRunIsLost(Before(h));
    }
  }

  /** Every "lost" has an onset: a frame at which the indicator turned, with the bad run or the hard failure that turned it. */
  lemma {:induction false} LostHasOnset(h: seq<Entry>) returns (k: nat)
    requires Reference(h) == Lost
    ensures 1 <= k <= |h| && Reference(h[..k]) == Lost && Reference(h[..k - 1]) != Lost
    ensures Judged(h[k - 1]) && (HardFailure(h[..k]) || BadRun(h[..k]) >= h[k - 1].config.badHold)
    decreases |h|
  {
    hide Bad, BadRun, BadRunIsHard, HardFailure, Reference;
    if h == [] {
      EmptyIsUnknown();
    } else if Reference(Before(h)) == Lost {
      k := LostHasOnset(Before(h));
      assert Before(h)[..k] == h[..k] && Before(h)[..k - 1] == h[..k - 1];
    } else {
      LostOnlyAfterBadRun(h);
      k := |h|;
      assert h[..k] == h;
    }
  }

  lemma EmptyIsUnknown()
    ensures Reference([]) == Unknown
  {
  }

  /** Inside a bad run, nothing undoes a hard failure. */
  lemma HardRunIsLost(h: seq<Entry>)
    requires BadRunIsHard(h)
    ensures Reference(h) == Lost
  {
  }

  /** A hard failure needs the control signal to have looked stuck for the whole of control_stuck_time. */
  lemma {:induction false} StuckRunIsUnbroken(h: seq<Entry>) returns (from: nat)
    ensures from <= |h|
    ensures forall k :: from <= k < |h| ==> Judged(h[k]) && Stuck(h[k].config, h[k].stats)
    ensures StuckRun(h) == Elapsed(h, from)
    decreases |h|
  {
    hide Stuck;
    from := |h|;
    if h != [] && Judged(Last(h)) && Stuck(Last(h).config, Last(h).stats) {
      from := StuckRunIsUnbroken(Before(h));
    }
  }

  /** Time credited to the frames from position `from` on. */
  function Elapsed(h: seq<Entry>, from: nat): real
    requires from <= |h|
    decreases |h|
  {
    if from == |h| then 0.0
    else Elapsed(h[..|h| - 1], from) + (if h[|h| - 1].Frame? then h[|h| - 1].dt else 0.0)
  }

  // ---------------------------------------------------------------------------
  // Exactly when
  // ---------------------------------------------------------------------------

  /** The control signal moved by no more than the configured counts; no range at all counts as no movement. */
  predicate LooksStuck(h: seq<Entry>) {
    && h != [] && Judged(Last(h)) && Last(h).config.useControl && Last(h).stats.controlMean.Some?
    && (match Last(h).stats.controlRange
        case None => Last(h).config.stuckDeltaCounts >= 0
        case Some(range) => range <= Last(h).config.stuckDeltaCounts as real)
  }

  predicate LooksRailed(h: seq<Entry>) {
    && h != [] && Judged(Last(h)) && Last(h).config.useControl && Last(h).stats.controlMean.Some?
    && (Last(h).stats.controlMean.value >= Last(h).config.railThreshold ||
        Last(h).stats.controlMean.value <= -Last(h).config.railThreshold)
  }

  predicate JudgedBad(h: seq<Entry>) {
    h != [] && Judged(Last(h)) && Bad(h)
  }

  predicate JudgedGood(h: seq<Entry>) {
    h != [] && Judged(Last(h)) && !Bad(h)
  }

  /** Every frame after position `from` had this property when it came in. */
  ghost predicate Throughout(p: seq<Entry> -> bool, h: seq<Entry>, from: nat) {
    from <= |h| && forall k: nat :: from < k <= |h| ==> p(h[..k])
  }

  /** The frames have had this property without a break for at least this long. */
  ghost predicate LastedFor(p: seq<Entry> -> bool, h: seq<Entry>, time: real) {
    exists from: nat :: Throughout(p, h, from) && Elapsed(h, from) >= time
  }

  /** The evaluator never credits a negative time. */
  ghost predicate Forward(h: seq<Entry>) {
    forall k :: 0 <= k < |h| && h[k].Frame? ==> h[k].dt >= 0.0
  }

  ghost function RunTime(p: seq<Entry> -> bool, h: seq<Entry>): real {
    if h == [] || !p(h) then 0.0 else RunTime(p, Before(h)) + (if Last(h).Frame? then Last(h).dt else 0.0)
  }

  lemma {:induction false} RunTimeIsLongest(p: seq<Entry> -> bool, h: seq<Entry>) returns (from: nat)
    requires Forward(h)
    ensures Throughout(p, h, from) && RunTime(p, h) == Elapsed(h, from)
    ensures forall other: nat :: Throughout(p, h, other) ==> Elapsed(h, other) <= Elapsed(h, from)
    decreases |h|
  {
    from := |h|;
    if h != [] {
      assert h[..|h|] == h;
      if p(h) {
        from := RunTimeIsLongest(p, Before(h));
        assert forall k: nat :: k <= |Before(h)| ==> Before(h)[..k] == h[..k];
        forall other: nat | Throughout(p, h, other) ensures Elapsed(h, other) <= Elapsed(h, from) {
          if other < |h| {
            assert Throughout(p, Before(h), other);
          } else {
            ElapsedIsPositive(h, from);
          }
        }
      }
    }
  }

  lemma {:induction false} ElapsedIsPositive(h: seq<Entry>, from: nat)
    requires from <= |h| && Forward(h)
    ensures Elapsed(h, from) >= 0.0
    decreases |h|
  {
    if from < |h| {
      ElapsedIsPositive(h[..|h| - 1], from);
    }
  }

  lemma RunLasts(p: seq<Entry> -> bool, h: seq<Entry>, time: real)
    requires Forward(h)
    ensures RunTime(p, h) >= time <==> LastedFor(p, h, time)
  {
    var from := RunTimeIsLongest(p, h);
  }

  lemma {:induction false} RunsAreRunTimes(h: seq<Entry>)
    ensures StuckRun(h) == RunTime(LooksStuck, h) && RailRun(h) == RunTime(LooksRailed, h)
    ensures BadRun(h) == RunTime(JudgedBad, h) && GoodRun(h) == RunTime(JudgedGood, h)
    decreases |h|
  {
    hide Bad;
    if h != [] {
      RunsAreRunTimes(Before(h));
    }
  }

  /** A frame is a hard failure exactly when the control signal is in use and has looked stuck for control_stuck_time_s. */
  lemma HardExactlyWhen(h: seq<Entry>)
    requires h != [] && Judged(Last(h)) && Forward(h)
    ensures HardFailure(h) <==>
            && Last(h).config.useControl && Last(h).stats.controlMean.Some?
            && LastedFor(LooksStuck, h, Last(h).config.stuckTime)
  {
    hide StuckRun;
    RunsAreRunTimes(h);
    RunLasts(LooksStuck, h, Last(h).config.stuckTime);
  }

  /** What is wrong with a frame, condition by condition; each is named exactly when it holds. */
  predicate Wrong(h: seq<Entry>, stuckFor: bool, railedFor: bool, r: Reason)
    requires h != [] && Judged(Last(h))
  {
    var c, s := Last(h).config, Last(h).stats;
    match r
    case MissingError => c.useError && s.errorStd.None?
    case ErrorMeanOutOfRange => c.useError && s.errorStd.Some? && s.errorMeanAbs.Some? && s.errorMeanAbs.value > c.errorMeanAbsMax
    case ErrorStdTooLow => c.useError && s.errorStd.Some? && 0.0 < c.errorStdMin && s.errorStd.value < c.errorStdMin
    case ErrorStdTooHigh => c.useError && s.errorStd.Some? && 0.0 < c.errorStdMax < s.errorStd.value
    case MissingControl => c.useControl && s.controlMean.None?
    case ControlStuck => c.useControl && s.controlMean.Some? && stuckFor
    case ControlNearRail => c.useControl && s.controlMean.Some? && railedFor
    case MissingMonitor => c.useMonitor && s.monitorMean.None?
    case MonitorBelowThreshold => c.useMonitor && c.monitorAbove && s.monitorMean.Some? && s.monitorMean.value < c.monitorThreshold
    case MonitorAboveThreshold => c.useMonitor && !c.monitorAbove && s.monitorMean.Some? && s.monitorMean.value > c.monitorThreshold
    case Disabled => false
    case NotLocked => false
  }

  lemma WhenHolds(c: bool, r: Reason, other: Reason)
    ensures other in When(c, r) <==> c && other == r
  {
  }

  lemma SignalReasonsAre(c: Config, s: Stats, r: Reason)
    ensures r in ErrorReasons(c, s) <==>
            && c.useError && s.errorStd.Some?
            && (|| (r == ErrorMeanOutOfRange && s.errorMeanAbs.Some? && s.errorMeanAbs.value > c.errorMeanAbsMax)
                || (r == ErrorStdTooLow && 0.0 < c.errorStdMin && s.errorStd.value < c.errorStdMin)
                || (r == ErrorStdTooHigh && 0.0 < c.errorStdMax < s.errorStd.value))
    ensures r in MonitorReasons(c, s) <==>
            && c.useMonitor
            && (|| (r == MissingMonitor && s.monitorMean.None?)
                || (r == MonitorBelowThreshold && c.monitorAbove && s.monitorMean.Some? && s.monitorMean.value < c.monitorThreshold)
                || (r == MonitorAboveThreshold && !c.monitorAbove && s.monitorMean.Some? && s.monitorMean.value > c.monitorThreshold))
  {
  }

  lemma ControlReasonsAre(c: Config, s: Stats, stuck: real, rail: real, r: Reason)
    ensures r in ControlReasons(c, s, stuck, rail) <==>
            && c.useControl
            && (|| (r == MissingControl && s.controlMean.None?)
                || (r == ControlStuck && s.controlMean.Some? && stuck >= c.stuckTime)
                || (r == ControlNearRail && s.controlMean.Some? && rail >= c.railHold))
  {
  }

  lemma ReasonsExactly(h: seq<Entry>, r: Reason)
    requires h != [] && Judged(Last(h)) && Forward(h)
    ensures r in ReasonsFor(h) <==>
            Wrong(h, LastedFor(LooksStuck, h, Last(h).config.stuckTime), LastedFor(LooksRailed, h, Last(h).config.railHold), r)
  {
    hide StuckRun, RailRun, LastedFor, ControlReasons, ErrorReasons, MonitorReasons, When;
    var c, s := Last(h).config, Last(h).stats;
    RunsAreRunTimes(h);
    RunLasts(LooksStuck, h, c.stuckTime);
    RunLasts(LooksRailed, h, c.railHold);
    WhenHolds(c.useError && s.errorStd.None?, MissingError, r);
    ControlReasonsAre(c, s, StuckRun(h), RailRun(h), r);
    SignalReasonsAre(c, s, r);
  }

  /** A judged frame is bad exactly when something is wrong with it. */
  lemma BadExactlyWhen(h: seq<Entry>)
    requires h != [] && Judged(Last(h)) && Forward(h)
    ensures Bad(h) <==> exists r ::
              Wrong(h, LastedFor(LooksStuck, h, Last(h).config.stuckTime), LastedFor(LooksRailed, h, Last(h).config.railHold), r)
  {
    hide StuckRun, RailRun, LastedFor, Wrong, BadReasons;
    forall r
      ensures r in ReasonsFor(h) <==>
              Wrong(h, LastedFor(LooksStuck, h, Last(h).config.stuckTime), LastedFor(LooksRailed, h, Last(h).config.railHold), r)
    {
      ReasonsExactly(h, r);
    }
    if Bad(h) {
      assert ReasonsFor(h)[0] in ReasonsFor(h);
    }
  }

  /** The bad run a history ends with holds a hard failure. */
  ghost predicate HardInRun(h: seq<Entry>) {
    exists k: nat :: 0 < k <= |h| && Throughout(JudgedBad, h, k - 1) && Judged(h[k - 1]) && HardFailure(h[..k])
  }

  lemma {:induction false} HardRunIsHard(h: seq<Entry>)
    ensures BadRunIsHard(h) <==> HardInRun(h)
    decreases |h|
  {
    hide HardFailure, Bad, BadReasons;
    if h != [] {
      HardRunIsHard(Before(h));
      assert h[..|h|] == h;
      assert forall k: nat :: k <= |Before(h)| ==> Before(h)[..k] == h[..k];
      if BadRunIsHard(h) {
        if HardFailure(h) {
          assert Throughout(JudgedBad, h, |h| - 1);
        } else {
          var k: nat :|
            0 < k <= |h| - 1 && Throughout(JudgedBad, Before(h), k - 1) && Judged(Before(h)[k - 1]) && HardFailure(Before(h)[..k]);
          assert Throughout(JudgedBad, h, k - 1) && HardFailure(h[..k]);
        }
      }
      if HardInRun(h) {
        var k: nat :| 0 < k <= |h| && Throughout(JudgedBad, h, k - 1) && Judged(h[k - 1]) && HardFailure(h[..k]);
        assert JudgedBad(h[..|h|]);
        if k < |h| {
          assert Throughout(JudgedBad, Before(h), k - 1) && HardFailure(Before(h)[..k]);
        }
      }
    }
  }

  /**
   * The state of a judged frame, from the frames alone: "lost" exactly when the frame is bad and the bad frames
   * it ends have gone on for bad_hold_s or hold a hard failure; "locked" exactly when it is good and either
   * nothing was wrong before it or the good frames it ends have gone on for good_hold_s; else "marginal".
   */
  lemma StateExactly(h: seq<Entry>)
    requires h != [] && Judged(Last(h)) && Forward(h)
    ensures Reference(h) == Lost <==> Bad(h) && (LastedFor(JudgedBad, h, Last(h).config.badHold) || HardInRun(h))
    ensures Reference(h) == Locked <==>
            && !Bad(h)
            && (Reference(Before(h)) in {Unknown, Locked} || LastedFor(JudgedGood, h, Last(h).config.goodHold))
    ensures Reference(h) in {Lost, Locked, Marginal}
  {
    hide Bad, BadRun, GoodRun, BadRunIsHard, LastedFor, HardInRun, JudgedBad, JudgedGood;
    RunsAreRunTimes(h);
    RunLasts(JudgedBad, h, Last(h).config.badHold);
    RunLasts(JudgedGood, h, Last(h).config.goodHold);
    HardRunIsHard(h);
    var prior := Reference(Before(h));
    assert prior.Unknown? || prior.Locked? || prior.Marginal? || prior.Lost?;
  }

  /** Frames that are not judged read "unknown"; a reconfiguration leaves the reading alone. */
  lemma UnjudgedExactly(h: seq<Entry>)
    requires h != [] && !Judged(Last(h))
    ensures Reference(h) == if Last(h).Frame? then Unknown else Reference(Before(h))
    ensures Last(h).Frame? ==> ReasonsFor(h) == [if !Last(h).config.enabled then Disabled else NotLocked]
  {
  }
}
