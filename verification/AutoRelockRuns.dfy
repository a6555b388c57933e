/**
 * Properties of whole runs of the auto-relock controller: from a fresh controller,
 * over any sequence of ticks, reported results and reconfigurations.
 */
module AutoRelockRuns {
  import opened Common
  import opened AutoRelock

  // ---------------------------------------------------------------------------
  // Runs
  // ---------------------------------------------------------------------------

  ghost function Front(h: seq<Input>): seq<Input>
    requires h != []
  {
    h[..|h| - 1]
  }

  ghost function Last(h: seq<Input>): Input
    requires h != []
  {
    h[|h| - 1]
  }

  ghost function After(c: Config, h: seq<Input>): State
    decreases |h|
  {
    if h == [] then Initial(c) else Step(After(c, Front(h)), Last(h)).state
  }

  /** What the last input of a run did. */
  ghost function LastStep(c: Config, h: seq<Input>): Outcome
    requires h != []
  {
    Step(After(c, Front(h)), Last(h))
  }

  ghost function Emitted(c: Config, h: seq<Input>): seq<Event>
    decreases |h|
  {
    if h == [] then [] else Emitted(c, Front(h)) + LastStep(c, h).events
  }

  predicate Timed(i: Input) {
    !i.Configure?
  }

  /** The latest time seen, starting from t0. */
  ghost function Clock(t0: real, h: seq<Input>): real
    decreases |h|
  {
    if h == [] then t0 else if Timed(Last(h)) then Last(h).now else Clock(t0, Front(h))
  }

  ghost predicate Chronological(t0: real, h: seq<Input>)
    decreases |h|
  {
    h == [] || (Chronological(t0, Front(h)) && (Timed(Last(h)) ==> Clock(t0, Front(h)) <= Last(h).now))
  }

  /** The poll thread reports a sweep before it ticks again. */
  ghost predicate SweepsReported(c: Config, h: seq<Input>)
    decreases |h|
  {
    h == [] ||
    (SweepsReported(c, Front(h)) && (Last(h).Tick? ==> After(c, Front(h)).pending != Some(Sweep)))
  }

  ghost function LastStamp(h: seq<Input>): Option<real>
    decreases |h|
  {
    if h == [] then None else if Last(h).Tick? then Last(h).traceAt else LastStamp(Front(h))
  }

  predicate NotBefore(a: Option<real>, b: Option<real>) {
    a.Some? ==> b.Some? && a.value <= b.value
  }

  /** The stamp of the last unlocked trace is never withdrawn and never moves back. */
  ghost predicate StampsAdvance(h: seq<Input>)
    decreases |h|
  {
    h == [] || (StampsAdvance(Front(h)) && (Last(h).Tick? ==> NotBefore(LastStamp(Front(h)), Last(h).traceAt)))
  }

  // ---------------------------------------------------------------------------
  // Rate bound
  // ---------------------------------------------------------------------------

  function AttemptTimes(events: seq<Event>): seq<real> {
    if events == [] then []
    else AttemptTimes(events[..|events| - 1]) +
         (if events[|events| - 1].Attempt? then [events[|events| - 1].at] else [])
  }

  lemma {:induction false} AttemptTimesConcat(a: seq<Event>, b: seq<Event>)
    requires |b| <= 1
    ensures AttemptTimes(a + b) == AttemptTimes(a) + AttemptTimes(b)
  {
    if b == [] {
      assert a + b == a;
    } else {
      assert (a + b)[..|a + b| - 1] == a;
      assert b[..0] == [];
    }
  }

  ghost predicate FixedConfig(h: seq<Input>) {
    forall i :: 0 <= i < |h| ==> !h[i].Configure?
  }

  /** Any run of max_attempts + 1 attempts spans at least one cooldown. */
  ghost predicate Spaced(times: seq<real>, budget: int, cooldown: real) {
    budget >= 0 && forall i :: 0 <= i && i + budget < |times| ==> times[i + budget] - times[i] >= cooldown
  }

  /** Attempts outside the current budget are at least a cooldown before anything that can still happen. */
  ghost predicate Budgeted(s: State, times: seq<real>, clock: real) {
    && 0 <= s.attempts <= s.config.maxAttempts && s.attempts <= |times|
    && CooldownMarked(s) && (!s.config.enabled ==> times == [])
    && Spaced(times, s.config.maxAttempts, s.config.cooldown)
    && (forall i :: 0 <= i < |times| ==> times[i] <= clock)
    && (forall i :: 0 <= i < |times| - s.attempts ==>
          times[i] + s.config.cooldown <= if s.cooldownUntil.Some? then s.cooldownUntil.value else clock)
  }

  predicate CooldownMarked(s: State) {
    (s.phase == Cooldown <==> s.cooldownUntil.Some?) && (s.phase == Cooldown ==> s.pending.None?)
  }

  /** What one timed step can do to the attempt budget: spend it, leave it, or refill it by entering a cooldown. */
  predicate BudgetStep(s: State, now: real, o: Outcome) {
    var over := s.cooldownUntil.None? || s.cooldownUntil.value <= now;
    && |o.events| <= 1 && o.state.config == s.config && CooldownMarked(o.state)
    && (if o.events != [] && o.events[0].Attempt? then
          && o.events == [Attempt(now)] && s.config.enabled && over && o.state.cooldownUntil.None?
          && o.state.attempts == s.attempts + 1 <= s.config.maxAttempts
        else
          || (!s.config.enabled && (o.state.attempts == 0 || o.state.attempts == s.attempts))
          || (o.state.attempts == s.attempts && o.state.cooldownUntil == s.cooldownUntil)
          || (o.state.attempts == s.attempts && o.state.cooldownUntil.None? && over)
          || (o.state.attempts == 0 && o.state.cooldownUntil == Some(now + s.config.cooldown))
          || (o.state.attempts == 0 && o.state.cooldownUntil.None? && s.config.cooldown == 0.0))
  }

  lemma StepOnBudget(s: State, input: Input)
    requires Timed(input) && Sane(s.config) && CooldownMarked(s) && 0 <= s.attempts <= s.config.maxAttempts
    ensures BudgetStep(s, input.now, Step(s, input))
  {
    if input.Tick? && s.config.enabled {
      hide BudgetStep, TickWaiting, TickVerifying, TickWatching;
      var s1 := if s.phase == Cooldown then s.(cooldownUntil := None, phase := Idle) else s;
      WaitingOnBudget(s1, input.traceAt, input.now);
      VerifyingOnBudget(s1, input.lock && !input.lost, input.now);
      WatchingOnBudget(s1, input.lock && input.lost, input.now);
      TickFromCooldown(s, s1, input);
    }
  }

  lemma TickFromCooldown(s: State, s1: State, input: Input)
    requires input.Tick? && Sane(s.config) && CooldownMarked(s)
    requires s1 == if s.phase == Cooldown then s.(cooldownUntil := None, phase := Idle) else s
    requires BudgetStep(s1, input.now, TickWaiting(s1, input.traceAt, input.now))
    requires BudgetStep(s1, input.now, TickVerifying(s1, input.lock && !input.lost, input.now))
    requires BudgetStep(s1, input.now, TickWatching(s1, input.lock && input.lost, input.now))
    ensures BudgetStep(s, input.now, Step(s, input))
  {
    hide TickWaiting, TickVerifying, TickWatching;
  }

  lemma WaitingOnBudget(s: State, traceAt: Option<real>, now: real)
    requires Sane(s.config) && CooldownMarked(s) && s.cooldownUntil.None? && 0 <= s.attempts <= s.config.maxAttempts
    ensures BudgetStep(s, now, TickWaiting(s, traceAt, now))
  {
  }

  lemma VerifyingOnBudget(s: State, healthy: bool, now: real)
    requires Sane(s.config) && CooldownMarked(s) && s.cooldownUntil.None? && 0 <= s.attempts <= s.config.maxAttempts
    ensures BudgetStep(s, now, TickVerifying(s, healthy, now))
  {
  }

  lemma WatchingOnBudget(s: State, lostNow: bool, now: real)
    requires Sane(s.config) && CooldownMarked(s) && s.cooldownUntil.None? && 0 <= s.attempts <= s.config.maxAttempts
    requires s.config.enabled
    ensures BudgetStep(s, now, TickWatching(s, lostNow, now))
  {
  }

  lemma AttemptKeepsBudget(s: State, s1: State, times: seq<real>, clock: real, now: real)
    requires Sane(s.config) && s.config.enabled && Budgeted(s, times, clock) && clock <= now
    requires s.cooldownUntil.None? || s.cooldownUntil.value <= now
    requires s1.config == s.config && CooldownMarked(s1) && s1.cooldownUntil.None?
    requires s1.attempts == s.attempts + 1 <= s.config.maxAttempts
    ensures Budgeted(s1, times + [now], now)
  {
    var all, budget := times + [now], s.config.maxAttempts;
    forall i | 0 <= i && i + budget < |all| ensures all[i + budget] - all[i] >= s.config.cooldown {
      if i + budget == |times| {
        assert times[i] + s.config.cooldown <= now;
      } else {
        assert times[i + budget] - times[i] >= s.config.cooldown;
      }
    }
  }

  lemma RestKeepsBudget(s: State, o: Outcome, times: seq<real>, clock: real, now: real)
    requires Sane(s.config) && Budgeted(s, times, clock) && clock <= now
    requires BudgetStep(s, now, o) && (o.events == [] || !o.events[0].Attempt?)
    ensures Budgeted(o.state, times, now)
  {
    hide Spaced;
  }

  lemma StepKeepsBudget(s: State, input: Input, times: seq<real>, clock: real)
    requires Sane(s.config) && Budgeted(s, times, clock)
    requires Timed(input) && clock <= input.now
    ensures var o := Step(s, input);
            && |o.events| <= 1 && o.state.config == s.config
            && Budgeted(o.state, times + AttemptTimes(o.events), input.now)
  {
    hide Step;
    StepOnBudget(s, input);
    var o := Step(s, input);
    if o.events != [] && o.events[0].Attempt? {
      assert AttemptTimes(o.events) == [input.now] by { assert o.events[..0] == []; }
      AttemptKeepsBudget(s, o.state, times, clock, input.now);
    } else {
      assert AttemptTimes(o.events) == [] by { assert o.events == [] || o.events[..0] == []; }
      assert times + AttemptTimes(o.events) == times;
      RestKeepsBudget(s, o, times, clock, input.now);
    }
  }

  lemma {:induction false} RunKeepsBudget(c: Config, t0: real, h: seq<Input>)
    requires Sane(c) && FixedConfig(h) && Chronological(t0, h)
    ensures After(c, h).config == c
    ensures Budgeted(After(c, h), AttemptTimes(Emitted(c, h)), Clock(t0, h))
    decreases |h|
  {
    if h != [] {
      RunKeepsBudget(c, t0, Front(h));
      StepKeepsBudget(After(c, Front(h)), Last(h), AttemptTimes(Emitted(c, Front(h))), Clock(t0, Front(h)));
      AttemptTimesConcat(Emitted(c, Front(h)), LastStep(c, h).events);
    }
  }

  /**
   * Rate bound: under one configuration, whatever the trace, the indicator and the reported
   * results do, any max_attempts + 1 successive attempts take at least cooldown_s - so a
   * half-open window of that length never holds more than max_attempts of them.
   */
  lemma AttemptRateIsBounded(c: Config, t0: real, h: seq<Input>, i: nat)
    requires Sane(c) && FixedConfig(h) && Chronological(t0, h)
    requires i + c.maxAttempts < |AttemptTimes(Emitted(c, h))|
    ensures var times := AttemptTimes(Emitted(c, h));
            times[i + c.maxAttempts] - times[i] >= c.cooldown
  {
    RunKeepsBudget(c, t0, h);
  }

  // ---------------------------------------------------------------------------
  // Conservation of attempts
  // ---------------------------------------------------------------------------

  predicate Open(s: State) {
    s.pending.Some? || s.phase == WaitingUnlockedTrace || s.phase == Verifying
  }

  datatype Ledger = Ledger(attempts: nat, successes: nat, failures: nat, cancellations: nat)

  function Booked(l: Ledger, e: Event): Ledger {
    match e
    case Attempt(_) => l.(attempts := l.attempts + 1)
    case Success(_) => l.(successes := l.successes + 1)
    case Failure(reason, _) => if reason == MaxAttemptsReached then l else l.(failures := l.failures + 1)
  }

  /** A disabling configuration cancels the attempt that is open when it arrives. */
  predicate Cancels(s: State, input: Input) {
    input.Configure? && !input.config.enabled && Open(s)
  }

  ghost function Books(c: Config, h: seq<Input>): Ledger
    decreases |h|
  {
    if h == [] then Ledger(0, 0, 0, 0)
    else
      var before, s, o := Books(c, Front(h)), After(c, Front(h)), LastStep(c, h);
      var l := if o.events == [] then before else Booked(before, o.events[0]);
      if Cancels(s, Last(h)) then l.(cancellations := l.cancellations + 1) else l
  }

  /** What every reachable state looks like when sweeps are reported in turn and stamps advance. */
  ghost predicate Coherent(s: State, stamp: Option<real>) {
    && (s.phase == Cooldown <==> s.cooldownUntil.Some?)
    && (s.pending.Some? ==>
          if s.pending.value.Sweep? then s.phase == Idle || s.phase == LostPending
          else s.phase == WaitingUnlockedTrace && FreshTrace(s, stamp))
    && (s.phase == WaitingUnlockedTrace ==> s.waitSince.Some?)
    && (s.phase == Verifying ==> s.verifySince.Some?)
    && (s.retryPrimed ==> s.phase == LostPending && s.lostSince.Some? && s.pending.None?)
    && (s.phase == Cooldown || !s.config.enabled ==> s.pending.None? && s.lostSince.None?)
    && (!s.config.enabled ==> s.phase == Idle)
  }

  lemma TickStaysCoherent(s: State, input: Input, stamp: Option<real>)
    requires input.Tick? && Coherent(s, stamp) && s.pending != Some(Sweep) && NotBefore(stamp, input.traceAt)
    ensures Coherent(Step(s, input).state, input.traceAt) && |Step(s, input).events| <= 1
  {
  }

  lemma ReportStaysCoherent(s: State, input: Input, stamp: Option<real>)
    requires !input.Tick? && Coherent(s, stamp)
    ensures Coherent(Step(s, input).state, stamp) && |Step(s, input).events| <= 1
  {
  }

  lemma StepStaysCoherent(s: State, input: Input, stamp: Option<real>)
    requires Coherent(s, stamp)
    requires input.Tick? ==> s.pending != Some(Sweep) && NotBefore(stamp, input.traceAt)
    ensures Coherent(Step(s, input).state, if input.Tick? then input.traceAt else stamp)
    ensures |Step(s, input).events| <= 1
  {
    hide Step, Coherent;
    if input.Tick? {
      TickStaysCoherent(s, input, stamp);
    } else {
      ReportStaysCoherent(s, input, stamp);
    }
  }

  /** One step's books balance: an attempt opens one account, a success, failure or cancellation closes one. */
  lemma StepBalances(s: State, input: Input, stamp: Option<real>)
    requires Coherent(s, stamp)
    requires input.Tick? ==> s.pending != Some(Sweep) && NotBefore(stamp, input.traceAt)
    ensures var o := Step(s, input);
            var opens := |o.events| == 1 && o.events[0].Attempt?;
            var closes := Cancels(s, input) || (|o.events| == 1 && (o.events[0].Success? ||
                            (o.events[0].Failure? && o.events[0].reason != MaxAttemptsReached)));
            && |o.events| <= 1 && !(opens && closes) && (Cancels(s, input) ==> o.events == [])
            && (Open(o.state) <==> (if opens then true else if closes then false else Open(s)))
            && (opens ==> !Open(s)) && (closes ==> Open(s))
  {
  }

  lemma {:induction false} RunStaysCoherent(c: Config, h: seq<Input>)
    requires SweepsReported(c, h) && StampsAdvance(h)
    ensures Coherent(After(c, h), LastStamp(h))
    decreases |h|
  {
    if h != [] {
      RunStaysCoherent(c, Front(h));
      StepStaysCoherent(After(c, Front(h)), Last(h), LastStamp(Front(h)));
    }
  }

  /**
   * Conservation: whatever reconfigurations happen, every attempt is accounted for exactly
   * once - by a success, a failure, a cancellation, or by being the one still open.
   */
  lemma {:induction false} AttemptsAreConserved(c: Config, h: seq<Input>)
    requires SweepsReported(c, h) && StampsAdvance(h)
    ensures var l := Books(c, h);
            l.attempts == l.successes + l.failures + l.cancellations + (if Open(After(c, h)) then 1 else 0)
    decreases |h|
  {
    if h != [] {
      AttemptsAreConserved(c, Front(h));
      RunStaysCoherent(c, Front(h));
      StepBalances(After(c, Front(h)), Last(h), LastStamp(Front(h)));
    }
  }

  // ---------------------------------------------------------------------------
  // Timing
  // ---------------------------------------------------------------------------

  function Extended(run: Option<real>, good: bool, input: Input): Option<real> {
    if !input.Tick? then run
    else if !good then None
    else if run.Some? then run else Some(input.now)
  }

  /** Start of the unbroken run of ticks satisfying `good` that a history ends with. */
  ghost function RunStart(good: Input -> bool, h: seq<Input>): Option<real>
    decreases |h|
  {
    if h == [] then None else Extended(RunStart(good, Front(h)), good(Last(h)), Last(h))
  }

  predicate LostTick(i: Input) {
    i.Tick? && i.lock && i.lost
  }

  predicate HealthyTick(i: Input) {
    i.Tick? && i.lock && !i.lost
  }

  predicate ReachesBackTo(run: Option<real>, t: real) {
    run.Some? && run.value <= t
  }

  /** The unbroken run a history ends with reaches back to `t` or earlier. */
  ghost predicate UnbrokenSince(good: Input -> bool, h: seq<Input>, t: real) {
    ReachesBackTo(RunStart(good, h), t)
  }

  /** The memory the controller keeps is backed by the runs of ticks it has seen. */
  predicate Backed(s: State, lostRun: Option<real>, healthyRun: Option<real>, clock: real) {
    && (s.lostSince.Some? && !s.retryPrimed && s.pending.None? && (s.phase == Idle || s.phase == LostPending) ==>
          ReachesBackTo(lostRun, s.lostSince.value))
    && (s.phase == Verifying && s.verifyGoodSince.Some? && s.verifySince.Some? ==>
          ReachesBackTo(healthyRun, s.verifyGoodSince.value) && s.verifySince.value <= s.verifyGoodSince.value)
    && (s.verifySince.Some? ==> s.verifySince.value <= clock)
  }

  lemma TickStaysBacked(s: State, input: Input, stamp: Option<real>, lostRun: Option<real>, healthyRun: Option<real>, clock: real)
    requires input.Tick?
    requires Coherent(s, stamp) && Backed(s, lostRun, healthyRun, clock)
    requires lostRun.Some? ==> lostRun.value <= clock
    requires healthyRun.Some? ==> healthyRun.value <= clock
    requires input.Tick? ==> s.pending != Some(Sweep) && NotBefore(stamp, input.traceAt)
    requires Timed(input) ==> clock <= input.now
    ensures Backed(Step(s, input).state, Extended(lostRun, LostTick(input), input),
                   Extended(healthyRun, HealthyTick(input), input), if Timed(input) then input.now else clock)
  {
  }

  lemma ReportStaysBacked(s: State, input: Input, stamp: Option<real>, lostRun: Option<real>, healthyRun: Option<real>, clock: real)
    requires !input.Tick?
    requires Coherent(s, stamp) && Backed(s, lostRun, healthyRun, clock)
    requires lostRun.Some? ==> lostRun.value <= clock
    requires healthyRun.Some? ==> healthyRun.value <= clock
    requires Timed(input) ==> clock <= input.now
    ensures Backed(Step(s, input).state, Extended(lostRun, LostTick(input), input),
                   Extended(healthyRun, HealthyTick(input), input), if Timed(input) then input.now else clock)
  {
  }

  lemma StepStaysBacked(s: State, input: Input, stamp: Option<real>, lostRun: Option<real>, healthyRun: Option<real>, clock: real)
    requires Coherent(s, stamp) && Backed(s, lostRun, healthyRun, clock)
    requires lostRun.Some? ==> lostRun.value <= clock
    requires healthyRun.Some? ==> healthyRun.value <= clock
    requires input.Tick? ==> s.pending != Some(Sweep) && NotBefore(stamp, input.traceAt)
    requires Timed(input) ==> clock <= input.now
    ensures Backed(Step(s, input).state, Extended(lostRun, LostTick(input), input),
                   Extended(healthyRun, HealthyTick(input), input), if Timed(input) then input.now else clock)
  {
    hide Step, Backed, Coherent;
    if input.Tick? {
      TickStaysBacked(s, input, stamp, lostRun, healthyRun, clock);
    } else {
      ReportStaysBacked(s, input, stamp, lostRun, healthyRun, clock);
    }
  }

  lemma RunStartIsPast(good: Input -> bool, t0: real, h: seq<Input>)
    requires Chronological(t0, h)
    ensures RunStart(good, h).Some? ==> RunStart(good, h).value <= Clock(t0, h)
    decreases |h|
  {
    if h != [] { RunStartIsPast(good, t0, Front(h)); }
  }

  lemma {:induction false} RunIsBacked(c: Config, t0: real, h: seq<Input>)
    requires SweepsReported(c, h) && StampsAdvance(h) && Chronological(t0, h)
    ensures Backed(After(c, h), RunStart(LostTick, h), RunStart(HealthyTick, h), Clock(t0, h))
    decreases |h|
  {
    hide Step;
    if h != [] {
      RunIsBacked(c, t0, Front(h));
      RunStaysCoherent(c, Front(h));
      RunStartIsPast(LostTick, t0, Front(h));
      RunStartIsPast(HealthyTick, t0, Front(h));
      StepStaysBacked(After(c, Front(h)), Last(h), LastStamp(Front(h)), RunStart(LostTick, Front(h)),
                      RunStart(HealthyTick, Front(h)), Clock(t0, Front(h)));
    }
  }

  /**
   * Trigger soundness: an attempt that no failure primed starts only at the end of an unbroken
   * run of locked-but-lost ticks that has lasted trigger_hold_s.
   */
  lemma UnprimedAttemptNeedsLostRun(c: Config, t0: real, h: seq<Input>)
    requires h != [] && SweepsReported(c, h) && StampsAdvance(h) && Chronological(t0, h)
    requires LastStep(c, h).action == Some(Sweep) && !After(c, Front(h)).retryPrimed
    ensures var hold := After(c, Front(h)).config.triggerHold;
            UnbrokenSince(LostTick, h, Last(h).now - hold)
  {
    RunIsBacked(c, t0, Front(h));
    RunStaysCoherent(c, Front(h));
  }

  /**
   * Success soundness: success is declared only at the end of an unbroken healthy run of at
   * least verify_hold_s, counted from a tick that follows the relock's completion.
   */
  lemma SuccessNeedsHealthyRun(c: Config, t0: real, h: seq<Input>)
    requires h != [] && SweepsReported(c, h) && StampsAdvance(h) && Chronological(t0, h)
    requires Last(h).Tick? && LastStep(c, h).events == [Success(Last(h).now)]
    ensures var s := After(c, Front(h));
            && s.phase == Verifying && s.verifySince.Some?
            && exists since :: UnbrokenSince(HealthyTick, h, since) && s.verifySince.value <= since
                 && Last(h).now - since >= s.config.verifyHold
  {
    var s, now := After(c, Front(h)), Last(h).now;
    RunIsBacked(c, t0, Front(h));
    RunStaysCoherent(c, Front(h));
    RunStartIsPast(HealthyTick, t0, Front(h));
    var since := if s.verifyGoodSince.Some? then s.verifyGoodSince.value else now;
    assert UnbrokenSince(HealthyTick, h, since);
  }

  /** A failure with budget left primes a retry that fires on the very next tick, whatever lock, indicator and trace say. */
  lemma RetryFiresAtOnce(c: Config, h: seq<Input>, lock: bool, lost: bool, traceAt: Option<real>, now: real)
    requires h != [] && SweepsReported(c, h) && StampsAdvance(h)
    requires LastStep(c, h).events != [] && LastStep(c, h).events[0].Failure?
    requires After(c, Front(h)).attempts < After(c, h).config.maxAttempts
    requires Timed(Last(h)) && now >= Last(h).now
    ensures OnTick(After(c, h), lock, lost, traceAt, now).action == Some(Sweep)
  {
    RunStaysCoherent(c, Front(h));
    RunStaysCoherent(c, h);
  }

  /** When the controller last heard that this action had succeeded. */
  ghost function HeardAt(c: Config, action: Action, h: seq<Input>): Option<real>
    decreases |h|
  {
    if h == [] then None
    else if Last(h).Complete? && Last(h).action == action && Last(h).ok && After(c, Front(h)).pending == Some(action)
    then Some(Last(h).now)
    else HeardAt(c, action, Front(h))
  }

  /** The waiting and the verifying timer start at the report that led into the phase. */
  lemma {:induction false} TimersStartAtReports(c: Config, h: seq<Input>)
    requires SweepsReported(c, h) && StampsAdvance(h)
    ensures var s := After(c, h);
            && (s.phase == WaitingUnlockedTrace ==> s.waitSince.Some? && s.waitSince == HeardAt(c, Sweep, h))
            && (s.phase == Verifying ==> s.verifySince.Some? && s.verifySince == HeardAt(c, Relock, h))
    decreases |h|
  {
    hide Step;
    if h != [] {
      TimersStartAtReports(c, Front(h));
      RunStaysCoherent(c, Front(h));
      StepKeepsTimers(After(c, Front(h)), Last(h), LastStamp(Front(h)));
    }
  }

  lemma StepKeepsTimers(s: State, input: Input, stamp: Option<real>)
    requires Coherent(s, stamp)
    requires input.Tick? ==> s.pending != Some(Sweep) && NotBefore(stamp, input.traceAt)
    ensures var s1 := Step(s, input).state;
            var heard := input.Complete? && s.pending == Some(input.action) && input.ok;
            && (s1.phase == WaitingUnlockedTrace ==>
                  if heard && input.action == Sweep then s1.waitSince == Some(input.now)
                  else !(heard && input.action == Relock) && s.phase == s1.phase && s1.waitSince == s.waitSince)
            && (s1.phase == Verifying ==>
                  if heard && input.action == Relock then s1.verifySince == Some(input.now)
                  else !(heard && input.action == Sweep) && s.phase == s1.phase && s1.verifySince == s.verifySince)
  {
  }

  /** While a trace is awaited, a tick gives up exactly when no sweep newer than the report has come in for trace_timeout. */
  lemma TimeoutExactlyWhen(c: Config, h: seq<Input>)
    requires h != [] && SweepsReported(c, h) && StampsAdvance(h)
    requires Last(h).Tick? && After(c, Front(h)).phase == WaitingUnlockedTrace
    ensures var now, traceAt, since := Last(h).now, Last(h).traceAt, HeardAt(c, Sweep, Front(h));
            && since.Some?
            && (LastStep(c, h).events == [Failure(UnlockedTraceTimeout, now)] <==>
                  !(traceAt.Some? && traceAt.value >= since.value)
                  && now - since.value >= After(c, Front(h)).config.traceTimeout)
  {
    TimersStartAtReports(c, Front(h));
    RunStaysCoherent(c, Front(h));
  }

  /** While a relock is being verified, a tick fails it exactly when the lock is not healthy and the grace period is over. */
  lemma VerifyFailsExactlyWhen(c: Config, h: seq<Input>)
    requires h != [] && SweepsReported(c, h) && StampsAdvance(h)
    requires Last(h).Tick? && After(c, Front(h)).phase == Verifying
    ensures var now, since := Last(h).now, HeardAt(c, Relock, Front(h));
            && since.Some?
            && (LastStep(c, h).events == [Failure(VerifyFailed, now)] <==>
                  !HealthyTick(Last(h)) && now - since.value >= Max(1.0, After(c, Front(h)).config.verifyHold * 2.0))
  {
    TimersStartAtReports(c, Front(h));
    RunStaysCoherent(c, Front(h));
  }

  // ---------------------------------------------------------------------------
  // Exactly when
  // ---------------------------------------------------------------------------

  /** A tick that looks for a lost lock: enabled, not cooling down, not waiting or verifying, no retry primed. */
  predicate LooksForLoss(s: State, i: Input) {
    && i.Tick? && s.config.enabled && !s.retryPrimed && s.pending.None?
    && s.phase != WaitingUnlockedTrace && s.phase != Verifying
    && (s.cooldownUntil.None? || s.cooldownUntil.value <= i.now)
  }

  predicate LooksAndFindsLost(s: State, i: Input) {
    LooksForLoss(s, i) && LostTick(i)
  }

  predicate VerifiesAndFindsHealthy(s: State, i: Input) {
    s.config.enabled && s.phase == Verifying && HealthyTick(i)
  }

  /**
   * When the unbroken run of eventless ticks that count, each judged in the state it arrives in,
   * began. Any other tick and a disabling configuration break the run; a report does not.
   */
  ghost function QuietRun(counts: (State, Input) -> bool, c: Config, h: seq<Input>): Option<real>
    decreases |h|
  {
    if h == [] then None
    else
      var before, i := QuietRun(counts, c, Front(h)), Last(h);
      if i.Tick? then
        if counts(After(c, Front(h)), i) && LastStep(c, h).events == []
        then Some(if before.Some? then before.value else i.now) else None
      else if i.Configure? && !i.config.enabled then None
      else before
  }

  predicate Watches(s: State) {
    s.config.enabled && !s.retryPrimed && s.pending.None? && (s.phase == Idle || s.phase == LostPending)
  }

  /** The two memories of the controller are the two runs of the history, and no others are remembered. */
  predicate RunsKept(s: State, lostRun: Option<real>, healthyRun: Option<real>) {
    && lostRun == (if Watches(s) then s.lostSince else None)
    && healthyRun == (if s.config.enabled && s.phase == Verifying then s.verifyGoodSince else None)
  }

  function RunAfter(run: Option<real>, counted: bool, i: Input): Option<real> {
    if i.Tick? then if counted then Some(if run.Some? then run.value else i.now) else None
    else if i.Configure? && !i.config.enabled then None
    else run
  }

  lemma TickKeepsRuns(s: State, i: Input, stamp: Option<real>, lostRun: Option<real>, healthyRun: Option<real>)
    requires i.Tick? && Coherent(s, stamp) && s.pending != Some(Sweep) && NotBefore(stamp, i.traceAt)
    requires RunsKept(s, lostRun, healthyRun)
    ensures var o := Step(s, i);
            RunsKept(o.state, RunAfter(lostRun, LooksAndFindsLost(s, i) && o.events == [], i),
                     RunAfter(healthyRun, VerifiesAndFindsHealthy(s, i) && o.events == [], i))
  {
  }

  lemma ReportKeepsRuns(s: State, i: Input, stamp: Option<real>, lostRun: Option<real>, healthyRun: Option<real>)
    requires !i.Tick? && Coherent(s, stamp) && RunsKept(s, lostRun, healthyRun)
    ensures RunsKept(Step(s, i).state, RunAfter(lostRun, false, i), RunAfter(healthyRun, false, i))
  {
  }

  lemma {:induction false} RunsAreKept(c: Config, h: seq<Input>)
    requires SweepsReported(c, h) && StampsAdvance(h)
    ensures RunsKept(After(c, h), QuietRun(LooksAndFindsLost, c, h), QuietRun(VerifiesAndFindsHealthy, c, h))
    decreases |h|
  {
    if h == [] {
    } else {
      hide Step, RunsKept, Coherent;
      var s, i, stamp := After(c, Front(h)), Last(h), LastStamp(Front(h));
      var lostRun, healthyRun := QuietRun(LooksAndFindsLost, c, Front(h)), QuietRun(VerifiesAndFindsHealthy, c, Front(h));
      RunsAreKept(c, Front(h));
      RunStaysCoherent(c, Front(h));
      if i.Tick? {
        TickKeepsRuns(s, i, stamp, lostRun, healthyRun);
      } else {
        ReportKeepsRuns(s, i, stamp, lostRun, healthyRun);
      }
    }
  }

  /**
   * Trigger completeness: with nothing pending, no retry primed and budget left, a tick that looks
   * for a lost lock starts an attempt exactly when it finds the lock lost and the ticks that did so
   * before it, unbroken, began at least trigger_hold_s ago.
   */
  lemma AttemptStartsExactlyWhen(c: Config, h: seq<Input>)
    requires h != [] && SweepsReported(c, h) && StampsAdvance(h)
    requires LooksForLoss(After(c, Front(h)), Last(h))
    requires After(c, Front(h)).attempts < After(c, Front(h)).config.maxAttempts
    ensures var s, run, now := After(c, Front(h)), QuietRun(LooksAndFindsLost, c, Front(h)), Last(h).now;
            var starts := LostTick(Last(h)) && run.Some? && now - run.value >= s.config.triggerHold;
            && (LastStep(c, h).action == Some(Sweep) <==> starts)
            && LastStep(c, h).events == (if starts then [Attempt(now)] else [])
            && (!starts ==> LastStep(c, h).state.phase == if LostTick(Last(h)) then LostPending else Idle)
  {
    RunsAreKept(c, Front(h));
    RunStaysCoherent(c, Front(h));
  }

  /** The same tick with the budget spent ends in a cooldown instead, at the same moment. */
  lemma ExhaustedExactlyWhen(c: Config, h: seq<Input>)
    requires h != [] && SweepsReported(c, h) && StampsAdvance(h)
    requires LooksForLoss(After(c, Front(h)), Last(h))
    requires After(c, Front(h)).attempts >= After(c, Front(h)).config.maxAttempts
    ensures var s, run, now := After(c, Front(h)), QuietRun(LooksAndFindsLost, c, Front(h)), Last(h).now;
            && LastStep(c, h).action == None
            && (LastStep(c, h).events == [Failure(MaxAttemptsReached, now)] <==>
                  LostTick(Last(h)) && run.Some? && now - run.value >= s.config.triggerHold)
  {
    RunsAreKept(c, Front(h));
    RunStaysCoherent(c, Front(h));
  }

  /**
   * Success completeness: while a relock is being verified, a tick declares success exactly when it is
   * healthy and the unbroken healthy run it ends, counted from the relock's report, has lasted verify_hold_s.
   */
  lemma SuccessExactlyWhen(c: Config, h: seq<Input>)
    requires h != [] && SweepsReported(c, h) && StampsAdvance(h)
    requires Last(h).Tick? && After(c, Front(h)).config.enabled && After(c, Front(h)).phase == Verifying
    ensures var s, run, now := After(c, Front(h)), QuietRun(VerifiesAndFindsHealthy, c, Front(h)), Last(h).now;
            LastStep(c, h).events == [Success(now)] <==>
              HealthyTick(Last(h)) && now - (if run.Some? then run.value else now) >= s.config.verifyHold
  {
    RunsAreKept(c, Front(h));
    RunStaysCoherent(c, Front(h));
  }

  /** While a sweep is awaited, a tick asks for the relock exactly when a trace no older than the sweep's report is in. */
  lemma RelockAskedExactlyWhen(c: Config, h: seq<Input>)
    requires h != [] && SweepsReported(c, h) && StampsAdvance(h)
    requires Last(h).Tick? && After(c, Front(h)).phase == WaitingUnlockedTrace
    ensures var traceAt, since := Last(h).traceAt, HeardAt(c, Sweep, Front(h));
            && since.Some?
            && (LastStep(c, h).action == Some(Relock) <==> traceAt.Some? && traceAt.value >= since.value)
  {
    TimersStartAtReports(c, Front(h));
    RunStaysCoherent(c, Front(h));
  }

  /** A run that counts looks back over ticks that all qualify: it lies inside the plain run of such ticks. */
  lemma {:induction false} QuietRunIsRun(good: Input -> bool, counts: (State, Input) -> bool, c: Config, t0: real, h: seq<Input>)
    requires Chronological(t0, h) && forall s, i :: counts(s, i) ==> good(i)
    ensures QuietRun(counts, c, h).Some? ==> UnbrokenSince(good, h, QuietRun(counts, c, h).value)
    decreases |h|
  {
    if h != [] {
      QuietRunIsRun(good, counts, c, t0, Front(h));
      RunStartIsPast(good, t0, Front(h));
    }
  }

  /** A success and a failure that finds the budget spent open the cooldown, cooldown_s long, with the budget refilled. */
  lemma CooldownIsEntered(c: Config, h: seq<Input>)
    requires h != [] && SweepsReported(c, h) && StampsAdvance(h) && Timed(Last(h))
    requires LastStep(c, h).events != []
    requires var e := LastStep(c, h).events[0];
             e.Success? || (e.Failure? && After(c, Front(h)).attempts >= After(c, Front(h)).config.maxAttempts)
    ensures var s, o, now := After(c, Front(h)), LastStep(c, h).state, Last(h).now;
            && o.attempts == 0 && o.pending == None && !o.retryPrimed && o.lostSince == None
            && (if s.config.cooldown > 0.0 then o.phase == Cooldown && o.cooldownUntil == Some(now + s.config.cooldown)
                else o.phase == Idle && o.cooldownUntil == None)
  {
    RunStaysCoherent(c, Front(h));
  }

  /** Any other failure keeps the count of attempts and primes a retry, with nothing left of the attempt that failed. */
  lemma RetryIsPrimed(c: Config, h: seq<Input>)
    requires h != [] && SweepsReported(c, h) && StampsAdvance(h) && Timed(Last(h))
    requires LastStep(c, h).events != [] && LastStep(c, h).events[0].Failure?
    requires After(c, Front(h)).attempts < After(c, Front(h)).config.maxAttempts
    ensures var s, o := After(c, Front(h)), LastStep(c, h).state;
            && o.attempts == s.attempts && o.retryPrimed && o.phase == LostPending && o.pending == None
            && o.lostSince == Some(Last(h).now - s.config.triggerHold) && o.waitSince == o.verifySince == o.verifyGoodSince == None
  {
    RunStaysCoherent(c, Front(h));
  }

  /** Until the cooldown is over ticks change nothing; a tick while disabled ends in the idle state. */
  lemma CooldownIsSilent(c: Config, h: seq<Input>)
    requires h != [] && SweepsReported(c, h) && StampsAdvance(h) && Last(h).Tick?
    ensures var s, o := After(c, Front(h)), LastStep(c, h);
            && (s.config.enabled && s.cooldownUntil.Some? && Last(h).now < s.cooldownUntil.value ==> o == Outcome(s, [], None))
            && (!s.config.enabled ==> o == Outcome(Initial(s.config), [], None))
  {
    RunStaysCoherent(c, Front(h));
  }

  /** A report counts only for the action it was awaited for: success leads on, failure is recorded, anything else is dropped. */
  lemma ReportExactly(c: Config, h: seq<Input>)
    requires h != [] && Last(h).Complete?
    ensures var s, i, o := After(c, Front(h)), Last(h), LastStep(c, h);
            && o.action == None
            && (s.pending != Some(i.action) ==> o.state == s && o.events == [])
            && (s.pending == Some(i.action) ==>
                  && o.state.pending == None
                  && (i.ok && i.action == Sweep ==>
                        o.events == [] && o.state.phase == WaitingUnlockedTrace && o.state.waitSince == Some(i.now))
                  && (i.ok && i.action == Relock ==>
                        && o.events == [] && o.state.phase == Verifying
                        && o.state.verifySince == Some(i.now) && o.state.verifyGoodSince == None)
                  && (!i.ok ==>
                        o.events == [Failure(if i.action == Sweep then StartSweepFailed else StartRelockFailed, i.now)]))
  {
  }
}
