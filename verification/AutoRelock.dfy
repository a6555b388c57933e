/**
 * The auto-relock state machine (linien-gateway/app/auto_relock.py): what one tick,
 * one reported result and one reconfiguration do, as functions of the state, and the
 * controller object that does it in place. Times are exact reals on one clock.
 */
module AutoRelock {
  import opened Common

  datatype Phase = Idle | LostPending | WaitingUnlockedTrace | Verifying | Cooldown

  datatype Action = Sweep | Relock

  datatype Config = Config(
    enabled: bool,
    triggerHold: real,
    verifyHold: real,
    cooldown: real,
    traceTimeout: real,
    maxAttempts: int)

  /** from_mapping: every limit is clamped to its floor. */
  function Clamped(c: Config): (r: Config)
    ensures Sane(r) && r.enabled == c.enabled
    ensures Sane(c) && c.triggerHold >= 0.05 && c.verifyHold >= 0.05 && c.traceTimeout >= 0.1 ==> r == c
    ensures RaisedTo(0.05, c.triggerHold, r.triggerHold) && RaisedTo(0.05, c.verifyHold, r.verifyHold)
    ensures RaisedTo(0.0, c.cooldown, r.cooldown) && RaisedTo(0.1, c.traceTimeout, r.traceTimeout)
    ensures r.maxAttempts >= 1 && (r.maxAttempts == c.maxAttempts || c.maxAttempts < 1 == r.maxAttempts)
  {
    Config(c.enabled, Max(0.05, c.triggerHold), Max(0.05, c.verifyHold), Max(0.0, c.cooldown),
           Max(0.1, c.traceTimeout), MaxInt(1, c.maxAttempts))
  }

  /** The least change of `given` that reaches the floor. */
  predicate RaisedTo(floor: real, given: real, kept: real) {
    kept >= floor && (kept == given || given < floor == kept)
  }

  predicate Sane(c: Config) {
    c.triggerHold >= 0.0 && c.verifyHold >= 0.0 && c.cooldown >= 0.0 && c.maxAttempts >= 1
  }

  datatype Reason = MaxAttemptsReached | StartSweepFailed | UnlockedTraceTimeout | StartRelockFailed | VerifyFailed

  datatype Event = Attempt(at: real) | Success(at: real) | Failure(reason: Reason, at: real)

  datatype State = State(
    config: Config,
    phase: Phase,
    lostSince: Option<real>,
    waitSince: Option<real>,
    verifySince: Option<real>,
    verifyGoodSince: Option<real>,
    cooldownUntil: Option<real>,
    retryPrimed: bool,
    pending: Option<Action>,
    attempts: int)

  /** `lost` is the lock indicator reading "lost"; `traceAt` is the stamp of the last unlocked trace. */
  datatype Input =
    | Tick(lock: bool, lost: bool, traceAt: Option<real>, now: real)
    | Complete(action: Action, ok: bool, now: real)
    | Configure(config: Config)

  datatype Outcome = Outcome(state: State, events: seq<Event>, action: Option<Action>)

  function Initial(config: Config): State {
    State(config, Idle, None, None, None, None, None, false, None, 0)
  }

  function ResetTransient(s: State): State {
    s.(lostSince := None, waitSince := None, verifySince := None, verifyGoodSince := None,
       retryPrimed := false, pending := None)
  }

  function Disable(s: State): State {
    ResetTransient(s).(phase := Idle, attempts := 0, cooldownUntil := None)
  }

  function EnterCooldown(s: State, now: real): State {
    if s.config.cooldown > 0.0
    then ResetTransient(s).(attempts := 0, cooldownUntil := Some(now + s.config.cooldown), phase := Cooldown)
    else ResetTransient(s).(attempts := 0, cooldownUntil := None, phase := Idle)
  }

  function RecordFailure(s: State, now: real): State {
    if s.attempts >= s.config.maxAttempts then EnterCooldown(s, now)
    else s.(phase := LostPending, retryPrimed := true, lostSince := Some(now - s.config.triggerHold),
            waitSince := None, verifySince := None, verifyGoodSince := None)
  }

  function Fail(s: State, reason: Reason, now: real): Outcome {
    Outcome(RecordFailure(s, now), [Failure(reason, now)], None)
  }

  function BeginAttempt(s: State, now: real): Outcome {
    if s.attempts >= s.config.maxAttempts then Fail(s, MaxAttemptsReached, now)
    else Outcome(s.(attempts := s.attempts + 1, pending := Some(Sweep)), [Attempt(now)], Some(Sweep))
  }

  function Quiet(s: State): Outcome {
    Outcome(s, [], None)
  }

  predicate FreshTrace(s: State, traceAt: Option<real>) {
    traceAt.Some? && (s.waitSince.None? || traceAt.value >= s.waitSince.value)
  }

  function Elapsed(since: Option<real>, now: real, span: real): bool {
    since.Some? && now - since.value >= span
  }

  function TickWaiting(s: State, traceAt: Option<real>, now: real): Outcome {
    if FreshTrace(s, traceAt) then Outcome(s.(pending := Some(Relock)), [], Some(Relock))
    else if Elapsed(s.waitSince, now, s.config.traceTimeout) then Fail(s, UnlockedTraceTimeout, now)
    else Quiet(s)
  }

  function TickVerifying(s: State, healthy: bool, now: real): Outcome {
    if healthy then
      var good := if s.verifyGoodSince.None? then now else s.verifyGoodSince.value;
      var s1 := s.(verifyGoodSince := Some(good));
      if now - good >= s.config.verifyHold then Outcome(EnterCooldown(s1, now), [Success(now)], None)
      else Quiet(s1)
    else
      var s1 := s.(verifyGoodSince := None);
      if Elapsed(s.verifySince, now, Max(1.0, s.config.verifyHold * 2.0)) then Fail(s1, VerifyFailed, now)
      else Quiet(s1)
  }

  function TickWatching(s: State, lostNow: bool, now: real): Outcome {
    if s.phase == LostPending && s.retryPrimed then
      if s.lostSince.None? || now - s.lostSince.value >= s.config.triggerHold
      then BeginAttempt(s.(retryPrimed := false), now)
      else Quiet(s)
    else if lostNow then
      if s.lostSince.None? then Quiet(s.(lostSince := Some(now), phase := LostPending))
      else if now - s.lostSince.value >= s.config.triggerHold then BeginAttempt(s, now)
      else Quiet(s.(phase := LostPending))
    else Quiet(s.(lostSince := None, phase := if s.phase == LostPending then Idle else s.phase))
  }

  function OnTick(s: State, lock: bool, lost: bool, traceAt: Option<real>, now: real): Outcome {
    if !s.config.enabled then Quiet(Disable(s))
    else if s.cooldownUntil.Some? && now < s.cooldownUntil.value then Quiet(s.(phase := Cooldown))
    else
      var s1 := if s.phase == Cooldown then s.(cooldownUntil := None, phase := Idle) else s;
      if s1.phase == WaitingUnlockedTrace then TickWaiting(s1, traceAt, now)
      else if s1.phase == Verifying then TickVerifying(s1, lock && !lost, now)
      else TickWatching(s1, lock && lost, now)
  }

  function OnComplete(s: State, action: Action, ok: bool, now: real): Outcome {
    if s.pending != Some(action) then Quiet(s)
    else
      var s1 := s.(pending := None);
      match action
      case Sweep =>
        if !ok then Fail(s1, StartSweepFailed, now)
        else Quiet(s1.(waitSince := Some(now), phase := WaitingUnlockedTrace))
      case Relock =>
        if !ok then Fail(s1, StartRelockFailed, now)
        else Quiet(s1.(verifySince := Some(now), verifyGoodSince := None, waitSince := None, phase := Verifying))
  }

  function OnConfigure(s: State, config: Config): Outcome {
    var s1 := s.(config := config);
    Quiet(if config.enabled then s1 else Disable(s1))
  }

  function Step(s: State, input: Input): Outcome {
    match input
    case Tick(lock, lost, traceAt, now) => OnTick(s, lock, lost, traceAt, now)
    case Complete(action, ok, now) => OnComplete(s, action, ok, now)
    case Configure(config) => OnConfigure(s, config)
  }

  /** The controller object: the same decisions, taken by updating its fields. */
  class AutoRelockController {
    var config: Config
    var phase: Phase
    var lostSince: Option<real>
    var waitSince: Option<real>
    var verifySince: Option<real>
    var verifyGoodSince: Option<real>
    var cooldownUntil: Option<real>
    var retryPrimed: bool
    var pending: Option<Action>
    var attempts: int
    /** Everything handed to the event hook, in order. */
    var emitted: seq<Event>

    ghost function Value(): State
      reads this
    {
      State(config, phase, lostSince, waitSince, verifySince, verifyGoodSince, cooldownUntil, retryPrimed, pending, attempts)
    }

    constructor (config: Config)
      ensures Value() == Initial(config) && emitted == []
    {
      this.config, phase, attempts, retryPrimed, emitted := config, Idle, 0, false, [];
      lostSince, waitSince, verifySince, verifyGoodSince := None, None, None, None;
      cooldownUntil, pending := None, None;
    }

    method ResetFields()
      modifies this
      ensures Value() == ResetTransient(old(Value())) && emitted == old(emitted)
    {
      lostSince, waitSince, verifySince, verifyGoodSince := None, None, None, None;
      retryPrimed, pending := false, None;
    }

    method TurnOff()
      modifies this
      ensures Value() == Disable(old(Value())) && emitted == old(emitted)
    {
      phase, attempts, cooldownUntil := Idle, 0, None;
      ResetFields();
    }

    method StartCooldown(now: real)
      modifies this
      ensures Value() == EnterCooldown(old(Value()), now) && emitted == old(emitted)
    {
      ResetFields();
      attempts := 0;
      if config.cooldown > 0.0 {
        cooldownUntil, phase := Some(now + config.cooldown), Cooldown;
      } else {
        cooldownUntil, phase := None, Idle;
      }
    }

    method NoteFailure(reason: Reason, now: real)
      modifies this
      ensures Value() == RecordFailure(old(Value()), now)
      ensures emitted == old(emitted) + [Failure(reason, now)]
    {
      emitted := emitted + [Failure(reason, now)];
      if attempts >= config.maxAttempts {
        StartCooldown(now);
        return;
      }
      phase, retryPrimed := LostPending, true;
      lostSince := Some(now - config.triggerHold);
      waitSince, verifySince, verifyGoodSince := None, None, None;
    }

    method TryAttempt(now: real) returns (action: Option<Action>)
      modifies this
      ensures var o := BeginAttempt(old(Value()), now);
              Value() == o.state && emitted == old(emitted) + o.events && action == o.action
    {
      if attempts >= config.maxAttempts {
        NoteFailure(MaxAttemptsReached, now);
        return None;
      }
      attempts := attempts + 1;
      emitted := emitted + [Attempt(now)];
      pending := Some(Sweep);
      action := Some(Sweep);
    }

    method TickNow(lock: bool, lost: bool, traceAt: Option<real>, now: real) returns (action: Option<Action>)
      modifies this
      ensures var o := OnTick(old(Value()), lock, lost, traceAt, now);
              Value() == o.state && emitted == old(emitted) + o.events && action == o.action
    {
      if !config.enabled {
        TurnOff();
        return None;
      }
      if cooldownUntil.Some? && now < cooldownUntil.value {
        phase := Cooldown;
        return None;
      }
      if phase == Cooldown {
        cooldownUntil, phase := None, Idle;
      }
      hide TickWaiting, TickVerifying, TickWatching;
      if phase == WaitingUnlockedTrace {
        action := AwaitTrace(traceAt, now);
      } else if phase == Verifying {
        VerifyLock(lock && !lost, now);
        action := None;
      } else {
        action := WatchForLoss(lock && lost, now);
      }
    }

    method AwaitTrace(traceAt: Option<real>, now: real) returns (action: Option<Action>)
      modifies this
      ensures var o := TickWaiting(old(Value()), traceAt, now);
              Value() == o.state && emitted == old(emitted) + o.events && action == o.action
    {
      if traceAt.Some? && (waitSince.None? || traceAt.value >= waitSince.value) {
        pending := Some(Relock);
        return Some(Relock);
      }
      if waitSince.Some? && now - waitSince.value >= config.traceTimeout {
        NoteFailure(UnlockedTraceTimeout, now);
      }
      action := None;
    }

    method VerifyLock(healthy: bool, now: real)
      modifies this
      ensures var o := TickVerifying(old(Value()), healthy, now);
              Value() == o.state && emitted == old(emitted) + o.events && o.action.None?
    {
      if healthy {
        if verifyGoodSince.None? { verifyGoodSince := Some(now); }
        if now - verifyGoodSince.value >= config.verifyHold {
          emitted := emitted + [Success(now)];
          StartCooldown(now);
        }
        return;
      }
      verifyGoodSince := None;
      if verifySince.Some? && now - verifySince.value >= Max(1.0, config.verifyHold * 2.0) {
        NoteFailure(VerifyFailed, now);
      }
    }

    method WatchForLoss(lostNow: bool, now: real) returns (action: Option<Action>)
      modifies this
      ensures var o := TickWatching(old(Value()), lostNow, now);
              Value() == o.state && emitted == old(emitted) + o.events && action == o.action
    {
      hide EnterCooldown;
      action := None;
      if phase == LostPending && retryPrimed {
        if lostSince.None? || now - lostSince.value >= config.triggerHold {
          retryPrimed := false;
          action := TryAttempt(now);
        }
      } else if lostNow {
        if lostSince.None? {
          lostSince, phase := Some(now), LostPending;
        } else if now - lostSince.value >= config.triggerHold {
          action := TryAttempt(now);
        } else {
          phase := LostPending;
        }
      } else {
        lostSince := None;
        if phase == LostPending { phase := Idle; }
      }
    }

    method CompleteAction(action: Action, ok: bool, now: real)
      modifies this
      ensures var o := OnComplete(old(Value()), action, ok, now);
              Value() == o.state && emitted == old(emitted) + o.events
    {
      if pending != Some(action) { return; }
      pending := None;
      if action == Sweep {
        if !ok {
          NoteFailure(StartSweepFailed, now);
          return;
        }
        waitSince, phase := Some(now), WaitingUnlockedTrace;
      } else {
        if !ok {
          NoteFailure(StartRelockFailed, now);
          return;
        }
        verifySince, verifyGoodSince, waitSince, phase := Some(now), None, None, Verifying;
      }
    }

    method SetConfig(newConfig: Config)
      modifies this
      ensures Value() == OnConfigure(old(Value()), newConfig).state && emitted == old(emitted)
    {
      config := newConfig;
      if !config.enabled { TurnOff(); }
    }
  }
}
