/**
 * Dispatch of the relock action to a worker thread, as steps of the poll thread, the
 * workers, the configuration route and a draining disconnect
 * (_on_to_plot, _maybe_dispatch_relock_action, _dispatch_relock_action and
 * _await_relock_action in linien-gateway/app/session.py). Every step is one critical
 * section or one lock operation, so any interleaving of them may happen.
 */
module RelockDispatch {
  import opened Common
  import opened AutoRelock
  import opened AutoRelockRuns

  /**
   * A "relock" the controller handed out, on its way to a report. `live` is history: no disable and no other
   * report has settled the attempt since.
   */
  datatype Job = Job(attempt: nat, live: bool)

  datatype PollThread = Polling | Sweeping | HasRelock(job: Job) | StartingWorker(job: Job)

  datatype WorkerPhase = Running | Finished(ok: bool) | Applied | Released

  datatype Worker = Worker(job: Job, phase: WorkerPhase, reports: nat)

  datatype Holder = Free | HeldByPoll | HeldByWorker(id: nat) | HeldByDrain

  datatype System = System(
    controller: AutoRelock.State,
    attempt: nat,
    stamp: Option<real>,
    poll: PollThread,
    actionLock: Holder,
    workers: map<nat, Worker>,
    nextId: nat)

  datatype Step =
    | Frame(lock: bool, lost: bool, traceAt: Option<real>, now: real)
    | SweepReported(ok: bool, now: real)
    | TryClaim
    | ThreadStart(ok: bool)
    | WorkerFinishes(id: nat, ok: bool)
    | WorkerReports(id: nat, now: real)
    | WorkerReleases(id: nat)
    | Reconfigure(config: Config)
    | DrainAcquires
    | DrainReleases

  function Init(config: Config): System {
    System(Initial(config), 0, None, Polling, Free, map[], 0)
  }

  predicate Enabled(s: System, step: Step) {
    match step
    case Frame(_, _, traceAt, _) => s.poll.Polling? && NotBefore(s.stamp, traceAt)
    case SweepReported(_, _) => s.poll.Sweeping?
    case TryClaim => s.poll.HasRelock?
    case ThreadStart(_) => s.poll.StartingWorker?
    case WorkerFinishes(id, _) => id in s.workers && s.workers[id].phase.Running?
    case WorkerReports(id, _) => id in s.workers && s.workers[id].phase.Finished?
    case WorkerReleases(id) => id in s.workers && s.workers[id].phase.Applied?
    case Reconfigure(_) => true
    case DrainAcquires => s.actionLock.Free?
    case DrainReleases => s.actionLock.HeldByDrain?
  }

  function Settle(j: Job): Job { j.(live := false) }

  function SettlePoll(p: PollThread): PollThread {
    if p.HasRelock? then HasRelock(Settle(p.job)) else if p.StartingWorker? then StartingWorker(Settle(p.job)) else p
  }

  /** The attempt now under way is settled: nothing handed out for it so far is live any more. */
  function SettleAll(s: System): System {
    s.(poll := SettlePoll(s.poll),
       workers := map id | id in s.workers :: s.workers[id].(job := Settle(s.workers[id].job)))
  }

  function Do(s: System, step: Step): System
    requires Enabled(s, step)
  {
    match step
    case Frame(lock, lost, traceAt, now) =>
      var o := OnTick(s.controller, lock, lost, traceAt, now);
      var s1 := s.(controller := o.state, stamp := traceAt);
      if o.action == Some(Sweep) then s1.(attempt := s.attempt + 1, poll := Sweeping)
      else if o.action == Some(Relock) then s1.(poll := HasRelock(Job(s.attempt, true)))
      else s1
    case SweepReported(ok, now) =>
      s.(controller := OnComplete(s.controller, Sweep, ok, now).state, poll := Polling)
    case TryClaim =>
      if s.actionLock.Free? then s.(actionLock := HeldByPoll, poll := StartingWorker(s.poll.job))
      else s.(poll := Polling)
    case ThreadStart(ok) =>
      if ok then s.(actionLock := HeldByWorker(s.nextId), poll := Polling, nextId := s.nextId + 1,
                    workers := s.workers[s.nextId := Worker(s.poll.job, Running, 0)])
      else s.(actionLock := Free, poll := Polling)
    case WorkerFinishes(id, ok) =>
      s.(workers := s.workers[id := s.workers[id].(phase := Finished(ok))])
    case WorkerReports(id, now) =>
      var w := s.workers[id];
      var heard := s.controller.pending == Some(Relock);
      var s1 := if heard then SettleAll(s) else s;
      s1.(controller := OnComplete(s.controller, Relock, w.phase.ok, now).state,
          workers := s1.workers[id := s1.workers[id].(phase := Applied, reports := w.reports + 1)])
    case WorkerReleases(id) =>
      s.(actionLock := Free, workers := s.workers[id := s.workers[id].(phase := Released)])
    case Reconfigure(config) =>
      var s1 := s.(controller := OnConfigure(s.controller, config).state);
      if config.enabled then s1 else SettleAll(s1)
    case DrainAcquires => s.(actionLock := HeldByDrain)
    case DrainReleases => s.(actionLock := Free)
  }

  // ---------------------------------------------------------------------------
  // Invariant
  // ---------------------------------------------------------------------------

  /** A live job is the very action the controller waits for; a settled one belongs to an attempt that is over. */
  predicate JobOk(s: System, j: Job) {
    && j.attempt <= s.attempt
    && (if j.live then
          && j.attempt == s.attempt && s.controller.phase == WaitingUnlockedTrace
          && s.controller.pending == Some(Relock)
        else
          j.attempt == s.attempt ==> s.controller.phase != WaitingUnlockedTrace && s.controller.pending.None?)
  }

  /** The poll thread holds a job only between the tick that handed it out and the claim: its attempt is still the newest. */
  predicate JobsOk(s: System) {
    && (HoldsJob(s.poll) ==> JobOk(s, s.poll.job) && s.poll.job.attempt == s.attempt)
    && (forall id :: id in s.workers ==>
          JobOk(s, s.workers[id].job) && (Reported(s.workers[id]) ==> !s.workers[id].job.live))
  }

  predicate HoldsJob(p: PollThread) {
    p.HasRelock? || p.StartingWorker?
  }

  predicate Reported(w: Worker) {
    w.phase.Applied? || w.phase.Released?
  }

  predicate LockOk(s: System) {
    && (s.actionLock.HeldByPoll? <==> s.poll.StartingWorker?)
    && (s.actionLock.HeldByWorker? ==>
          s.actionLock.id in s.workers && !s.workers[s.actionLock.id].phase.Released?)
    && (forall id :: id in s.workers ==>
          && id < s.nextId
          && s.workers[id].reports == (if Reported(s.workers[id]) then 1 else 0)
          && (!s.workers[id].phase.Released? ==> s.actionLock == HeldByWorker(id)))
  }

  ghost predicate Inv(s: System) {
    && Coherent(s.controller, s.stamp)
    && (s.controller.pending == Some(Sweep) ==> s.poll.Sweeping?)
    && LockOk(s)
    && JobsOk(s)
  }

  lemma InitInv(config: Config)
    ensures Inv(Init(config))
  {
  }

  /** What controller steps mean for jobs: who can be handed out, who is settled. */
  lemma TickAndJobs(c: AutoRelock.State, stamp: Option<real>, lock: bool, lost: bool, traceAt: Option<real>, now: real)
    requires Coherent(c, stamp) && NotBefore(stamp, traceAt) && c.pending != Some(Sweep)
    ensures var o := OnTick(c, lock, lost, traceAt, now);
            && Coherent(o.state, traceAt)
            && (o.state.pending == Some(Sweep) <==> o.action == Some(Sweep))
            && (o.action == Some(Relock) ==>
                  c.phase == o.state.phase == WaitingUnlockedTrace && o.state.pending == Some(Relock))
            && (o.action == Some(Sweep) ==> c.phase != WaitingUnlockedTrace)
            && (c.pending == Some(Relock) ==> o.action == Some(Relock) && o.events == [])
            && (o.action != Some(Sweep) && c.phase != WaitingUnlockedTrace && c.pending.None? ==>
                  o.state.phase != WaitingUnlockedTrace && o.state.pending.None?)
            && (o.events != [] && o.events[0] == Failure(UnlockedTraceTimeout, now) ==>
                  c.phase == WaitingUnlockedTrace && c.pending.None?)
  {
    StepStaysCoherent(c, Tick(lock, lost, traceAt, now), stamp);
  }

  lemma ReportAndJobs(c: AutoRelock.State, stamp: Option<real>, action: Action, ok: bool, now: real)
    requires Coherent(c, stamp)
    ensures var c1 := OnComplete(c, action, ok, now).state;
            && Coherent(c1, stamp)
            && (c.pending != Some(action) ==> c1 == c)
            && (c.pending == Some(action) ==> c1.pending.None?)
            && (c.pending == Some(Relock) && action == Relock ==> c1.phase != WaitingUnlockedTrace)
  {
    StepStaysCoherent(c, Complete(action, ok, now), stamp);
  }

  lemma ConfigureAndJobs(c: AutoRelock.State, stamp: Option<real>, config: Config)
    requires Coherent(c, stamp)
    ensures var c1 := OnConfigure(c, config).state;
            && Coherent(c1, stamp)
            && (config.enabled ==> c1.phase == c.phase && c1.pending == c.pending)
            && (!config.enabled ==> c1.phase == Idle && c1.pending.None?)
  {
    StepStaysCoherent(c, Configure(config), stamp);
  }

  lemma FrameKeepsInv(s: System, f: Step)
    requires Inv(s) && f.Frame? && Enabled(s, f)
    ensures Inv(Do(s, f))
  {
    hide Coherent, OnTick;
    TickAndJobs(s.controller, s.stamp, f.lock, f.lost, f.traceAt, f.now);
  }

  lemma WorkerReportKeepsInv(s: System, r: Step)
    requires Inv(s) && r.WorkerReports? && Enabled(s, r)
    ensures Inv(Do(s, r))
  {
    hide Coherent, OnComplete;
    ReportAndJobs(s.controller, s.stamp, Relock, s.workers[r.id].phase.ok, r.now);
    var t := Do(s, r);
    assert JobsOk(t) && LockOk(t);
  }

  lemma ReconfigureKeepsInv(s: System, config: Config)
    requires Inv(s)
    ensures Inv(Do(s, Reconfigure(config)))
  {
    hide Coherent, OnConfigure;
    ConfigureAndJobs(s.controller, s.stamp, config);
    var t := Do(s, Reconfigure(config));
    assert JobsOk(t) && LockOk(t);
  }

  lemma SweepReportKeepsInv(s: System, r: Step)
    requires Inv(s) && r.SweepReported? && Enabled(s, r)
    ensures Inv(Do(s, r))
  {
    hide Coherent, OnComplete;
    ReportAndJobs(s.controller, s.stamp, Sweep, r.ok, r.now);
  }

  /** Steps that move jobs and the lock but leave the controller alone. */
  lemma HandOverKeepsInv(s: System, step: Step)
    requires Inv(s) && Enabled(s, step)
    requires !step.Frame? && !step.SweepReported? && !step.WorkerReports? && !step.Reconfigure?
    ensures Inv(Do(s, step))
  {
    hide Coherent, OnTick, OnComplete, OnConfigure;
    var t := Do(s, step);
    assert t.controller == s.controller && t.stamp == s.stamp && t.attempt == s.attempt;
  }

  /** The invariant survives every step, in any order the threads may take them. */
  lemma StepKeepsInv(s: System, step: Step)
    requires Inv(s) && Enabled(s, step)
    ensures Inv(Do(s, step))
  {
    hide *;
    match step
    case Frame(_, _, _, _) => FrameKeepsInv(s, step);
    case SweepReported(_, _) => SweepReportKeepsInv(s, step);
    case WorkerReports(_, _) => WorkerReportKeepsInv(s, step);
    case Reconfigure(config) => ReconfigureKeepsInv(s, config);
    case _ => HandOverKeepsInv(s, step);
  }

  // ---------------------------------------------------------------------------
  // Whole runs
  // ---------------------------------------------------------------------------

  ghost predicate Ends(config: Config, steps: seq<Step>, s: System)
    decreases |steps|
  {
    if steps == [] then s == Init(config)
    else exists prev :: Ends(config, steps[..|steps| - 1], prev) && Leads(prev, Newest(steps), s)
  }

  function Newest(steps: seq<Step>): Step
    requires steps != []
  {
    steps[|steps| - 1]
  }

  predicate Leads(s: System, step: Step, s1: System) {
    Enabled(s, step) && s1 == Do(s, step)
  }

  /** Some interleaving of the threads, starting from a fresh session, ends in `s`. */
  ghost predicate Reachable(config: Config, s: System) {
    exists steps :: Ends(config, steps, s)
  }

  lemma Extends(config: Config, s: System, step: Step)
    requires Reachable(config, s) && Enabled(s, step)
    ensures Reachable(config, Do(s, step))
  {
    hide Do, Enabled;
    var steps :| Ends(config, steps, s);
    var more := steps + [step];
    assert more[..|more| - 1] == steps && Newest(more) == step && Leads(s, step, Do(s, step));
    assert Ends(config, more, Do(s, step));
  }

  lemma {:induction false} EndsInInv(config: Config, steps: seq<Step>, s: System)
    requires Ends(config, steps, s)
    ensures Inv(s)
    decreases |steps|
  {
    hide Do, Enabled, Inv;
    if steps == [] {
      InitInv(config);
    } else {
      var prev :| Ends(config, steps[..|steps| - 1], prev) && Leads(prev, Newest(steps), s);
      EndsInInv(config, steps[..|steps| - 1], prev);
      StepKeepsInv(prev, Newest(steps));
    }
  }

  lemma ReachableInv(config: Config, s: System)
    requires Reachable(config, s)
    ensures Inv(s)
  {
    var steps :| Ends(config, steps, s);
    EndsInInv(config, steps, s);
  }

  predicate InFlight(w: Worker) {
    !w.phase.Released?
  }

  /**
   * Mutual exclusion and exactly-once reporting, in every reachable state: at most one worker
   * is in flight, it holds the action lock until after its result is applied, and no worker
   * ever reports twice or is released unreported.
   */
  lemma AtMostOneWorker(config: Config, s: System, a: nat, b: nat)
    requires Reachable(config, s) && a in s.workers && b in s.workers
    ensures InFlight(s.workers[a]) && InFlight(s.workers[b]) ==> a == b
    ensures InFlight(s.workers[a]) <==> s.actionLock == HeldByWorker(a)
    ensures s.workers[a].reports == (if Reported(s.workers[a]) then 1 else 0)
  {
    ReachableInv(config, s);
  }

  /** The lock is taken by a claim, and given back when the thread cannot start. */
  lemma LockFollowsClaim(config: Config, s: System, step: Step)
    requires Reachable(config, s) && Enabled(s, step)
    ensures step == TryClaim ==>
              (Do(s, step).poll.StartingWorker? <==> s.actionLock.Free?) &&
              (Do(s, step).poll.StartingWorker? <==> Do(s, step).actionLock.HeldByPoll?)
    ensures step.ThreadStart? ==>
              && s.actionLock == HeldByPoll
              && (if step.ok then Do(s, step).actionLock == HeldByWorker(s.nextId) && s.nextId !in s.workers
                  else Do(s, step).actionLock == Free && Do(s, step).workers == s.workers)
    ensures step.WorkerReleases? ==> s.actionLock == HeldByWorker(step.id) && s.workers[step.id].reports == 1
  {
    ReachableInv(config, s);
  }

  /** While a worker is in flight for an attempt, no tick records an unlocked-trace timeout against that attempt. */
  lemma NoTimeoutUnderWorker(config: Config, s: System, f: Step, id: nat)
    requires Reachable(config, s) && f.Frame? && Enabled(s, f)
    requires id in s.workers && !Reported(s.workers[id]) && s.workers[id].job.attempt == s.attempt
    ensures var events := OnTick(s.controller, f.lock, f.lost, f.traceAt, f.now).events;
            events == [] || events[0] != Failure(UnlockedTraceTimeout, f.now)
  {
    ReachableInv(config, s);
    TickAndJobs(s.controller, s.stamp, f.lock, f.lost, f.traceAt, f.now);
  }

  /**
   * Results are matched by action name only. A report settles the attempt it was run for exactly
   * when its job is still live; otherwise it is ignored, or credited to a strictly newer attempt
   * that has itself reached "relock".
   */
  lemma ReportReachesOwnAttemptIffLive(config: Config, s: System, id: nat, now: real)
    requires Reachable(config, s) && Enabled(s, WorkerReports(id, now))
    ensures var job := s.workers[id].job;
            var heard := s.controller.pending == Some(Relock);
            && (job.live <==> heard && job.attempt == s.attempt)
            && (!job.live && heard ==> job.attempt < s.attempt)
            && (!heard ==> Do(s, WorkerReports(id, now)).controller == s.controller)
  {
    ReachableInv(config, s);
  }

  /**
   * Claims are not checked against the controller. In every reachable state, a job the poll thread is about to claim
   * or start is for an attempt already settled exactly when the controller no longer waits for "relock", so a
   * thread that starts runs a live attempt if and only if it still does.
   */
  lemma ClaimIsLiveIffStillPending(config: Config, s: System)
    requires Reachable(config, s) && HoldsJob(s.poll)
    ensures s.poll.job.live <==> s.controller.pending == Some(Relock)
    ensures Enabled(s, ThreadStart(true)) ==>
              (Do(s, ThreadStart(true)).workers[s.nextId].job.live <==> s.controller.pending == Some(Relock))
  {
    ReachableInv(config, s);
  }

  /** A live attempt is run at most once: whoever is about to run it is the first to. */
  lemma LiveAttemptIsRunOnce(config: Config, s: System, id: nat)
    requires Reachable(config, s) && s.poll.StartingWorker? && s.poll.job.live && id in s.workers
    ensures s.workers[id].job.attempt < s.poll.job.attempt
  {
    ReachableInv(config, s);
  }

  // ---------------------------------------------------------------------------
  // Two interleavings the name matching and the late claim allow
  // ---------------------------------------------------------------------------

  const EAGER := Config(true, 0.0, 1.0, 8.0, 2.0, 2)

  /** A first attempt whose worker is running. */
  lemma FirstWorkerRunning() returns (s: System)
    ensures Reachable(EAGER, s)
    ensures s.poll == Polling && s.actionLock == HeldByWorker(0) && s.attempt == 1 && s.stamp == Some(2.0)
    ensures s.workers == map[0 := Worker(Job(1, true), Running, 0)] && s.nextId == 1
    ensures s.controller == Initial(EAGER).(phase := WaitingUnlockedTrace, lostSince := Some(1.0), waitSince := Some(1.0),
                                            pending := Some(Relock), attempts := 1)
  {
    hide Reachable;
    s := Init(EAGER);
    FreshIsReachable();
    s := Play(s, Frame(true, true, None, 1.0));
    s := Play(s, Frame(true, true, None, 1.0));
    s := Play(s, SweepReported(true, 1.0));
    s := Play(s, Frame(false, false, Some(2.0), 2.0));
    s := Play(s, TryClaim);
    s := Play(s, ThreadStart(true));
  }

  lemma FreshIsReachable()
    ensures Reachable(EAGER, Init(EAGER))
  {
    assert Ends(EAGER, [], Init(EAGER));
  }

  lemma Play(s: System, step: Step) returns (s1: System)
    requires Reachable(EAGER, s) && Enabled(s, step)
    ensures s1 == Do(s, step) && Reachable(EAGER, s1)
  {
    Extends(EAGER, s, step);
    s1 := Do(s, step);
  }

  /** Disable and re-enable while the first worker runs, then a second attempt up to its own "relock". */
  lemma SecondAttemptReachesRelock() returns (s: System)
    ensures Reachable(EAGER, s)
    ensures s.poll == HasRelock(Job(2, true)) && s.actionLock == HeldByWorker(0) && s.attempt == 2
    ensures s.workers == map[0 := Worker(Job(1, false), Running, 0)]
    ensures s.controller == Initial(EAGER).(phase := WaitingUnlockedTrace, lostSince := Some(3.0), waitSince := Some(3.0),
                                            pending := Some(Relock), attempts := 1)
  {
    hide Reachable;
    s := FirstWorkerRunning();
    s := Play(s, Reconfigure(EAGER.(enabled := false)));
    s := Play(s, Reconfigure(EAGER));
    s := Play(s, Frame(true, true, Some(2.0), 3.0));
    s := Play(s, Frame(true, true, Some(2.0), 3.0));
    s := Play(s, SweepReported(true, 3.0));
    s := Play(s, Frame(false, false, Some(4.0), 4.0));
  }

  /** The first worker's late result is then credited to the second attempt. */
  lemma LateResultCanBeCreditedToNewerAttempt()
    ensures exists s: System, now: real ::
              && Reachable(EAGER, s) && Enabled(s, WorkerReports(0, now))
              && s.workers[0].job.attempt < s.attempt
              && Do(s, WorkerReports(0, now)).controller.phase == Verifying
  {
    hide Reachable;
    var s := SecondAttemptReachesRelock();
    s := Play(s, TryClaim);
    s := Play(s, WorkerFinishes(0, true));
    assert Enabled(s, WorkerReports(0, 9.0)) && Do(s, WorkerReports(0, 9.0)).controller.phase == Verifying;
  }

  /**
   * The claim is not atomic with the tick that handed the action out: a worker that reports and
   * releases in between lets the poll thread start a second worker for the attempt just settled.
   */
  lemma SettledAttemptCanBeRunAgain()
    ensures exists s: System, a: nat, b: nat ::
              && Reachable(EAGER, s) && a != b && a in s.workers && b in s.workers
              && s.workers[a].job.attempt == s.workers[b].job.attempt
              && s.workers[a].phase == Released && s.workers[b].phase == Running
              && s.controller.phase == Verifying
  {
    hide Reachable;
    var s := FirstWorkerRunning();
    s := Play(s, Frame(false, false, Some(2.0), 3.0));
    s := Play(s, WorkerFinishes(0, true));
    s := Play(s, WorkerReports(0, 3.0));
    s := Play(s, WorkerReleases(0));
    s := Play(s, TryClaim);
    s := Play(s, ThreadStart(true));
    assert s.workers[0].phase == Released && s.workers[1].phase == Running;
  }
}
