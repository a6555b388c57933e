/**
 * One device's entry in the telemetry cache (linien-gateway/app/rp_telemetry.py): readings
 * taken over TCP seconds before they are folded in, operator actions that overtake them, and
 * the sequence number that tells the two apart. Every locked block is one step.
 */
module TelemetryCache {
  import opened Common

  datatype Status = Unknown | Running | Stopped | NotInstalled | Offline | Faulty

  /** A "running" reading always carries a temperature; no other reading does. */
  datatype Reading = Temperature(celsius: real) | Absent(status: Status, error: string)

  datatype Record = Record(installed: bool, version: Option<string>)

  datatype Entry = Entry(
    status: Status,
    temperature: Option<real>,
    sampledAt: Option<real>,
    version: Option<string>,
    error: Option<string>,
    installed: bool,
    versionProbed: bool,
    probeFailures: nat,
    loggedMismatch: Option<string>,
    mutationSeq: nat,
    failures: nat,
    lossReported: bool)

  const FRESH_ENTRY := Entry(Unknown, None, None, None, None, false, false, 0, None, 0, 0, false)
  const VERSION_PROBE_ATTEMPTS := 3
  const SUSTAINED_LOSS_POLLS := 3
  const BUNDLED_VERSION := "bundled"

  /** What a task brings to the fold. `expectSeq` is the sequence number captured before the read. */
  datatype Finding = Finding(
    reading: Reading, version: Option<string>, expectSeq: nat, trackHealth: bool, installed: bool, probed: bool)

  /** A stopped daemon on a board with no install record is simply not installed. */
  function Classified(r: Reading, installed: bool): Reading {
    if r.Absent? && r.status == Stopped && !installed then Absent(NotInstalled, "no telemetry service on this board") else r
  }

  function FoldedVersion(e: Entry, record: Record, f: Finding): Entry {
    e.(installed := f.installed,
       version := if f.version.Some? then f.version
                  else if f.installed && e.version.None? && record.version.Some? then record.version else e.version,
       versionProbed := e.versionProbed || f.probed,
       probeFailures := if f.probed then 0 else e.probeFailures)
  }

  function FoldedReading(e: Entry, f: Finding, now: real): Entry {
    match f.reading
    case Temperature(celsius) =>
      e.(status := Running, temperature := Some(celsius), sampledAt := Some(now), error := None,
         failures := if f.trackHealth then 0 else e.failures)
    case Absent(status, error) =>
      e.(status := status, error := Some(error), versionProbed := false, probeFailures := 0,
         failures := if f.trackHealth then e.failures + 1 else e.failures)
  }

  /** The fold itself, once the guard has let the finding through. */
  function Folded(e: Entry, record: Record, f: Finding, now: real): Entry {
    FoldedReading(FoldedVersion(e, record, f), f, now)
  }

  function Applied(e: Entry, record: Record, f: Finding, now: real): Entry {
    if e.mutationSeq != f.expectSeq then e else Folded(e, record, f, now)
  }

  datatype LossEvent = Unavailable(status: Status) | Recovered

  /** What the fold remembers for the log: taken under the lock, used after it is released. */
  datatype Snapshot = Snapshot(status: Status, failures: nat, lossReported: bool, version: Option<string>, installed: bool)

  function TakeSnapshot(e: Entry): Snapshot {
    Snapshot(e.status, e.failures, e.lossReported, e.version, e.installed)
  }

  predicate Mismatch(s: Snapshot) {
    s.status == Running && s.installed && s.version.Some? && s.version.value != BUNDLED_VERSION
  }

  function Transition(s: Snapshot): Option<LossEvent> {
    if s.status == Running then if s.lossReported then Some(Recovered) else None
    else if s.failures == SUSTAINED_LOSS_POLLS && !s.lossReported then Some(Unavailable(s.status)) else None
  }

  function Logged(e: Entry, s: Snapshot): Entry {
    e.(lossReported := match Transition(s)
                       case None => e.lossReported
                       case Some(Recovered) => false
                       case Some(Unavailable(_)) => true,
       loggedMismatch := if Mismatch(s) then s.version else e.loggedMismatch)
  }

  datatype ServiceAction = Start | Stop | Restart

  /** The locked block of an operator action. */
  datatype Action =
    | Installed
    | InstallVerified(celsius: real, now: real)
    | InstallUnverified(status: Status, error: string)
    | Uninstalled
    | Serviced(action: ServiceAction, active: bool)
    | InspectedVersion(version: string)

  function Served(e: Entry, action: ServiceAction, active: bool): Entry {
    if action == Stop then e.(status := Stopped, error := Some("service stopped by operator"))
    else if active then e.(failures := 0, lossReported := false, status := Running, error := None, temperature := None,
                           sampledAt := None, versionProbed := false, probeFailures := 0)
    else e.(failures := 0, lossReported := false)
  }

  function Forgotten(e: Entry): Entry {
    FRESH_ENTRY.(status := NotInstalled, mutationSeq := e.mutationSeq)
  }

  function Acted(e: Entry, a: Action): Entry {
    var bumped := e.(mutationSeq := e.mutationSeq + 1);
    match a
    case Installed =>
      bumped.(installed := true, version := Some(BUNDLED_VERSION), versionProbed := false, probeFailures := 0,
              loggedMismatch := None, failures := 0, lossReported := false)
    case InstallVerified(celsius, now) =>
      bumped.(status := Running, temperature := Some(celsius), sampledAt := Some(now), error := None)
    case InstallUnverified(status, error) => bumped.(status := status, error := Some(error))
    case Uninstalled => Forgotten(bumped)
    case Serviced(action, active) => Served(bumped, action, active)
    case InspectedVersion(version) => bumped.(version := Some(version))
  }

  // ---------------------------------------------------------------------------
  // The entry, updated in place
  // ---------------------------------------------------------------------------

  class TelemetryEntry {
    var status: Status
    var temperature: Option<real>
    var sampledAt: Option<real>
    var version: Option<string>
    var error: Option<string>
    var installed: bool
    var versionProbed: bool
    var probeFailures: nat
    var loggedMismatch: Option<string>
    var mutationSeq: nat
    var failures: nat
    var lossReported: bool

    ghost function Value(): Entry
      reads this
    {
      Entry(status, temperature, sampledAt, version, error, installed, versionProbed, probeFailures, loggedMismatch,
            mutationSeq, failures, lossReported)
    }

    constructor ()
      ensures Value() == FRESH_ENTRY
    {
      status, temperature, sampledAt, version, error := Unknown, None, None, None, None;
      installed, versionProbed, probeFailures, loggedMismatch := false, false, 0, None;
      mutationSeq, failures, lossReported := 0, 0, false;
    }

    /** A stale finding changes nothing; a current one is folded whole, and the answer says which. */
    method ApplyReading(record: Record, f: Finding, now: real) returns (folded: bool, snapshot: Snapshot)
      modifies this
      ensures Value() == Applied(old(Value()), record, f, now)
      ensures folded <==> old(mutationSeq) == f.expectSeq
      ensures snapshot == TakeSnapshot(Value())
    {
      hide FoldedVersion, FoldedReading;
      folded := mutationSeq == f.expectSeq;
      if folded {
        FoldVersion(record, f);
        FoldReading(f, now);
      }
      snapshot := Snapshot(status, failures, lossReported, version, installed);
    }

    method FoldVersion(record: Record, f: Finding)
      modifies this`installed, this`version, this`versionProbed, this`probeFailures
      ensures Value() == FoldedVersion(old(Value()), record, f)
    {
      installed := f.installed;
      if installed && version.None? && record.version.Some? {
        version := record.version;
      }
      if f.probed {
        versionProbed, probeFailures := true, 0;
      }
      if f.version.Some? {
        version := f.version;
      }
    }

    method FoldReading(f: Finding, now: real)
      modifies this
      ensures Value() == FoldedReading(old(Value()), f, now)
    {
      match f.reading {
        case Temperature(celsius) =>
          temperature, sampledAt, error := Some(celsius), Some(now), None;
          if f.trackHealth {
            failures := 0;
          }
          status := Running;
        case Absent(seen, problem) =>
          error := Some(problem);
          if f.trackHealth {
            failures := failures + 1;
          }
          versionProbed, probeFailures := false, 0;
          status := seen;
      }
    }

    method LogTransitions(s: Snapshot) returns (event: Option<LossEvent>, mismatch: bool)
      modifies this`lossReported, this`loggedMismatch
      ensures Value() == Logged(old(Value()), s) && event == Transition(s)
      ensures mismatch <==> Mismatch(s) && old(loggedMismatch) != s.version
      ensures lossReported == if event.None? then old(lossReported) else event.value.Unavailable?
      ensures loggedMismatch == if s.status == Running && s.installed && s.version.Some? && s.version.value != "bundled"
                                then s.version else old(loggedMismatch)
    {
      event, mismatch := None, false;
      if s.status == Running {
        if s.lossReported {
          lossReported := false;
          event := Some(Recovered);
        }
        if s.installed && s.version.Some? && s.version.value != BUNDLED_VERSION {
          mismatch := loggedMismatch != s.version;
          loggedMismatch := s.version;
        }
        return;
      }
      if s.failures == SUSTAINED_LOSS_POLLS && !s.lossReported {
        lossReported := true;
        event := Some(Unavailable(s.status));
      }
    }

    method Act(a: Action)
      modifies this
      ensures Value() == Acted(old(Value()), a)
    {
      hide Served, Forgotten;
      mutationSeq := mutationSeq + 1;
      match a {
        case Installed =>
          installed, version, versionProbed, probeFailures := true, Some(BUNDLED_VERSION), false, 0;
          loggedMismatch, failures, lossReported := None, 0, false;
        case InstallVerified(celsius, now) =>
          status, temperature, sampledAt, error := Running, Some(celsius), Some(now), None;
        case InstallUnverified(seen, problem) =>
          status, error := seen, Some(problem);
        case Uninstalled =>
          Forget();
        case Serviced(action, active) =>
          Serve(action, active);
        case InspectedVersion(found) =>
          version := Some(found);
      }
    }

    method Forget()
      modifies this
      ensures Value() == Forgotten(old(Value()))
    {
      installed, status, version, versionProbed, probeFailures := false, NotInstalled, None, false, 0;
      loggedMismatch, temperature, sampledAt, error := None, None, None, None;
      failures, lossReported := 0, false;
    }

    method Serve(action: ServiceAction, active: bool)
      modifies this
      ensures Value() == Served(old(Value()), action, active)
    {
      if action == Stop {
        status, error := Stopped, Some("service stopped by operator");
      } else {
        failures, lossReported := 0, false;
        if active {
          status, error, temperature, sampledAt := Running, None, None, None;
          versionProbed, probeFailures := false, 0;
        }
      }
    }

    /** An answer settles the version probe; enough requests without one, whatever came between, give it up. */
    method SettleProbe(answer: Option<string>) returns (probed: bool)
      modifies this`probeFailures
      ensures Value() == if answer.Some? then old(Value()) else old(Value()).(probeFailures := old(probeFailures) + 1)
      ensures probed <==> answer.Some? || old(probeFailures) + 1 >= VERSION_PROBE_ATTEMPTS
    {
      if answer.Some? {
        return true;
      }
      probeFailures := probeFailures + 1;
      probed := probeFailures >= VERSION_PROBE_ATTEMPTS;
    }
  }

  // ---------------------------------------------------------------------------
  // Polls, on-demand reads and operator actions, interleaved
  // ---------------------------------------------------------------------------

  datatype Phase = RecordRead | Captured | HasReading | Asking | Ready | Logging(snapshot: Snapshot) | Done

  /** `recordAtCapture` is history: what the install record said when the sequence number was captured. */
  datatype Task = Task(poll: bool, phase: Phase, finding: Finding, recordAtCapture: bool)

  /** `unsettled`: operator actions that have rewritten the install record but not yet reached their locked block. */
  datatype System = System(entry: Entry, record: Record, unsettled: nat, tasks: map<nat, Task>, nextId: nat)

  datatype Step =
    | PollReadsRecord
    | PollCaptures(id: nat)
    | DemandCaptures
    | ReadingArrives(id: nat, reading: Reading)
    | ChecksVersion(id: nat)
    | VersionArrives(id: nat, version: Option<string>)
    | Applies(id: nat, now: real)
    | Logs(id: nat)
    | PersistsRecord(record: Record)
    | Acts(action: Action)

  predicate At(s: System, id: nat, phase: Phase) {
    id in s.tasks && s.tasks[id].phase == phase
  }

  /** Install and uninstall rewrite the record before their block. */
  predicate Settles(a: Action) {
    a.Installed? || a.Uninstalled?
  }

  predicate Enabled(s: System, step: Step) {
    match step
    case PollReadsRecord => true
    case PollCaptures(id) => At(s, id, RecordRead)
    case DemandCaptures => true
    case ReadingArrives(id, _) => At(s, id, Captured)
    case ChecksVersion(id) => At(s, id, HasReading)
    case VersionArrives(id, _) => At(s, id, Asking)
    case Applies(id, _) => At(s, id, Ready)
    case Logs(id) => id in s.tasks && s.tasks[id].phase.Logging?
    case PersistsRecord(_) => true
    case Acts(a) => Settles(a) ==> s.unsettled > 0
  }

  const NOTHING := Absent(Unknown, "")

  function With(s: System, id: nat, t: Task): System {
    s.(tasks := s.tasks[id := t])
  }

  function Do(s: System, step: Step): System
    requires Enabled(s, step)
  {
    match step
    case PollReadsRecord =>
      var f := Finding(NOTHING, None, 0, true, s.record.installed, false);
      With(s, s.nextId, Task(true, RecordRead, f, false)).(nextId := s.nextId + 1)
    case PollCaptures(id) =>
      var t := s.tasks[id];
      With(s, id, t.(phase := Captured, finding := t.finding.(expectSeq := s.entry.mutationSeq), recordAtCapture := s.record.installed))
    case DemandCaptures =>
      var f := Finding(NOTHING, None, s.entry.mutationSeq, false, false, false);
      With(s, s.nextId, Task(false, Captured, f, s.record.installed)).(nextId := s.nextId + 1)
    case ReadingArrives(id, reading) =>
      var t := s.tasks[id];
      var installed := if t.poll then t.finding.installed else s.record.installed;
      var r := Classified(reading, installed);
      With(s, id, t.(phase := if t.poll && r.Temperature? then HasReading else Ready,
                     finding := t.finding.(reading := r, installed := installed)))
    case ChecksVersion(id) =>
      With(s, id, s.tasks[id].(phase := if s.entry.versionProbed then Ready else Asking))
    case VersionArrives(id, version) =>
      var t := s.tasks[id];
      if version.Some? then With(s, id, t.(phase := Ready, finding := t.finding.(version := version, probed := true)))
      else
        var failures := s.entry.probeFailures + 1;
        With(s, id, t.(phase := Ready, finding := t.finding.(probed := failures >= VERSION_PROBE_ATTEMPTS)))
          .(entry := s.entry.(probeFailures := failures))
    case Applies(id, now) =>
      var t := s.tasks[id];
      var e := Applied(s.entry, s.record, t.finding, now);
      var next := if s.entry.mutationSeq == t.finding.expectSeq && t.poll then Logging(TakeSnapshot(e)) else Done;
      With(s, id, t.(phase := next)).(entry := e)
    case Logs(id) =>
      With(s, id, s.tasks[id].(phase := Done)).(entry := Logged(s.entry, s.tasks[id].phase.snapshot))
    case PersistsRecord(record) => s.(record := record, unsettled := s.unsettled + 1)
    case Acts(a) => s.(entry := Acted(s.entry, a), unsettled := if Settles(a) then s.unsettled - 1 else s.unsettled)
  }

  /** A poll starts from the record, before its capture; an on-demand read starts with the capture. */
  lemma TaskBegins(s: System)
    ensures var t := Do(s, PollReadsRecord).tasks[s.nextId];
            && t.poll && t.phase == RecordRead && t.finding.trackHealth && t.finding.installed == s.record.installed
            && t.finding.version == None && !t.finding.probed
    ensures var t := Do(s, DemandCaptures).tasks[s.nextId];
            && !t.poll && t.phase == Captured && !t.finding.trackHealth && t.finding.expectSeq == s.entry.mutationSeq
            && t.finding.version == None && !t.finding.probed && t.recordAtCapture == s.record.installed
  {
  }

  predicate HealthTracked(s: System) {
    forall id :: id in s.tasks ==> (s.tasks[id].finding.trackHealth <==> s.tasks[id].poll)
  }

  lemma StepKeepsHealthTracked(s: System, step: Step)
    requires Enabled(s, step) && HealthTracked(s)
    ensures HealthTracked(Do(s, step))
  {
    hide Acted, Applied, Logged, TakeSnapshot;
  }

  /** A task's way: reading, for a poll that got a temperature the version unless it is known, the fold, for a poll that was folded the log. */
  lemma TaskGoesOn(s: System, step: Step, id: nat)
    requires Enabled(s, step) && id in s.tasks && id < s.nextId
    ensures id in Do(s, step).tasks
    ensures var t, next := s.tasks[id], Do(s, step).tasks[id];
            && next.poll == t.poll && next.finding.trackHealth == t.finding.trackHealth
            && (step.ReadingArrives? && step.id == id ==>
                  next.phase == if t.poll && step.reading.Temperature? then HasReading else Ready)
            && (step.ChecksVersion? && step.id == id ==> next.phase == if s.entry.versionProbed then Ready else Asking)
            && (step.VersionArrives? && step.id == id ==>
                  && next.phase == Ready && (step.version.Some? ==> next.finding.version == step.version)
                  && (next.finding.probed <==> step.version.Some? || s.entry.probeFailures >= 2))
            && (step.Applies? && step.id == id ==>
                  if t.poll && s.entry.mutationSeq == t.finding.expectSeq then next.phase.Logging? else next.phase == Done)
            && (step.Logs? && step.id == id ==> next.phase == Done)
            && (!OwnStep(step, id) && step != PollCaptures(id) ==> next == t)
  {
    hide Acted, Applied, Logged, TakeSnapshot;
  }

  // ---------------------------------------------------------------------------
  // Staleness
  // ---------------------------------------------------------------------------

  /** `steps` is a possible interleaving from `s`. */
  predicate Runs(s: System, steps: seq<Step>)
    decreases |steps|
  {
    steps == [] || (Enabled(s, steps[0]) && Runs(Do(s, steps[0]), steps[1..]))
  }

  function After(s: System, steps: seq<Step>): System
    requires Runs(s, steps)
    decreases |steps|
  {
    if steps == [] then s else After(Do(s, steps[0]), steps[1..])
  }

  function ActionsIn(steps: seq<Step>): nat {
    if steps == [] then 0 else (if steps[0].Acts? then 1 else 0) + ActionsIn(steps[1..])
  }

  /** The sequence number counts operator actions, and nothing else moves it. */
  lemma {:induction false} SequenceCountsActions(s: System, steps: seq<Step>)
    requires Runs(s, steps)
    ensures After(s, steps).entry.mutationSeq == s.entry.mutationSeq + ActionsIn(steps)
    decreases |steps|
  {
    hide Folded, Transition, Mismatch, Enabled;
    if steps != [] {
      StepMovesSequence(s, steps[0]);
      SequenceCountsActions(Do(s, steps[0]), steps[1..]);
    }
  }

  lemma StepMovesSequence(s: System, step: Step)
    requires Enabled(s, step)
    ensures Do(s, step).entry.mutationSeq == s.entry.mutationSeq + (if step.Acts? then 1 else 0)
  {
    hide Classified, Transition, Mismatch, TakeSnapshot;
  }

  predicate Holds(s: System, id: nat) {
    id in s.tasks && !s.tasks[id].phase.RecordRead? && id < s.nextId
  }

  /** Once captured, a task's sequence number never changes. */
  lemma StepKeepsExpectation(s: System, step: Step, id: nat)
    requires Enabled(s, step) && Holds(s, id)
    ensures var t := Do(s, step);
            && Holds(t, id) && t.tasks[id].finding.expectSeq == s.tasks[id].finding.expectSeq
            && t.tasks[id].poll == s.tasks[id].poll && t.tasks[id].recordAtCapture == s.tasks[id].recordAtCapture
  {
    hide Acted, Applied, Logged;
  }

  lemma {:induction false} RunKeepsExpectation(s: System, steps: seq<Step>, id: nat)
    requires Runs(s, steps) && Holds(s, id)
    ensures var t := After(s, steps);
            && Holds(t, id) && t.tasks[id].finding.expectSeq == s.tasks[id].finding.expectSeq
    decreases |steps|
  {
    hide Do, Enabled;
    if steps != [] {
      StepKeepsExpectation(s, steps[0], id);
      RunKeepsExpectation(Do(s, steps[0]), steps[1..], id);
    }
  }

  /** Everything a client is shown, and the failure count: the cache apart from the probe and log bookkeeping. */
  function Shown(e: Entry): Entry {
    e.(probeFailures := 0, loggedMismatch := None, lossReported := false)
  }

  predicate OwnStep(step: Step, id: nat) {
    match step
    case ReadingArrives(i, _) => i == id
    case ChecksVersion(i) => i == id
    case VersionArrives(i, _) => i == id
    case Applies(i, _) => i == id
    case Logs(i) => i == id
    case _ => false
  }

  /**
   * An operator action wins over every reading captured before it. From a state where a task has just captured
   * the sequence number, and whatever happens in between, its reading is folded in if and only if no operator
   * action's block has run since; and once one has, no step of the task touches the state, temperature,
   * version, installed flag or failure count.
   */
  lemma ActionsWinOverEarlierReadings(s: System, steps: seq<Step>, id: nat, now: real)
    requires Runs(s, steps) && Holds(s, id) && s.tasks[id].finding.expectSeq == s.entry.mutationSeq
    ensures var t := After(s, steps);
            id in t.tasks && (t.entry.mutationSeq == t.tasks[id].finding.expectSeq <==> ActionsIn(steps) == 0)
    ensures var t := After(s, steps);
            ActionsIn(steps) > 0 ==>
              forall step :: OwnStep(step, id) && Enabled(t, step) ==> Shown(Do(t, step).entry) == Shown(t.entry)
  {
    hide Do, Enabled, After, Runs;
    SequenceCountsActions(s, steps);
    RunKeepsExpectation(s, steps, id);
    var t := After(s, steps);
    if ActionsIn(steps) > 0 {
      forall step | OwnStep(step, id) && Enabled(t, step) ensures Shown(Do(t, step).entry) == Shown(t.entry) {
        StaleTaskShowsNothing(t, step, id);
      }
    }
  }

  lemma StaleTaskShowsNothing(s: System, step: Step, id: nat)
    requires Enabled(s, step) && OwnStep(step, id) && id in s.tasks
    requires s.tasks[id].finding.expectSeq != s.entry.mutationSeq
    ensures Shown(Do(s, step).entry) == Shown(s.entry)
  {
    hide Folded, Classified, Transition, Mismatch;
  }

  /** What the parser and the verification guarantee: "running" is only ever said with a temperature. */
  predicate Honest(step: Step) {
    && (step.ReadingArrives? && step.reading.Absent? ==> step.reading.status != Running)
    && (step.Acts? && step.action.InstallUnverified? ==> step.action.status != Running)
  }

  /** A reading and its time come and go together, and a running board shows no error. */
  predicate EntryOk(e: Entry) {
    (e.temperature.Some? <==> e.sampledAt.Some?) && (e.status == Running ==> e.error.None?)
  }

  ghost predicate SystemOk(s: System) {
    EntryOk(s.entry) && forall id :: id in s.tasks && s.tasks[id].finding.reading.Absent? ==> s.tasks[id].finding.reading.status != Running
  }

  lemma StepKeepsEntryOk(s: System, step: Step)
    requires SystemOk(s) && Enabled(s, step) && Honest(step)
    ensures SystemOk(Do(s, step))
  {
    hide Acted, Applied, Transition, Mismatch, TakeSnapshot;
    if step.Applies? {
      FoldKeepsEntryOk(s.entry, s.record, s.tasks[step.id].finding, step.now);
    }
    if step.Acts? {
      ActionKeepsEntryOk(s.entry, step.action);
    }
  }

  lemma ActionKeepsEntryOk(e: Entry, a: Action)
    requires EntryOk(e) && (a.InstallUnverified? ==> a.status != Running)
    ensures EntryOk(Acted(e, a))
  {
  }

  lemma FoldKeepsEntryOk(e: Entry, record: Record, f: Finding, now: real)
    requires EntryOk(e) && (f.reading.Absent? ==> f.reading.status != Running)
    ensures EntryOk(Applied(e, record, f, now))
  {
    hide FoldedVersion;
    VersionLeavesReading(e, record, f);
  }

  lemma VersionLeavesReading(e: Entry, record: Record, f: Finding)
    ensures var e1 := FoldedVersion(e, record, f);
            && e1.status == e.status && e1.temperature == e.temperature && e1.sampledAt == e.sampledAt && e1.error == e.error
  {
  }

  /** However polls, reads and operator actions interleave, what the cache shows stays consistent. */
  lemma {:induction false} ShownStateIsConsistent(s: System, steps: seq<Step>)
    requires SystemOk(s) && Runs(s, steps) && forall k :: 0 <= k < |steps| ==> Honest(steps[k])
    ensures EntryOk(After(s, steps).entry)
    decreases |steps|
  {
    hide Do, Enabled, Honest;
    if steps != [] {
      StepKeepsEntryOk(s, steps[0]);
      ShownStateIsConsistent(Do(s, steps[0]), steps[1..]);
    }
  }

  /** What a client is shown once a current finding has been folded. */
  lemma FoldShows(e: Entry, record: Record, f: Finding, now: real)
    requires e.mutationSeq == f.expectSeq
    ensures var r := Applied(e, record, f, now);
            && (match f.reading
                case Temperature(celsius) => r.status == Running && r.temperature == Some(celsius) && r.sampledAt == Some(now) && r.error == None
                case Absent(status, error) =>
                  r.status == status && r.error == Some(error) && r.temperature == e.temperature && r.sampledAt == e.sampledAt)
            && (r.version == if f.version.Some? then f.version
                             else if f.installed && e.version.None? then record.version else e.version)
            && r.failures == (if !f.trackHealth then e.failures else if f.reading.Temperature? then 0 else e.failures + 1)
            && r.installed == f.installed && r.mutationSeq == e.mutationSeq && r.lossReported == e.lossReported
            && (f.reading.Absent? ==> !r.versionProbed && r.probeFailures == 0)
            && (f.reading.Temperature? ==>
                  && r.versionProbed == (e.versionProbed || f.probed)
                  && r.probeFailures == if f.probed then 0 else e.probeFailures)
  {
  }

  /** What a client is shown once an operator action's block has run: nothing learnt before it survives where the action says otherwise. */
  lemma ActionShows(e: Entry, a: Action)
    ensures var r := Acted(e, a);
            && r.mutationSeq == e.mutationSeq + 1
            && (a.Installed? ==>
                  && r.installed && r.version == Some("bundled") && !r.versionProbed && r.probeFailures == r.failures == 0 && !r.lossReported
                  && r.loggedMismatch == None && r.status == e.status && r.temperature == e.temperature && r.error == e.error)
            && (a.InstallVerified? ==>
                  && r.status == Running && r.temperature == Some(a.celsius) && r.sampledAt == Some(a.now) && r.error == None
                  && r.installed == e.installed && r.version == e.version)
            && (a.InstallUnverified? ==>
                  r.status == a.status && r.error == Some(a.error) && r.temperature == e.temperature && r.installed == e.installed)
            && (a.Uninstalled? ==>
                  && !r.installed && r.status == NotInstalled && r.temperature == r.sampledAt == None
                  && r.version == r.error == r.loggedMismatch == None
                  && !r.versionProbed && r.probeFailures == r.failures == 0 && !r.lossReported)
            && (a.InspectedVersion? ==> r == e.(version := Some(a.version), mutationSeq := e.mutationSeq + 1))
  {
  }

  /** A stop is shown at once; a start or restart that took shows a running board still waiting for its first reading. */
  lemma ServiceShows(e: Entry, action: ServiceAction, active: bool)
    ensures var r := Acted(e, Serviced(action, active));
            && r.installed == e.installed && r.version == e.version
            && (action == Stop ==> r.status == Stopped && r.error.Some? && r.temperature == e.temperature && r.failures == e.failures)
            && (action != Stop ==> r.failures == 0 && !r.lossReported)
            && (action != Stop && active ==>
                  r.status == Running && r.temperature == r.sampledAt == None && r.error == None && !r.versionProbed && r.probeFailures == 0)
            && (action != Stop && !active ==> r.status == e.status && r.temperature == e.temperature && r.error == e.error)
  {
  }

  /** Every temperature that was read in these steps, and every time at which something was folded in. */
  function CelsiusIn(steps: seq<Step>): set<real> {
    if steps == [] then {}
    else
      (match steps[0]
       case ReadingArrives(_, Temperature(celsius)) => {celsius}
       case Acts(InstallVerified(celsius, _)) => {celsius}
       case _ => {}) + CelsiusIn(steps[1..])
  }

  function TimesIn(steps: seq<Step>): set<real> {
    if steps == [] then {}
    else
      (match steps[0]
       case Applies(_, now) => {now}
       case Acts(InstallVerified(_, now)) => {now}
       case _ => {}) + TimesIn(steps[1..])
  }

  /** Only temperatures and times from these sets are held anywhere. */
  ghost predicate From(s: System, celsius: set<real>, times: set<real>) {
    && (s.entry.temperature.Some? ==> s.entry.temperature.value in celsius)
    && (s.entry.sampledAt.Some? ==> s.entry.sampledAt.value in times)
    && forall id :: id in s.tasks && s.tasks[id].finding.reading.Temperature? ==> s.tasks[id].finding.reading.celsius in celsius
  }

  lemma FoldIsFrom(e: Entry, record: Record, f: Finding, now: real)
    ensures var r := Applied(e, record, f, now);
            || (r.temperature == e.temperature && r.sampledAt == e.sampledAt)
            || (f.reading.Temperature? && r.temperature == Some(f.reading.celsius) && r.sampledAt == Some(now))
  {
  }

  lemma ActionIsFrom(e: Entry, a: Action)
    ensures var r := Acted(e, a);
            || (r.temperature == e.temperature && r.sampledAt == e.sampledAt)
            || (r.temperature == r.sampledAt == None)
            || (a.InstallVerified? && r.temperature == Some(a.celsius) && r.sampledAt == Some(a.now))
  {
  }

  lemma StepIsFrom(s: System, step: Step, celsius: set<real>, times: set<real>)
    requires Enabled(s, step) && From(s, celsius, times)
    ensures From(Do(s, step), celsius + CelsiusIn([step]), times + TimesIn([step]))
  {
    hide Acted, Applied, Transition, Mismatch, TakeSnapshot;
    assert [step][1..] == [];
    if step.Applies? {
      FoldIsFrom(s.entry, s.record, s.tasks[step.id].finding, step.now);
    }
    if step.Acts? {
      ActionIsFrom(s.entry, step.action);
    }
  }

  lemma {:induction false} RunIsFrom(s: System, steps: seq<Step>, celsius: set<real>, times: set<real>)
    requires Runs(s, steps) && From(s, celsius, times)
    ensures From(After(s, steps), celsius + CelsiusIn(steps), times + TimesIn(steps))
    decreases |steps|
  {
    hide Do, Enabled, From;
    if steps == [] {
      assert celsius + {} == celsius && times + {} == times;
    } else {
      StepIsFrom(s, steps[0], celsius, times);
      var celsius1, times1 := celsius + CelsiusIn([steps[0]]), times + TimesIn([steps[0]]);
      RunIsFrom(Do(s, steps[0]), steps[1..], celsius1, times1);
      assert [steps[0]][1..] == [];
      assert celsius1 + CelsiusIn(steps[1..]) == celsius + CelsiusIn(steps);
      assert times1 + TimesIn(steps[1..]) == times + TimesIn(steps);
    }
  }

  /** However polls, reads and actions interleave, a temperature on show was read, and its time is one at which something was folded in. */
  lemma ShownTemperatureWasRead(steps: seq<Step>)
    requires Runs(FRESH, steps)
    ensures var e := After(FRESH, steps).entry;
            && (e.temperature.Some? ==> e.temperature.value in CelsiusIn(steps))
            && (e.sampledAt.Some? ==> e.sampledAt.value in TimesIn(steps))
  {
    hide Runs, After;
    RunIsFrom(FRESH, steps, {}, {});
    assert {} + CelsiusIn(steps) == CelsiusIn(steps) && {} + TimesIn(steps) == TimesIn(steps);
  }

  /** In every reachable state exactly the polls move the failure count. */
  lemma {:induction false} OnlyPollsTrackHealth(s: System, steps: seq<Step>)
    requires Runs(s, steps) && HealthTracked(s)
    ensures HealthTracked(After(s, steps))
    decreases |steps|
  {
    hide Do, Enabled, HealthTracked;
    if steps != [] {
      StepKeepsHealthTracked(s, steps[0]);
      OnlyPollsTrackHealth(Do(s, steps[0]), steps[1..]);
    }
  }

  // ---------------------------------------------------------------------------
  // What the guard does not cover
  // ---------------------------------------------------------------------------

  /** With no block run and nothing left unsettled, the install record has not been rewritten either. */
  lemma {:induction false} QuietRecord(s: System, steps: seq<Step>, id: nat)
    requires Runs(s, steps) && Holds(s, id) && ActionsIn(steps) == 0
    ensures After(s, steps).unsettled >= s.unsettled
    ensures var t := After(s, steps);
            t.unsettled == s.unsettled ==>
              && t.record == s.record && Holds(t, id)
              && (if !s.tasks[id].poll && s.tasks[id].phase.Captured? && !t.tasks[id].phase.Captured?
                  then t.tasks[id].finding.installed == s.record.installed
                  else t.tasks[id].finding.installed == s.tasks[id].finding.installed)
              && (t.tasks[id].phase.Captured? ==> s.tasks[id].phase.Captured?)
    decreases |steps|
  {
    hide Do, Enabled;
    if steps != [] {
      QuietStep(s, steps[0], id);
      QuietRecord(Do(s, steps[0]), steps[1..], id);
    }
  }

  lemma QuietStep(s: System, step: Step, id: nat)
    requires Enabled(s, step) && Holds(s, id) && !step.Acts?
    ensures var t := Do(s, step);
            && t.unsettled >= s.unsettled && (t.unsettled == s.unsettled ==> t.record == s.record)
            && Holds(t, id) && t.tasks[id].poll == s.tasks[id].poll
            && (t.tasks[id].phase.Captured? ==> s.tasks[id].phase.Captured?)
            && (if !s.tasks[id].poll && s.tasks[id].phase.Captured? && !t.tasks[id].phase.Captured?
                then t.tasks[id].finding.installed == s.record.installed
                else t.tasks[id].finding.installed == s.tasks[id].finding.installed)
  {
    hide Acted, Applied, Logged, TakeSnapshot, Classified;
  }

  /**
   * The installed flag. A poll reads the install record before it captures the sequence number, so the guard
   * does not cover a change in between: when its finding is folded with no operator action half done, the
   * cached flag agrees with the record exactly if the record still said at the capture what the poll had read.
   */
  lemma PolledInstallFlagIsCurrentIff(s: System, steps: seq<Step>, id: nat, now: real)
    requires Runs(s, steps) && Holds(s, id) && s.tasks[id].poll
    requires s.tasks[id].finding.expectSeq == s.entry.mutationSeq && s.tasks[id].recordAtCapture == s.record.installed
    requires ActionsIn(steps) == 0 && After(s, steps).unsettled == s.unsettled == 0
    requires At(After(s, steps), id, Ready)
    ensures var t := After(s, steps);
            Do(t, Applies(id, now)).entry.installed == t.record.installed <==>
            s.tasks[id].finding.installed == s.tasks[id].recordAtCapture
  {
    hide Runs, After, ActionsIn, FoldedReading;
    QuietRecord(s, steps, id);
    SequenceCountsActions(s, steps);
    RunKeepsExpectation(s, steps, id);
    FoldKeepsInstalled(After(s, steps).entry, After(s, steps).record, After(s, steps).tasks[id].finding, now);
  }

  lemma FoldKeepsInstalled(e: Entry, record: Record, f: Finding, now: real)
    requires e.mutationSeq == f.expectSeq
    ensures Applied(e, record, f, now).installed == f.installed
  {
  }

  /** An on-demand read looks at the record after the capture, and so never folds a stale flag. */
  lemma DemandInstallFlagIsCurrent(s: System, steps: seq<Step>, id: nat, now: real)
    requires Runs(s, steps) && Holds(s, id) && !s.tasks[id].poll && s.tasks[id].phase == Captured
    requires s.tasks[id].finding.expectSeq == s.entry.mutationSeq
    requires ActionsIn(steps) == 0 && After(s, steps).unsettled == s.unsettled == 0
    requires At(After(s, steps), id, Ready)
    ensures var t := After(s, steps);
            Do(t, Applies(id, now)).entry.installed == t.record.installed
  {
    hide Runs, After, ActionsIn, FoldedReading;
    QuietRecord(s, steps, id);
    SequenceCountsActions(s, steps);
    RunKeepsExpectation(s, steps, id);
    FoldKeepsInstalled(After(s, steps).entry, After(s, steps).record, After(s, steps).tasks[id].finding, now);
  }

  /** An operator action has run since the task captured the sequence number. */
  predicate Stale(s: System, id: nat) {
    id in s.tasks && s.tasks[id].finding.expectSeq != s.entry.mutationSeq
  }

  predicate IsUnanswered(step: Step) {
    step.VersionArrives? && step.version.None?
  }

  /**
   * The count of unanswered version probes is not covered by the guard: of everything a stale task still does,
   * exactly an unanswered probe moves it, by one.
   */
  lemma StaleTaskCountsIffUnanswered(s: System, step: Step, id: nat)
    requires Enabled(s, step) && OwnStep(step, id) && Stale(s, id)
    ensures Do(s, step).entry.probeFailures != s.entry.probeFailures <==> IsUnanswered(step)
    ensures IsUnanswered(step) ==> Do(s, step).entry == s.entry.(probeFailures := s.entry.probeFailures + 1)
  {
    hide Folded, Classified, Transition, Mismatch;
  }

  /** The steps that start the count over. */
  predicate StartsOver(s: System, step: Step)
    requires Enabled(s, step)
  {
    match step
    case Applies(id, _) => !Stale(s, id) && (s.tasks[id].finding.probed || s.tasks[id].finding.reading.Absent?)
    case Acts(a) => a.Installed? || a.Uninstalled? || (a.Serviced? && a.action != Stop && a.active)
    case _ => false
  }

  lemma StepCounts(s: System, step: Step)
    requires Enabled(s, step)
    ensures Do(s, step).entry.probeFailures ==
            if StartsOver(s, step) then 0 else s.entry.probeFailures + if IsUnanswered(step) then 1 else 0
  {
    hide Classified, Transition, Mismatch, TakeSnapshot;
  }

  predicate KeepsCounting(s: System, steps: seq<Step>)
    requires Runs(s, steps)
    decreases |steps|
  {
    steps == [] || (!StartsOver(s, steps[0]) && KeepsCounting(Do(s, steps[0]), steps[1..]))
  }

  /** Unanswered probes along a run: those of stale tasks, or those of current ones. */
  function Unanswered(s: System, steps: seq<Step>, stale: bool): nat
    requires Runs(s, steps)
    decreases |steps|
  {
    if steps == [] then 0
    else
      (if IsUnanswered(steps[0]) && Stale(s, steps[0].id) == stale then 1 else 0) + Unanswered(Do(s, steps[0]), steps[1..], stale)
  }

  lemma {:induction false} CountIsAllUnanswered(s: System, steps: seq<Step>)
    requires Runs(s, steps) && KeepsCounting(s, steps)
    ensures After(s, steps).entry.probeFailures ==
            s.entry.probeFailures + Unanswered(s, steps, false) + Unanswered(s, steps, true)
    decreases |steps|
  {
    hide Do, Enabled, StartsOver;
    if steps != [] {
      StepCounts(s, steps[0]);
      CountIsAllUnanswered(Do(s, steps[0]), steps[1..]);
    }
  }

  /**
   * When a probe is given up: since the count last started over, an unanswered probe is the last exactly when two
   * more went unanswered - stale ones among them, each of which costs the current probe one of its attempts.
   */
  lemma GivenUpExactlyWhen(s: System, steps: seq<Step>, id: nat)
    requires Runs(s, steps) && KeepsCounting(s, steps) && s.entry.probeFailures == 0
    requires Enabled(After(s, steps), VersionArrives(id, None))
    ensures Do(After(s, steps), VersionArrives(id, None)).tasks[id].finding.probed <==>
            Unanswered(s, steps, false) + Unanswered(s, steps, true) >= 2
  {
    hide After, Runs, KeepsCounting;
    CountIsAllUnanswered(s, steps);
  }

  const FRESH := System(FRESH_ENTRY, Record(false, None), 0, map[], 0)

  ghost predicate Reached(s: System) {
    exists steps :: Runs(FRESH, steps) && After(FRESH, steps) == s
  }

  lemma {:induction false} RunExtends(s: System, steps: seq<Step>, step: Step)
    requires Runs(s, steps) && Enabled(After(s, steps), step)
    ensures Runs(s, steps + [step]) && After(s, steps + [step]) == Do(After(s, steps), step)
    decreases |steps|
  {
    hide Do, Enabled;
    if steps == [] {
      assert [] + [step] == [step] && [step][1..] == [];
    } else {
      assert (steps + [step])[1..] == steps[1..] + [step];
      RunExtends(Do(s, steps[0]), steps[1..], step);
    }
  }

  lemma Play(s: System, step: Step) returns (s1: System)
    requires Reached(s) && Enabled(s, step)
    ensures s1 == Do(s, step) && Reached(s1)
  {
    var steps :| Runs(FRESH, steps) && After(FRESH, steps) == s;
    RunExtends(FRESH, steps, step);
    s1 := Do(s, step);
  }

  lemma FreshIsReached()
    ensures Reached(FRESH)
  {
    assert Runs(FRESH, []) && After(FRESH, []) == FRESH;
  }

  /** An uninstall between the poll's two looks is undone in the cache: the board shows as installed, its record says not. */
  lemma UninstallCanBeUndone()
    ensures exists s :: Reached(s) && s.unsettled == 0 && !s.record.installed && s.entry.installed && s.entry.status == Stopped
  {
    hide Reached;
    FreshIsReached();
    var s := FRESH;
    s := Play(s, PersistsRecord(Record(true, Some("bundled"))));
    s := Play(s, Acts(Installed));
    s := Play(s, PollReadsRecord);
    s := Play(s, PersistsRecord(Record(false, None)));
    s := Play(s, Acts(Uninstalled));
    s := Play(s, PollCaptures(0));
    s := Play(s, ReadingArrives(0, Absent(Stopped, "connection refused")));
    s := Play(s, Applies(0, 1.0));
    assert !s.record.installed && s.entry.installed && s.entry.status == Stopped;
  }

  /** A restart asks for a fresh version probe, yet an unanswered probe from before it already counts against that one. */
  lemma StaleProbeStillCounts()
    ensures exists s, id :: Reached(s) && id in s.tasks && s.tasks[id].finding.expectSeq != s.entry.mutationSeq
              && s.entry.probeFailures == 1 && Enabled(s, Applies(id, 1.0)) && Do(s, Applies(id, 1.0)).entry.probeFailures == 1
  {
    hide Reached;
    FreshIsReached();
    var s := FRESH;
    s := Play(s, PollReadsRecord);
    s := Play(s, PollCaptures(0));
    s := Play(s, ReadingArrives(0, Temperature(40.0)));
    s := Play(s, ChecksVersion(0));
    s := Play(s, Acts(Serviced(Restart, true)));
    s := Play(s, VersionArrives(0, None));
    assert Enabled(s, Applies(0, 1.0)) && s.entry.probeFailures == 1 && Do(s, Applies(0, 1.0)).entry.probeFailures == 1;
  }

  // ---------------------------------------------------------------------------
  // Loss events over poll-only runs
  // ---------------------------------------------------------------------------

  /** One undisturbed poll: its reading, what the version probe came to, and the record it saw. */
  datatype Poll = Poll(reading: Reading, version: Option<string>, probed: bool, record: Record, now: real)

  function PollFinding(e: Entry, p: Poll): Finding {
    Finding(Classified(p.reading, p.record.installed), p.version, e.mutationSeq, true, p.record.installed, p.probed)
  }

  /** Fold, then log: the entry after the poll and the event it emits, if any. */
  function PollOnce(e: Entry, p: Poll): (Entry, Option<LossEvent>) {
    var e1 := Applied(e, p.record, PollFinding(e, p), p.now);
    (Logged(e1, TakeSnapshot(e1)), Transition(TakeSnapshot(e1)))
  }

  function EntryAfter(polls: seq<Poll>): Entry {
    if polls == [] then FRESH_ENTRY else PollOnce(EntryAfter(polls[..|polls| - 1]), polls[|polls| - 1]).0
  }

  function Emitted(polls: seq<Poll>): seq<LossEvent> {
    if polls == [] then []
    else
      var earlier, event := polls[..|polls| - 1], PollOnce(EntryAfter(polls[..|polls| - 1]), polls[|polls| - 1]).1;
      Emitted(earlier) + (if event.Some? then [event.value] else [])
  }

  /** Polls since the last temperature. */
  function Streak(polls: seq<Poll>): nat {
    if polls == [] || polls[|polls| - 1].reading.Temperature? then 0 else Streak(polls[..|polls| - 1]) + 1
  }

  /** An absent reading never says "running". */
  predicate WellRead(polls: seq<Poll>) {
    forall k :: 0 <= k < |polls| ==> polls[k].reading.Absent? ==> polls[k].reading.status != Running
  }

  lemma OnePoll(e: Entry, p: Poll)
    requires p.reading.Absent? ==> p.reading.status != Running
    ensures var (next, event) := PollOnce(e, p);
            if p.reading.Temperature? then
              next.failures == 0 && !next.lossReported && event == (if e.lossReported then Some(Recovered) else None)
            else
              && next.failures == e.failures + 1
              && (next.lossReported <==> e.lossReported || next.failures == SUSTAINED_LOSS_POLLS)
              && (event.Some? <==> next.failures == SUSTAINED_LOSS_POLLS && !e.lossReported)
              && (event.Some? ==> event.value.Unavailable?)
  {
    hide FoldedVersion;
    VersionLeavesCounters(e, p.record, PollFinding(e, p));
  }

  lemma VersionLeavesCounters(e: Entry, record: Record, f: Finding)
    ensures var e1 := FoldedVersion(e, record, f);
            e1.failures == e.failures && e1.lossReported == e.lossReported
  {
  }

  lemma {:induction false} CountersFollowStreak(polls: seq<Poll>)
    requires WellRead(polls)
    ensures EntryAfter(polls).failures == Streak(polls)
    ensures EntryAfter(polls).lossReported <==> Streak(polls) >= SUSTAINED_LOSS_POLLS
    decreases |polls|
  {
    hide PollOnce;
    if polls != [] {
      var earlier := polls[..|polls| - 1];
      CountersFollowStreak(earlier);
      OnePoll(EntryAfter(earlier), polls[|polls| - 1]);
    }
  }

  /**
   * Loss is reported once per outage: an "unavailable" goes out exactly at the third failure in a row, a
   * "recovered" exactly at the first temperature after three or more.
   */
  lemma EventExactlyWhen(polls: seq<Poll>)
    requires WellRead(polls) && polls != []
    ensures var event := PollOnce(EntryAfter(polls[..|polls| - 1]), polls[|polls| - 1]).1;
            && (event.Some? && event.value.Unavailable? <==> Streak(polls) == 3)
            && (event == Some(Recovered) <==> Streak(polls) == 0 && Streak(polls[..|polls| - 1]) >= 3)
  {
    hide PollOnce;
    var earlier := polls[..|polls| - 1];
    CountersFollowStreak(earlier);
    OnePoll(EntryAfter(earlier), polls[|polls| - 1]);
  }

  /** "unavailable" and "recovered" strictly alternate, starting with "unavailable". */
  lemma {:induction false} EventsAlternate(polls: seq<Poll>)
    requires WellRead(polls)
    ensures forall k :: 0 <= k < |Emitted(polls)| ==> (Emitted(polls)[k].Unavailable? <==> k % 2 == 0)
    ensures |Emitted(polls)| % 2 == 1 <==> Streak(polls) >= SUSTAINED_LOSS_POLLS
    decreases |polls|
  {
    hide PollOnce;
    if polls != [] {
      EventsAlternate(polls[..|polls| - 1]);
      EventExactlyWhen(polls);
    }
  }
}
