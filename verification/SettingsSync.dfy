/**
 * Keeping the persisted settings in step with the device: the gateway's own writes, the
 * echo of those writes, changes made by other clients, and the replay at connect
 * (linien-gateway/app/session.py, with the change queue of linien_sim/parameters.py).
 * A server-side write is two steps, store and announce, because the setter holds no lock
 * and the server runs one thread per client.
 */
module SettingsSync {
  import opened Common
  import opened ParameterServer

  /** `pending`: gateway writes whose echo has not come back. `snapshot`: the settings as persisted. */
  datatype Books = Books(pending: map<Name, Value>, snapshot: map<Name, Value>)

  datatype Device = Device(specs: map<Name, Spec>, persistent: set<Name>)

  /** One change delivered to the gateway. An echo of the gateway's own write is only ticked off. */
  function Adopted(persistent: set<Name>, b: Books, name: Name, value: Value): Books {
    if name !in persistent then b
    else if name in b.pending && b.pending[name] == value then b.(pending := b.pending - {name})
    else Books(b.pending - {name}, b.snapshot[name := value])
  }

  function AdoptedAll(persistent: set<Name>, b: Books, batch: seq<Change>): Books
    decreases |batch|
  {
    if batch == [] then b
    else AdoptedAll(persistent, Adopted(persistent, b, batch[0].name, batch[0].value), batch[1..])
  }

  function WriteBegun(persistent: set<Name>, b: Books, name: Name, value: Value): Books {
    if name in persistent then b.(pending := b.pending[name := value]) else b
  }

  function WriteDone(persistent: set<Name>, b: Books, name: Name, value: Value): Books {
    if name in persistent then b.(snapshot := b.snapshot[name := value]) else b
  }

  function WriteFailed(b: Books, name: Name): Books {
    b.(pending := b.pending - {name})
  }

  class PersistentSettings {
    const persistent: set<Name>
    var pending: map<Name, Value>
    var snapshot: map<Name, Value>
    var replayActive: bool

    ghost function Value(): Books
      reads this
    {
      Books(pending, snapshot)
    }

    constructor (persistent: set<Name>, snapshot: map<Name, Value>)
      ensures this.persistent == persistent && Value() == Books(map[], snapshot) && !replayActive
    {
      this.persistent, this.snapshot, pending, replayActive := persistent, snapshot, map[], false;
    }

    method UpdatePersistentSetting(name: Name, value: Value) returns (changed: bool)
      modifies this`snapshot
      ensures Value() == WriteDone(persistent, old(Value()), name, value)
      ensures changed <==> snapshot != old(snapshot)
    {
      if name !in persistent || (name in snapshot && snapshot[name] == value) {
        assert name in snapshot ==> snapshot == snapshot[name := snapshot[name]];
        return false;
      }
      ghost var was := snapshot;
      snapshot := snapshot[name := value];
      assert name in was ==> snapshot[name] != was[name];
      return true;
    }

    /** `delivered`: whether the remote assignment came back without raising. */
    method SetParam(name: Name, value: Value, delivered: bool)
      modifies this`pending, this`snapshot
      ensures var begun := WriteBegun(persistent, old(Value()), name, value);
              Value() == if delivered then WriteDone(persistent, begun, name, value) else WriteFailed(begun, name)
    {
      if name in persistent {
        pending := pending[name := value];
      }
      if !delivered {
        pending := pending - {name};
        return;
      }
      var _ := UpdatePersistentSetting(name, value);
    }

    method AdoptChange(name: Name, value: Value)
      modifies this`pending, this`snapshot
      ensures Value() == if replayActive then old(Value()) else Adopted(persistent, old(Value()), name, value)
    {
      if replayActive || name !in persistent {
        return;
      }
      if name in pending {
        var ours := pending[name];
        pending := pending - {name};
        if ours == value {
          return;
        }
      }
      var _ := UpdatePersistentSetting(name, value);
      assert pending == old(pending) - {name};
    }

    method ApplyBatch(batch: seq<Change>)
      requires !replayActive
      modifies this`pending, this`snapshot
      ensures Value() == AdoptedAll(persistent, old(Value()), batch)
    {
      var k := 0;
      while k < |batch|
        invariant 0 <= k <= |batch|
        invariant AdoptedAll(persistent, Value(), batch[k..]) == AdoptedAll(persistent, old(Value()), batch)
      {
        assert batch[k..][1..] == batch[k + 1..];
        AdoptChange(batch[k].name, batch[k].value);
        k := k + 1;
      }
      assert batch[k..] == [];
    }
  }

  // ---------------------------------------------------------------------------
  // The whole system, one step at a time
  // ---------------------------------------------------------------------------

  /** A server thread serving one write: it stores the clamped value, then tells the listeners. */
  datatype Writer = Writer(name: Name, value: Value, stored: bool)

  datatype Phase = Idle | Writing(id: nat, name: Name, value: Value, replay: bool)

  datatype Stage = Replaying | Registering | Polling

  datatype Write = Write(writer: nat, value: Value)

  /**
   * `announced` is history: the value last put in the queue for each parameter. `raced` is history
   * too: parameters stored by one writer while another had stored but not yet announced. So are the last write
   * stored and the last one announced, per parameter.
   */
  datatype Sync = Sync(
    server: map<Name, Value>,
    writers: map<nat, Writer>,
    nextId: nat,
    queue: seq<Change>,
    announced: map<Name, Value>,
    raced: set<Name>,
    lastStored: map<Name, Write>,
    lastAnnounced: map<Name, Write>,
    stage: Stage,
    registered: set<Name>,
    phase: Phase,
    batch: seq<Change>,
    books: Books)

  datatype Step =
    | OtherClientWrites(name: Name, value: Value)
    | Store(id: nat)
    | Announce(id: nat)
    | SetParamBegins(name: Name, value: Value)
    | ReplayBegins(name: Name, value: Value)
    | WriteReturns
    | WriteRaises
    | SeedSnapshot(values: map<Name, Value>)
    | ReplayEnds
    | RegisterCallback(name: Name, cached: Value)
    | StartPolling
    | Fetch
    | ApplyOne

  predicate Enabled(d: Device, s: Sync, step: Step) {
    match step
    case OtherClientWrites(name, _) => name in d.specs
    case Store(id) => id in s.writers && !s.writers[id].stored && s.writers[id].name in d.specs
    case Announce(id) => id in s.writers && s.writers[id].stored && s.writers[id].name in d.specs
    case SetParamBegins(name, _) => s.phase.Idle? && s.batch == [] && name in d.specs
    case ReplayBegins(name, _) => s.stage.Replaying? && s.phase.Idle? && name in d.persistent
    case WriteReturns => s.phase.Writing? && s.phase.id !in s.writers
    case WriteRaises => s.phase.Writing? && !s.phase.replay
    case SeedSnapshot(values) => s.stage.Replaying? && s.phase.Idle?
    case ReplayEnds => s.stage.Replaying? && s.phase.Idle?
    case RegisterCallback(name, _) => s.stage.Registering?
    case StartPolling => s.stage.Registering? && d.persistent <= s.registered
    case Fetch => s.stage.Polling? && s.phase.Idle? && s.batch == []
    case ApplyOne => s.batch != []
  }

  function Collapsed(d: Device): set<Name> {
    set n | n in d.specs && d.specs[n].collapsed
  }

  function Do(d: Device, s: Sync, step: Step): Sync
    requires Enabled(d, s, step)
  {
    match step
    case OtherClientWrites(name, value) =>
      s.(writers := s.writers[s.nextId := Writer(name, value, false)], nextId := s.nextId + 1)
    case Store(id) =>
      var w := s.writers[id];
      s.(server := s.server[w.name := Stored(d.specs[w.name], w.value)],
         writers := s.writers[id := w.(stored := true)],
         lastStored := s.lastStored[w.name := Write(id, Stored(d.specs[w.name], w.value))],
         raced := if Unannounced(s, w.name) then s.raced + {w.name} else s.raced)
    case Announce(id) =>
      var w := s.writers[id];
      var v := Stored(d.specs[w.name], w.value);
      s.(queue := s.queue + [Change(w.name, v)], announced := s.announced[w.name := v], writers := s.writers - {id},
         lastAnnounced := s.lastAnnounced[w.name := Write(id, v)])
    case SetParamBegins(name, value) =>
      s.(writers := s.writers[s.nextId := Writer(name, value, false)], nextId := s.nextId + 1,
         phase := Writing(s.nextId, name, value, false), books := WriteBegun(d.persistent, s.books, name, value))
    case ReplayBegins(name, value) =>
      s.(writers := s.writers[s.nextId := Writer(name, value, false)], nextId := s.nextId + 1,
         phase := Writing(s.nextId, name, value, true))
    case WriteReturns =>
      var p := s.phase;
      s.(phase := Idle,
         books := if p.replay then WriteBegun(d.persistent, s.books, p.name, p.value)
                  else WriteDone(d.persistent, s.books, p.name, p.value))
    case WriteRaises => s.(phase := Idle, books := WriteFailed(s.books, s.phase.name))
    case SeedSnapshot(values) => s.(books := s.books.(snapshot := values))
    case ReplayEnds => s.(stage := Registering)
    case RegisterCallback(name, cached) =>
      s.(registered := s.registered + {name}, books := Adopted(d.persistent, s.books, name, cached))
    case StartPolling => s.(stage := Polling)
    case Fetch => s.(batch := Collapse(Collapsed(d), s.queue), queue := [])
    case ApplyOne =>
      s.(batch := s.batch[1..], books := Adopted(d.persistent, s.books, s.batch[0].name, s.batch[0].value))
  }

  /** A write of `name` has been stored but not announced. */
  predicate Unannounced(s: Sync, name: Name) {
    exists id :: id in s.writers && s.writers[id].stored && s.writers[id].name == name
  }

  function Underway(s: Sync): seq<Change> {
    s.batch + s.queue
  }

  // ---------------------------------------------------------------------------
  // Invariant
  // ---------------------------------------------------------------------------

  predicate Clash(a: Writer, b: Writer) {
    a.stored && b.stored && a.name == b.name
  }

  ghost predicate ServerOk(d: Device, s: Sync) {
    && s.server.Keys == s.announced.Keys == d.specs.Keys
    && d.persistent <= d.specs.Keys
    && (forall id :: id in s.writers ==> id < s.nextId && s.writers[id].name in d.specs)
    && (forall id :: id in s.writers && s.writers[id].stored && s.writers[id].name !in s.raced ==>
          s.server[s.writers[id].name] == Stored(d.specs[s.writers[id].name], s.writers[id].value))
    && (forall a, b :: a in s.writers && b in s.writers && Clash(s.writers[a], s.writers[b]) ==>
          a == b || s.writers[a].name in s.raced)
    && (forall n :: n in d.specs && n !in s.raced && !Unannounced(s, n) ==> s.announced[n] == s.server[n])
  }

  /** What is still on its way ends, per parameter, with the value last announced. */
  ghost predicate QueueOk(d: Device, s: Sync)
    requires s.announced.Keys == d.specs.Keys
  {
    && (forall n :: n in d.specs && Latest(Underway(s), n).Some? ==> Latest(Underway(s), n) == Some(s.announced[n]))
    && (!s.stage.Polling? ==> s.batch == [] && forall n :: n in d.specs ==> Latest(s.queue, n).Some?)
  }

  ghost predicate PhaseOk(d: Device, s: Sync) {
    s.phase.Writing? ==>
      && s.batch == [] && s.phase.name in d.specs && s.phase.id < s.nextId
      && (s.phase.replay ==> s.stage.Replaying?)
      && (s.phase.id in s.writers ==> s.writers[s.phase.id].name == s.phase.name)
      && (s.phase.id !in s.writers ==> Latest(s.queue, s.phase.name).Some?)
  }

  predicate BeingWritten(s: Sync, name: Name) {
    s.phase.Writing? && !s.phase.replay && s.phase.name == name
  }

  /** What the gateway's books say about one persistent parameter. */
  predicate BookOk(s: Sync, n: Name)
    requires n in s.announced
  {
    var b := s.books;
    // A write still owed its echo is what the snapshot holds.
    && (n in b.pending && BeingWritten(s, n) ==> b.pending[n] == s.phase.value)
    && (n in b.pending && !BeingWritten(s, n) && n in s.registered ==>
          n in b.snapshot && b.snapshot[n] == b.pending[n])
    // Nothing on its way: the snapshot already holds the value last announced.
    && (s.stage.Polling? && Latest(Underway(s), n).None? ==>
          && n in b.snapshot && b.snapshot[n] == s.announced[n]
          && (n in b.pending ==> BeingWritten(s, n)))
  }

  ghost predicate BooksOk(d: Device, s: Sync)
    requires s.announced.Keys == d.specs.Keys && d.persistent <= d.specs.Keys
  {
    && s.books.pending.Keys <= d.persistent
    && (s.stage.Polling? ==> d.persistent <= s.registered)
    && (s.stage.Replaying? ==> s.registered == {})
    && (forall n :: n in d.persistent ==> BookOk(s, n))
  }

  ghost predicate Inv(d: Device, s: Sync) {
    ServerOk(d, s) && QueueOk(d, s) && PhaseOk(d, s) && BooksOk(d, s)
  }

  /** The state the moment the change listeners are registered: each parameter's value waits in the queue. */
  ghost predicate Connected(d: Device, s: Sync) {
    && s.server.Keys == d.specs.Keys && d.persistent <= d.specs.Keys && s.announced == s.server
    && s.writers == map[] && s.raced == {} && s.lastStored == s.lastAnnounced == map[] && s.stage.Replaying? && s.registered == {} && s.phase.Idle?
    && s.batch == [] && s.books.pending == map[]
    && (forall n :: n in d.specs ==> Latest(s.queue, n) == Some(s.server[n]))
  }

  lemma ConnectedIsInv(d: Device, s: Sync)
    requires Connected(d, s)
    ensures Inv(d, s)
  {
    forall n | n in d.specs ensures Latest(Underway(s), n) == Latest(s.queue, n) {
      assert Underway(s) == s.queue;
    }
  }

  lemma LatestOfAppend(queue: seq<Change>, c: Change, n: Name)
    ensures Latest(queue + [c], n) == if n == c.name then Some(c.value) else Latest(queue, n)
  {
    assert (queue + [c])[..|queue|] == queue;
  }

  /** Steps that neither store nor announce leave the server side as it was, but for new writers. */
  lemma ServerFrame(d: Device, s: Sync, t: Sync)
    requires ServerOk(d, s)
    requires t.server == s.server && t.announced == s.announced && t.raced == s.raced && t.nextId >= s.nextId
    requires forall id :: id in s.writers ==> id in t.writers && t.writers[id] == s.writers[id]
    requires forall id :: id in t.writers && id !in s.writers ==>
               id < t.nextId && !t.writers[id].stored && t.writers[id].name in d.specs
    ensures ServerOk(d, t)
  {
    hide Stored;
    forall n | Unannounced(s, n) ensures Unannounced(t, n) {
      var id :| id in s.writers && s.writers[id].stored && s.writers[id].name == n;
      assert t.writers[id].stored;
    }
  }

  lemma StoreStep(d: Device, s: Sync, id: nat)
    requires ServerOk(d, s) && Enabled(d, s, Store(id))
    ensures ServerOk(d, Do(d, s, Store(id)))
  {
    hide Stored, Unannounced;
    var t := Do(d, s, Store(id));
    var name := s.writers[id].name;
    assert Unannounced(t, name) by {
      IsUnannounced(t, id);
    }
    forall a | a in s.writers && s.writers[a].stored ensures Unannounced(s, s.writers[a].name) {
      IsUnannounced(s, a);
    }
    forall n | Unannounced(s, n) ensures Unannounced(t, n) {
      var other := AnUnannounced(s, n);
      IsUnannounced(t, other);
    }
  }

  lemma IsUnannounced(s: Sync, id: nat)
    requires id in s.writers && s.writers[id].stored
    ensures Unannounced(s, s.writers[id].name)
  {
  }

  lemma AnUnannounced(s: Sync, n: Name) returns (id: nat)
    requires Unannounced(s, n)
    ensures id in s.writers && s.writers[id].stored && s.writers[id].name == n
  {
    id :| id in s.writers && s.writers[id].stored && s.writers[id].name == n;
  }

  lemma AnnounceStep(d: Device, s: Sync, id: nat)
    requires ServerOk(d, s) && Enabled(d, s, Announce(id))
    ensures ServerOk(d, Do(d, s, Announce(id)))
  {
    hide Stored, Unannounced;
    var t := Do(d, s, Announce(id));
    forall n | Unannounced(s, n) && n != s.writers[id].name ensures Unannounced(t, n) {
      var other := AnUnannounced(s, n);
      IsUnannounced(t, other);
    }
  }

  lemma ServerSteps(d: Device, s: Sync, step: Step)
    requires ServerOk(d, s) && Enabled(d, s, step) && d.persistent <= d.specs.Keys
    requires forall id :: id in s.writers ==> id < s.nextId
    ensures ServerOk(d, Do(d, s, step))
  {
    hide ServerOk, Stored, Collapse, Adopted, WriteBegun, WriteDone, WriteFailed;
    match step
    case Store(id) => StoreStep(d, s, id);
    case Announce(id) => AnnounceStep(d, s, id);
    case _ => ServerFrame(d, s, Do(d, s, step));
  }

  /** What one step does to the newest change on its way for each parameter. */
  lemma LatestAfter(d: Device, s: Sync, step: Step, n: Name)
    requires Enabled(d, s, step)
    ensures var t := Do(d, s, step);
            var before, after := Latest(Underway(s), n), Latest(Underway(t), n);
            match step
            case Announce(id) => after == if n == s.writers[id].name then Some(t.announced[n]) else before
            case ApplyOne => before == if after.Some? then after else
                                       if s.batch[0].name == n then Some(s.batch[0].value) else None
            case _ => after == before
    ensures step.Announce? ==>
              var t := Do(d, s, step);
              Latest(t.queue, n) == if n == s.writers[step.id].name then Some(t.announced[n]) else Latest(s.queue, n)
    ensures !step.Announce? && !step.Fetch? ==> Do(d, s, step).queue == s.queue
  {
    hide Stored, Adopted, WriteBegun, WriteDone, WriteFailed, Latest;
    var t := Do(d, s, step);
    match step
    case Announce(id) =>
      var c := Change(s.writers[id].name, Stored(d.specs[s.writers[id].name], s.writers[id].value));
      assert Underway(t) == Underway(s) + [c];
      LatestOfAppend(Underway(s), c, n);
      LatestOfAppend(s.queue, c, n);
    case ApplyOne =>
      assert Underway(s) == [s.batch[0]] + Underway(t);
      LatestOfPrepend(s.batch[0], Underway(t), n);
    case Fetch =>
      assert Underway(s) == s.queue && Underway(t) == t.batch;
      CollapseKeepsLatest(Collapsed(d), s.queue, n);
    case _ =>
      assert Underway(t) == Underway(s);
  }

  lemma QueueSteps(d: Device, s: Sync, step: Step)
    requires Inv(d, s) && Enabled(d, s, step) && ServerOk(d, Do(d, s, step))
    ensures QueueOk(d, Do(d, s, step))
  {
    hide Latest, Stored, Unannounced, BooksOk, PhaseOk, Collapse, Underway, Adopted, WriteBegun, WriteDone, WriteFailed;
    var t := Do(d, s, step);
    forall n | n in d.specs
      ensures Latest(Underway(t), n).Some? ==> Latest(Underway(t), n) == Some(t.announced[n])
      ensures !t.stage.Polling? ==> Latest(t.queue, n).Some?
    {
      LatestAfter(d, s, step, n);
    }
  }

  lemma PhaseSteps(d: Device, s: Sync, step: Step)
    requires Inv(d, s) && Enabled(d, s, step) && d.persistent <= d.specs.Keys
    requires forall id :: id in s.writers ==> id < s.nextId
    ensures PhaseOk(d, Do(d, s, step))
  {
    hide Latest, Stored, ServerOk, BooksOk, Collapse, Underway, Adopted, WriteBegun, WriteDone, WriteFailed;
    var t := Do(d, s, step);
    if t.phase.Writing? {
      LatestAfter(d, s, step, t.phase.name);
    }
  }

  /** Server threads and the gateway's own writes. */
  lemma WriteStepsKeepBook(d: Device, s: Sync, step: Step, n: Name)
    requires Inv(d, s) && Enabled(d, s, step) && n in d.persistent && n in Do(d, s, step).announced
    requires !step.ApplyOne? && !step.Fetch? && !step.RegisterCallback? && !step.StartPolling?
    ensures BookOk(Do(d, s, step), n)
  {
    hide Latest, Stored, Collapse, Underway, Unannounced, Mentions, Adopted, ServerOk;
    AnnouncedKeys(d, s);
    LatestAfter(d, s, step, n);
    assert BookOk(s, n);
    if s.batch == [] {
      ConnectingQueue(s);
    }
  }

  /** Changes reaching the gateway: adopting them, or starting to. */
  lemma AdoptStepsKeepBook(d: Device, s: Sync, step: Step, n: Name)
    requires Inv(d, s) && Enabled(d, s, step) && n in d.persistent && n in Do(d, s, step).announced
    requires step.ApplyOne? || step.Fetch? || step.RegisterCallback? || step.StartPolling?
    ensures BookOk(Do(d, s, step), n)
  {
    hide Latest, Stored, Collapse, Underway, Unannounced, Mentions, ServerOk;
    AnnouncedKeys(d, s);
    LatestAfter(d, s, step, n);
    assert BookOk(s, n);
    if s.batch == [] {
      ConnectingQueue(s);
    }
  }

  lemma AnnouncedKeys(d: Device, s: Sync)
    requires ServerOk(d, s)
    ensures s.announced.Keys == d.specs.Keys && d.persistent <= d.specs.Keys
  {
  }

  lemma BookSteps(d: Device, s: Sync, step: Step, n: Name)
    requires Inv(d, s) && Enabled(d, s, step) && n in d.persistent && n in Do(d, s, step).announced
    ensures BookOk(Do(d, s, step), n)
  {
    hide Inv, BookOk;
    if step.ApplyOne? || step.Fetch? || step.RegisterCallback? || step.StartPolling? {
      AdoptStepsKeepBook(d, s, step, n);
    } else {
      WriteStepsKeepBook(d, s, step, n);
    }
  }

  lemma ConnectingQueue(s: Sync)
    requires s.batch == []
    ensures Underway(s) == s.queue
  {
  }

  lemma StepKeepsInv(d: Device, s: Sync, step: Step)
    requires Inv(d, s) && Enabled(d, s, step)
    ensures Inv(d, Do(d, s, step))
  {
    hide Latest, Stored, Collapse, Underway, Unannounced, BookOk;
    ServerSteps(d, s, step);
    QueueSteps(d, s, step);
    PhaseSteps(d, s, step);
    forall n | n in d.persistent ensures BookOk(Do(d, s, step), n) {
      BookSteps(d, s, step, n);
    }
    BooksFrame(d, s, step);
  }

  lemma BooksFrame(d: Device, s: Sync, step: Step)
    requires Inv(d, s) && Enabled(d, s, step)
    ensures var t := Do(d, s, step);
            && t.books.pending.Keys <= d.persistent
            && (t.stage.Polling? ==> d.persistent <= t.registered)
            && (t.stage.Replaying? ==> t.registered == {})
  {
    hide Latest, Stored, Collapse, Underway, Unannounced, BookOk, ServerOk, QueueOk;
  }

  // ---------------------------------------------------------------------------
  // Whole runs
  // ---------------------------------------------------------------------------

  /** `steps` is a possible interleaving from `s`. */
  predicate Runs(d: Device, s: Sync, steps: seq<Step>)
    decreases |steps|
  {
    steps == [] || (Enabled(d, s, steps[0]) && Runs(d, Do(d, s, steps[0]), steps[1..]))
  }

  function After(d: Device, s: Sync, steps: seq<Step>): Sync
    requires Runs(d, s, steps)
    decreases |steps|
  {
    if steps == [] then s else After(d, Do(d, s, steps[0]), steps[1..])
  }

  lemma {:induction false} RunKeepsInv(d: Device, s: Sync, steps: seq<Step>)
    requires Inv(d, s) && Runs(d, s, steps)
    ensures Inv(d, After(d, s, steps))
    decreases |steps|
  {
    hide Inv, Do, Enabled;
    if steps != [] {
      StepKeepsInv(d, s, steps[0]);
      RunKeepsInv(d, Do(d, s, steps[0]), steps[1..]);
    }
  }

  /** Polling, nothing being written, and every change fetched and applied. */
  predicate Quiet(s: Sync) {
    s.stage.Polling? && s.phase.Idle? && s.writers == map[] && Underway(s) == []
  }

  /**
   * Convergence. Whatever the interleaving since connecting, once the queue is drained no write
   * is left pending and the snapshot holds exactly what the server last announced, which is the
   * server's value for every parameter no two writers raced on.
   */
  lemma SettingsConverge(d: Device, start: Sync, steps: seq<Step>)
    requires Connected(d, start) && Runs(d, start, steps)
    requires Quiet(After(d, start, steps))
    ensures var s := After(d, start, steps);
            && s.books.pending == map[]
            && (forall n :: n in d.persistent ==>
                  && n in s.books.snapshot && n in s.server && n in s.announced
                  && s.books.snapshot[n] == s.announced[n]
                  && (n !in s.raced ==> s.books.snapshot[n] == s.server[n]))
  {
    ConnectedIsInv(d, start);
    RunKeepsInv(d, start, steps);
    var s := After(d, start, steps);
    assert forall n :: n in d.persistent ==> BookOk(s, n) && Latest(Underway(s), n).None?;
  }

  /** How stores and announcements line up, whatever the interleaving. */
  ghost predicate OrderOk(d: Device, s: Sync) {
    && s.server.Keys == s.announced.Keys == d.specs.Keys
    && (forall n :: n in s.lastStored ==> n in d.specs && s.server[n] == s.lastStored[n].value)
    && (forall n :: n in s.lastAnnounced ==> n in d.specs && s.announced[n] == s.lastAnnounced[n].value)
    && (forall n :: n in s.lastStored ==> n in s.lastAnnounced || Unannounced(s, n))
    && (forall id :: id in s.writers && s.writers[id].stored ==> s.writers[id].name in s.lastStored)
    && s.lastAnnounced.Keys <= s.lastStored.Keys
    && (forall n :: n in d.specs && n !in s.lastStored ==> s.server[n] == s.announced[n])
  }

  lemma StepKeepsOrder(d: Device, s: Sync, step: Step)
    requires OrderOk(d, s) && Enabled(d, s, step) && forall id :: id in s.writers ==> id < s.nextId
    ensures OrderOk(d, Do(d, s, step)) && forall id :: id in Do(d, s, step).writers ==> id < Do(d, s, step).nextId
  {
    hide OrderOk, Stored, Adopted, WriteBegun, WriteDone, WriteFailed, Collapse, Unannounced;
    match step
    case Store(id) => StoreKeepsOrder(d, s, id);
    case Announce(id) => AnnounceKeepsOrder(d, s, id);
    case _ => QuietStepKeepsOrder(d, s, Do(d, s, step));
  }

  lemma QuietStepKeepsOrder(d: Device, s: Sync, t: Sync)
    requires OrderOk(d, s) && forall id :: id in s.writers ==> id < s.nextId
    requires t.server == s.server && t.announced == s.announced
    requires t.lastStored == s.lastStored && t.lastAnnounced == s.lastAnnounced
    requires forall id :: id in s.writers ==> id in t.writers && t.writers[id] == s.writers[id]
    requires forall id :: id in t.writers && id !in s.writers ==> !t.writers[id].stored
    ensures OrderOk(d, t)
  {
    hide Unannounced;
    forall n | Unannounced(s, n) ensures Unannounced(t, n) {
      var other := AnUnannounced(s, n);
      IsUnannounced(t, other);
    }
  }

  lemma StoreKeepsOrder(d: Device, s: Sync, id: nat)
    requires OrderOk(d, s) && Enabled(d, s, Store(id))
    ensures OrderOk(d, Do(d, s, Store(id)))
  {
    hide Stored, Unannounced;
    var t := Do(d, s, Store(id));
    IsUnannounced(t, id);
    forall n | Unannounced(s, n) ensures Unannounced(t, n) {
      var other := AnUnannounced(s, n);
      IsUnannounced(t, other);
    }
  }

  lemma AnnounceKeepsOrder(d: Device, s: Sync, id: nat)
    requires OrderOk(d, s) && Enabled(d, s, Announce(id))
    ensures OrderOk(d, Do(d, s, Announce(id)))
  {
    hide Stored, Unannounced;
    var t := Do(d, s, Announce(id));
    forall n | Unannounced(s, n) && n != s.writers[id].name ensures Unannounced(t, n) {
      var other := AnUnannounced(s, n);
      IsUnannounced(t, other);
    }
  }

  lemma {:induction false} RunKeepsOrder(d: Device, s: Sync, steps: seq<Step>)
    requires OrderOk(d, s) && Runs(d, s, steps) && forall id :: id in s.writers ==> id < s.nextId
    ensures OrderOk(d, After(d, s, steps))
    decreases |steps|
  {
    hide OrderOk, Do, Enabled;
    if steps != [] {
      StepKeepsOrder(d, s, steps[0]);
      RunKeepsOrder(d, Do(d, s, steps[0]), steps[1..]);
    }
  }

  /**
   * Exactly when convergence means the server's value. Once drained, the snapshot agrees with the server exactly
   * if the parameter was not written since connecting, or the write announced last carried the value stored last -
   * in particular if one writer was last at both.
   */
  lemma SnapshotIsServerIff(d: Device, start: Sync, steps: seq<Step>, n: Name)
    requires Connected(d, start) && Runs(d, start, steps) && Quiet(After(d, start, steps)) && n in d.persistent
    ensures var s := After(d, start, steps);
            && n in s.books.snapshot && n in s.server && (n in s.lastStored ==> n in s.lastAnnounced)
            && (s.books.snapshot[n] == s.server[n] <==>
                  n !in s.lastStored || s.lastAnnounced[n].value == s.lastStored[n].value)
  {
    hide Runs, After, Connected;
    SettingsConverge(d, start, steps);
    StartsInOrder(d, start);
    RunKeepsOrder(d, start, steps);
    assert !Unannounced(After(d, start, steps), n);
  }

  lemma StartsInOrder(d: Device, s: Sync)
    requires Connected(d, s)
    ensures OrderOk(d, s) && s.writers == map[]
  {
  }

  lemma {:induction false} CollapseIsNoLonger(collapsed: set<Name>, queue: seq<Change>)
    ensures |Collapse(collapsed, queue)| <= |queue|
    decreases |queue|
  {
    hide Mentions;
    if queue != [] {
      CollapseIsNoLonger(collapsed, queue[1..]);
    }
  }

  predicate IsPolling(step: Step) {
    step.Fetch? || step.ApplyOne?
  }

  /** The poll loop alone gets there: with no write under way, fetching and applying drains everything, in bounded steps. */
  lemma {:induction false} PollingDrains(d: Device, s: Sync) returns (steps: seq<Step>)
    requires s.stage.Polling? && s.phase.Idle? && s.writers == map[]
    ensures Runs(d, s, steps) && Quiet(After(d, s, steps))
    ensures forall k :: 0 <= k < |steps| ==> IsPolling(steps[k])
    ensures |steps| <= |s.batch| + (if s.queue == [] then 0 else |s.queue| + 1)
    decreases |s.queue|, |s.batch|
  {
    hide Adopted, Collapse;
    if Underway(s) == [] {
      return [];
    }
    if s.batch == [] && s.queue != [] {
      CollapseIsNoLonger(Collapsed(d), s.queue);
    }
    var step := if s.batch != [] then ApplyOne else Fetch;
    var rest := PollingDrains(d, Do(d, s, step));
    steps := [step] + rest;
    assert steps[1..] == rest;
  }

  // ---------------------------------------------------------------------------
  // Why racing parameters are excluded
  // ---------------------------------------------------------------------------

  lemma {:induction false} RunExtends(d: Device, s: Sync, steps: seq<Step>, step: Step)
    requires Runs(d, s, steps) && Enabled(d, After(d, s, steps), step)
    ensures Runs(d, s, steps + [step])
    ensures After(d, s, steps + [step]) == Do(d, After(d, s, steps), step)
    decreases |steps|
  {
    hide Do, Enabled;
    if steps == [] {
      assert [] + [step] == [step] && [step][1..] == [];
    } else {
      assert (steps + [step])[1..] == steps[1..] + [step];
      RunExtends(d, Do(d, s, steps[0]), steps[1..], step);
    }
  }

  ghost predicate Reached(d: Device, start: Sync, s: Sync) {
    exists steps :: Runs(d, start, steps) && After(d, start, steps) == s
  }

  lemma Play(d: Device, start: Sync, s: Sync, step: Step) returns (s1: Sync)
    requires Reached(d, start, s) && Enabled(d, s, step)
    ensures s1 == Do(d, s, step) && Reached(d, start, s1)
  {
    var steps :| Runs(d, start, steps) && After(d, start, steps) == s;
    RunExtends(d, start, steps, step);
    s1 := Do(d, s, step);
  }

  const ONE_PARAM := Device(map[0 := Spec(None, None, false, false)], {0})
  const AT_CONNECT := Sync(map[0 := 0.0], map[], 0, [Change(0, 0.0)], map[0 := 0.0], {}, map[], map[], Replaying, {}, Idle, [],
                           Books(map[], map[]))

  /** Two clients have stored 1 and then 2; neither has announced. */
  lemma BothStored() returns (s: Sync)
    ensures Reached(ONE_PARAM, AT_CONNECT, s)
    ensures s == AT_CONNECT.(stage := Polling, registered := {0}, books := Books(map[], map[0 := 0.0]), raced := {0},
                             lastStored := map[0 := Write(1, 2.0)],
                             server := map[0 := 2.0], writers := map[0 := Writer(0, 1.0, true), 1 := Writer(0, 2.0, true)],
                             nextId := 2)
  {
    hide Reached, Unannounced;
    s := AT_CONNECT;
    assert Reached(ONE_PARAM, AT_CONNECT, s) by {
      ReachedAtOnce(ONE_PARAM, s);
    }
    s := Play(ONE_PARAM, AT_CONNECT, s, ReplayEnds);
    s := Play(ONE_PARAM, AT_CONNECT, s, RegisterCallback(0, 0.0));
    s := Play(ONE_PARAM, AT_CONNECT, s, StartPolling);
    s := Play(ONE_PARAM, AT_CONNECT, s, OtherClientWrites(0, 1.0));
    s := Play(ONE_PARAM, AT_CONNECT, s, OtherClientWrites(0, 2.0));
    NotUnannounced(s, 0);
    s := Play(ONE_PARAM, AT_CONNECT, s, Store(0));
    IsUnannounced(s, 0);
    s := Play(ONE_PARAM, AT_CONNECT, s, Store(1));
  }

  lemma ReachedAtOnce(d: Device, s: Sync)
    ensures Reached(d, s, s)
  {
    assert Runs(d, s, []) && After(d, s, []) == s;
  }

  lemma NotUnannounced(s: Sync, n: Name)
    requires forall id :: id in s.writers ==> !s.writers[id].stored
    ensures !Unannounced(s, n)
  {
  }

  /** They announce in the other order: once drained, the snapshot keeps the overwritten value for good. */
  lemma RacedWritesCanDiverge()
    ensures exists s: Sync ::
              && Connected(ONE_PARAM, AT_CONNECT) && Reached(ONE_PARAM, AT_CONNECT, s) && Quiet(s)
              && 0 in s.books.snapshot && 0 in s.server && s.books.snapshot[0] != s.server[0]
  {
    hide Reached, Unannounced, Collapse;
    var s := BothStored();
    s := Play(ONE_PARAM, AT_CONNECT, s, Announce(1));
    s := Play(ONE_PARAM, AT_CONNECT, s, Announce(0));
    var queue := [Change(0, 0.0), Change(0, 2.0), Change(0, 1.0)];
    assert s.queue == queue && Collapsed(ONE_PARAM) == {};
    CollapseOfThree(queue);
    s := Play(ONE_PARAM, AT_CONNECT, s, Fetch);
    s := Play(ONE_PARAM, AT_CONNECT, s, ApplyOne);
    s := Play(ONE_PARAM, AT_CONNECT, s, ApplyOne);
    s := Play(ONE_PARAM, AT_CONNECT, s, ApplyOne);
    assert Quiet(s) && s.books.snapshot[0] == 1.0 && s.server[0] == 2.0;
  }

  lemma CollapseOfThree(q: seq<Change>)
    requires |q| == 3
    ensures Collapse({}, q) == q
  {
    assert Collapse({}, q[1..][1..]) == q[1..][1..];
    assert Collapse({}, q[1..]) == q[1..];
  }
}
