/**
 * The shared diagnosis scheduler (DiagnosisProbe in linien-gateway/app/diagnosis.py): one
 * dispatcher, a pool of workers and any number of requesters, interleaved one critical
 * section at a time. The heap is a multiset ordered by due time and then sequence number.
 */
module DiagnosisProbe {
  import opened Common

  /** Device keys only matter as identities. */
  type Key = nat

  datatype Entry = Entry(due: real, seqNo: nat, key: Key)

  predicate Before(a: Entry, b: Entry) {
    a.due < b.due || (a.due == b.due && a.seqNo <= b.seqNo)
  }

  /** What heapq hands out first. */
  predicate IsLeast(heap: multiset<Entry>, e: Entry) {
    e in heap && forall other :: other in heap ==> Before(e, other)
  }

  /** Every scheduled key has exactly one entry, and no two entries share a sequence number. */
  predicate HeapMatches(heap: multiset<Entry>, pending: set<Key>, nextSeq: nat) {
    && (forall e :: e in heap ==> heap[e] == 1 && e.key in pending && e.seqNo < nextSeq)
    && (forall a, b :: a in heap && b in heap && (a.key == b.key || a.seqNo == b.seqNo) ==> a == b)
    && (forall k :: k in pending ==> HasEntry(heap, k))
  }

  predicate HasEntry(heap: multiset<Entry>, key: Key) {
    exists e :: e in heap && e.key == key
  }

  lemma {:induction false} LeastExists(heap: multiset<Entry>) returns (e: Entry)
    requires heap != multiset{}
    ensures IsLeast(heap, e)
    decreases |heap|
  {
    var some :| some in heap;
    var rest := heap - multiset{some};
    if rest == multiset{} {
      assert forall other :: other in heap ==> other == some || other in rest;
      e := some;
    } else {
      var least := LeastExists(rest);
      assert forall other :: other in heap ==> other == some || other in rest;
      e := if Before(some, least) then some else least;
    }
  }

  lemma LeastIsEarliest(heap: multiset<Entry>, e: Entry)
    requires IsLeast(heap, e)
    ensures e in heap && NoneEarlier(e, heap)
  {
  }

  ghost predicate NoneEarlier(e: Entry, heap: multiset<Entry>) {
    forall other :: other in heap ==> e.due <= other.due
  }

  /** Due before all of these, or as early and asked for before. */
  ghost predicate IsFirst(e: Entry, others: multiset<Entry>) {
    forall other :: other in others ==> e.due < other.due || (e.due == other.due && e.seqNo < other.seqNo)
  }

  lemma LeastIsFirst(heap: multiset<Entry>, pending: set<Key>, nextSeq: nat, e: Entry)
    requires HeapMatches(heap, pending, nextSeq) && IsLeast(heap, e)
    ensures IsFirst(e, heap - multiset{e})
  {
    forall other | other in heap - multiset{e} ensures e.due < other.due || (e.due == other.due && e.seqNo < other.seqNo) {
      assert other in heap && other != e;
    }
  }

  lemma PushMatches(heap: multiset<Entry>, pending: set<Key>, nextSeq: nat, due: real, key: Key)
    requires HeapMatches(heap, pending, nextSeq) && key !in pending
    ensures HeapMatches(heap + multiset{Entry(due, nextSeq, key)}, pending + {key}, nextSeq + 1)
  {
    var entry := Entry(due, nextSeq, key);
    var more := heap + multiset{entry};
    assert entry !in heap;
    assert forall e :: e in more ==> (e == entry && more[e] == 1) || (e in heap && more[e] == heap[e]);
    assert entry in more && HasEntry(more, key);
    forall k | k in pending ensures HasEntry(more, k) {
      var e :| e in heap && e.key == k;
      assert e in more;
    }
  }

  lemma PopMatches(heap: multiset<Entry>, pending: set<Key>, nextSeq: nat, e: Entry)
    requires HeapMatches(heap, pending, nextSeq) && e in heap
    ensures HeapMatches(heap - multiset{e}, pending - {e.key}, nextSeq) && e.key in pending
  {
    var fewer := heap - multiset{e};
    forall k | k in pending - {e.key} ensures HasEntry(fewer, k) {
      var other :| other in heap && other.key == k;
      assert other in fewer;
    }
  }

  // ---------------------------------------------------------------------------
  // The scheduler's shared bookkeeping
  // ---------------------------------------------------------------------------

  class Scheduler {
    var heap: multiset<Entry>
    var pending: set<Key>
    var inflight: set<Key>
    var nextSeq: nat
    var wake: bool

    ghost predicate Valid()
      reads this
    {
      HeapMatches(heap, pending, nextSeq) && pending !! inflight
    }

    constructor ()
      ensures Valid() && heap == multiset{} && pending == {} && inflight == {} && !wake
    {
      heap, pending, inflight, nextSeq, wake := multiset{}, {}, {}, 0, false;
    }

    /** A key already scheduled or being probed is left alone; any other gets one entry, and the dispatcher is woken. */
    method Request(key: Key, delay: real, now: real)
      requires Valid()
      modifies this
      ensures Valid() && inflight == old(inflight) && pending == if key in old(inflight) then old(pending) else old(pending) + {key}
      ensures if key in old(pending) + old(inflight) then heap == old(heap) && wake == old(wake)
              else heap == old(heap) + multiset{Entry(now + Max(0.0, delay), old(nextSeq), key)} && wake
    {
      hide HeapMatches;
      var due := now + Max(0.0, delay);
      if key in pending || key in inflight {
        return;
      }
      PushMatches(heap, pending, nextSeq, due, key);
      pending := pending + {key};
      heap := heap + multiset{Entry(due, nextSeq, key)};
      nextSeq := nextSeq + 1;
      wake := true;
    }

    /** Hands out the earliest entry if it is due, moving its key to in-flight; otherwise says how long to wait. */
    method PopReady(now: real) returns (key: Option<Key>, wait: Option<real>, ghost head: Entry)
      requires Valid()
      modifies this`heap, this`pending, this`inflight
      ensures Valid()
      ensures key.Some? ==>
                && wait.None? && head in old(heap) && head.key == key.value && head.due <= now
                && heap == old(heap) - multiset{head} && IsFirst(head, heap)
                && key.value in old(pending)
                && pending == old(pending) - {key.value} && inflight == old(inflight) + {key.value}
      ensures key.None? ==>
                && heap == old(heap) && pending == old(pending) && inflight == old(inflight)
                && (wait.None? <==> heap == multiset{})
                && (wait.Some? ==> wait.value > 0.0 && head in heap && head.due == now + wait.value && NoneEarlier(head, heap))
    {
      hide HeapMatches, IsFirst, NoneEarlier;
      head := Entry(0.0, 0, 0);
      if heap == multiset{} {
        return None, None, head;
      }
      ghost var _ := LeastExists(heap);
      var first :| IsLeast(heap, first);
      head := first;
      LeastIsEarliest(heap, first);
      if first.due <= now {
        PopMatches(heap, pending, nextSeq, first);
        LeastIsFirst(heap, pending, nextSeq, first);
        heap := heap - multiset{first};
        pending := pending - {first.key};
        inflight := inflight + {first.key};
        return Some(first.key), None, head;
      }
      key, wait := None, Some(Max(0.0, first.due - now));
    }

    /** After a probe: clear the in-flight mark first, so that asking again is not taken for a duplicate. */
    method Reschedule(key: Key, wanted: bool, reprobeInterval: real, now: real)
      requires Valid()
      modifies this
      ensures Valid() && inflight == old(inflight) - {key}
      ensures pending == if wanted then old(pending) + {key} else old(pending)
      ensures if wanted && key !in old(pending)
              then heap == old(heap) + multiset{Entry(now + Max(0.0, reprobeInterval), old(nextSeq), key)} && wake
              else heap == old(heap) && wake == old(wake)
    {
      inflight := inflight - {key};
      if wanted {
        Request(key, reprobeInterval, now);
      }
    }
  }

  // ---------------------------------------------------------------------------
  // Dispatcher, workers and requesters, one step at a time
  // ---------------------------------------------------------------------------

  datatype Dispatcher = Running | Holding(key: Key) | Sleeping(until: real) | Woken | Stopped

  /** A submitted probe: queued or running, then with its in-flight mark cleared, then about to ask again. */
  datatype WorkerPhase = Queued | Probing | Cleared | Requesting

  datatype Worker = Worker(key: Key, phase: WorkerPhase)

  /**
   * `down`: devices present, disconnected and wanting diagnosis. `owed`: devices whose session has gone down and is
   * about to ask for a probe. `announcing`: requesters that have pushed but not yet set the wake event.
   */
  datatype System = System(
    heap: multiset<Entry>,
    pending: set<Key>,
    inflight: set<Key>,
    nextSeq: nat,
    wake: bool,
    announcing: nat,
    dispatcher: Dispatcher,
    workers: map<nat, Worker>,
    nextId: nat,
    down: set<Key>,
    owed: set<Key>)

  datatype Step =
    | GoesDown(key: Key)
    | ComesBack(key: Key)
    | SessionRequests(key: Key, delay: real, now: real)
    | SetsWake
    | PopDue(entry: Entry, now: real)
    | SleepUntil(entry: Entry, now: real)
    | SleepEmpty(now: real)
    | WakesUp(now: real)
    | ClearsWake
    | Submits(ok: bool)
    | StartsProbe(id: nat)
    | ClearsInflight(id: nat)
    | ReadsSession(id: nat)
    | WorkerRequests(id: nat, delay: real, now: real)

  function Init(): System {
    System(multiset{}, {}, {}, 0, false, 0, Running, map[], 0, {}, {})
  }

  predicate InPhase(s: System, id: nat, phase: WorkerPhase) {
    id in s.workers && s.workers[id].phase == phase
  }

  predicate Enabled(s: System, step: Step) {
    match step
    case GoesDown(_) => true
    case ComesBack(_) => true
    case SessionRequests(_, _, _) => true
    case SetsWake => s.announcing > 0
    case PopDue(e, now) => s.dispatcher.Running? && IsLeast(s.heap, e) && e.due <= now
    case SleepUntil(e, now) => s.dispatcher.Running? && IsLeast(s.heap, e) && e.due > now
    case SleepEmpty(_) => s.dispatcher.Running? && s.heap == multiset{}
    case WakesUp(now) => s.dispatcher.Sleeping? && (s.wake || now >= s.dispatcher.until)
    case ClearsWake => s.dispatcher.Woken?
    case Submits(_) => s.dispatcher.Holding?
    case StartsProbe(id) => InPhase(s, id, Queued)
    case ClearsInflight(id) => InPhase(s, id, Probing)
    case ReadsSession(id) => InPhase(s, id, Cleared)
    case WorkerRequests(id, _, _) => InPhase(s, id, Requesting)
  }

  function Requested(s: System, key: Key, delay: real, now: real): System {
    if key in s.pending || key in s.inflight then s
    else s.(heap := s.heap + multiset{Entry(now + Max(0.0, delay), s.nextSeq, key)}, pending := s.pending + {key},
            nextSeq := s.nextSeq + 1, announcing := s.announcing + 1)
  }

  function Do(s: System, step: Step): System
    requires Enabled(s, step)
  {
    match step
    case GoesDown(key) => s.(down := s.down + {key}, owed := s.owed + {key})
    case ComesBack(key) => s.(down := s.down - {key})
    case SessionRequests(key, delay, now) => Requested(s.(owed := s.owed - {key}), key, delay, now)
    case SetsWake => s.(wake := true, announcing := s.announcing - 1)
    case PopDue(e, now) =>
      s.(heap := s.heap - multiset{e}, pending := s.pending - {e.key}, inflight := s.inflight + {e.key},
         dispatcher := Holding(e.key))
    case SleepUntil(e, now) => s.(dispatcher := Sleeping(e.due))
    case SleepEmpty(now) => s.(dispatcher := Sleeping(now + 1.0))
    case WakesUp(_) => s.(dispatcher := Woken)
    case ClearsWake => s.(wake := false, dispatcher := Running)
    case Submits(ok) =>
      if ok then s.(workers := s.workers[s.nextId := Worker(s.dispatcher.key, Queued)], nextId := s.nextId + 1,
                    dispatcher := Running)
      else s.(inflight := s.inflight - {s.dispatcher.key}, dispatcher := Stopped)
    case StartsProbe(id) => s.(workers := s.workers[id := s.workers[id].(phase := Probing)])
    case ClearsInflight(id) =>
      s.(inflight := s.inflight - {s.workers[id].key}, workers := s.workers[id := s.workers[id].(phase := Cleared)])
    case ReadsSession(id) =>
      if s.workers[id].key in s.down then s.(workers := s.workers[id := s.workers[id].(phase := Requesting)])
      else s.(workers := s.workers - {id})
    case WorkerRequests(id, delay, now) =>
      Requested(s.(workers := s.workers - {id}), s.workers[id].key, delay, now)
  }

  // ---------------------------------------------------------------------------
  // Invariant
  // ---------------------------------------------------------------------------

  predicate Active(w: Worker) {
    w.phase.Queued? || w.phase.Probing?
  }

  predicate Rivals(a: Worker, b: Worker) {
    Active(a) && Active(b) && a.key == b.key
  }

  /** Exactly one holder stands behind every in-flight mark. */
  ghost predicate MarksOk(s: System) {
    && s.pending !! s.inflight
    && (forall id :: id in s.workers ==> id < s.nextId)
    && (forall id :: id in s.workers && Active(s.workers[id]) ==>
          s.workers[id].key in s.inflight && s.dispatcher != Holding(s.workers[id].key))
    && (forall a, b :: a in s.workers && b in s.workers && Rivals(s.workers[a], s.workers[b]) ==> a == b)
    && (s.dispatcher.Holding? ==> s.dispatcher.key in s.inflight)
    && (forall k :: k in s.inflight ==> s.dispatcher == Holding(k) || HasWorker(s, k, true))
  }

  predicate HasWorker(s: System, key: Key, active: bool) {
    exists id :: id in s.workers && s.workers[id].key == key && Active(s.workers[id]) == active
  }

  /** A device that is down is on its way to a probe. */
  predicate Looked(s: System, key: Key) {
    key in s.pending || key in s.inflight || key in s.owed || HasWorker(s, key, false)
  }

  ghost predicate Inv(s: System) {
    && HeapMatches(s.heap, s.pending, s.nextSeq)
    && MarksOk(s)
    && (!s.dispatcher.Stopped? ==> forall k :: k in s.down ==> Looked(s, k))
    // The dispatcher never oversleeps an entry, once everyone who pushed has set the event.
    && (s.dispatcher.Sleeping? && !s.wake && s.announcing == 0 ==> forall e :: e in s.heap ==> s.dispatcher.until <= e.due)
  }

  lemma InitInv()
    ensures Inv(Init())
  {
  }

  lemma HasWorkerMoves(s: System, t: System)
    requires forall id :: id in s.workers ==> id in t.workers && t.workers[id].key == s.workers[id].key &&
                                              Active(t.workers[id]) == Active(s.workers[id])
    ensures forall k, active :: HasWorker(s, k, active) ==> HasWorker(t, k, active)
  {
    forall k, active | HasWorker(s, k, active) ensures HasWorker(t, k, active) {
      var id :| id in s.workers && s.workers[id].key == k && Active(s.workers[id]) == active;
      assert id in t.workers;
    }
  }

  /** Pushing a request keeps everything, and looks after its key. */
  lemma RequestKeepsInv(s: System, key: Key, delay: real, now: real)
    requires HeapMatches(s.heap, s.pending, s.nextSeq) && MarksOk(s)
    requires !s.dispatcher.Stopped? ==> forall k :: k in s.down && k != key ==> Looked(s, k)
    requires s.dispatcher.Sleeping? && !s.wake && s.announcing == 0 ==> forall e :: e in s.heap ==> s.dispatcher.until <= e.due
    ensures Inv(Requested(s, key, delay, now))
  {
    hide HeapMatches;
    var t := Requested(s, key, delay, now);
    HasWorkerMoves(s, t);
    if key !in s.pending && key !in s.inflight {
      PushMatches(s.heap, s.pending, s.nextSeq, now + Max(0.0, delay), key);
    }
    assert MarksOk(t);
  }

  lemma MarksFrame(s: System, t: System)
    requires MarksOk(s)
    requires t.pending == s.pending && t.inflight == s.inflight && t.workers == s.workers && t.nextId == s.nextId
    requires !s.dispatcher.Holding? && !t.dispatcher.Holding?
    ensures MarksOk(t)
    ensures forall k :: HasWorker(s, k, false) ==> HasWorker(t, k, false)
  {
    HasWorkerMoves(s, t);
  }

  lemma PopKeepsInv(s: System, e: Entry, now: real)
    requires Inv(s) && Enabled(s, PopDue(e, now))
    ensures Inv(Do(s, PopDue(e, now)))
  {
    hide HeapMatches, IsLeast;
    var t := Do(s, PopDue(e, now));
    HasWorkerMoves(s, t);
    LeastIsEarliest(s.heap, e);
    PopMatches(s.heap, s.pending, s.nextSeq, e);
    assert MarksOk(t);
  }

  /** Going to sleep, being woken, clearing the event: none of it touches who is scheduled or being probed. */
  lemma SleepKeepsInv(s: System, step: Step)
    requires Inv(s) && Enabled(s, step)
    requires step.SleepUntil? || step.SleepEmpty? || step.WakesUp? || step.ClearsWake?
    ensures Inv(Do(s, step))
  {
    hide HeapMatches, IsLeast, MarksOk;
    MarksFrame(s, Do(s, step));
    if step.SleepUntil? {
      LeastIsEarliest(s.heap, step.entry);
    }
  }

  lemma SetsWakeKeepsInv(s: System)
    requires Inv(s) && s.announcing > 0
    ensures Inv(Do(s, SetsWake))
  {
    hide HeapMatches;
    HasWorkerMoves(s, Do(s, SetsWake));
  }

  lemma SubmitKeepsInv(s: System, ok: bool)
    requires Inv(s) && s.dispatcher.Holding?
    ensures Inv(Do(s, Submits(ok)))
  {
    hide HeapMatches;
    var t := Do(s, Submits(ok));
    HasWorkerMoves(s, t);
    if ok {
      assert Active(t.workers[s.nextId]) && HasWorker(t, s.dispatcher.key, true);
    }
    assert MarksOk(t);
  }

  lemma StartKeepsInv(s: System, id: nat)
    requires Inv(s) && InPhase(s, id, Queued)
    ensures Inv(Do(s, StartsProbe(id)))
  {
    hide HeapMatches;
    HasWorkerMoves(s, Do(s, StartsProbe(id)));
  }

  /** Whoever else stands behind a key still does after one worker leaves or changes. */
  lemma OthersStay(s: System, t: System, id: nat, k: Key, active: bool)
    requires HasWorker(s, k, active) && id in s.workers
    requires s.workers[id].key != k || Active(s.workers[id]) != active
    requires forall other :: other in s.workers && other != id ==> other in t.workers && t.workers[other] == s.workers[other]
    ensures HasWorker(t, k, active)
  {
    var other :| other in s.workers && s.workers[other].key == k && Active(s.workers[other]) == active;
    assert other in t.workers;
  }

  lemma ClearKeepsInv(s: System, id: nat)
    requires Inv(s) && InPhase(s, id, Probing)
    ensures Inv(Do(s, ClearsInflight(id)))
  {
    hide HeapMatches;
    var t, key := Do(s, ClearsInflight(id)), s.workers[id].key;
    forall k, active | HasWorker(s, k, active) && (k != key || !active) ensures HasWorker(t, k, active) {
      OthersStay(s, t, id, k, active);
    }
    assert id in t.workers && t.workers[id].key == key && !Active(t.workers[id]);
    assert HasWorker(t, key, false);
    assert MarksOk(t);
  }

  lemma ReadKeepsInv(s: System, id: nat)
    requires Inv(s) && InPhase(s, id, Cleared)
    ensures Inv(Do(s, ReadsSession(id)))
  {
    hide HeapMatches;
    var t, key := Do(s, ReadsSession(id)), s.workers[id].key;
    forall k, active | HasWorker(s, k, active) && (k != key || active) ensures HasWorker(t, k, active) {
      OthersStay(s, t, id, k, active);
    }
    if key in s.down {
      assert id in t.workers && t.workers[id].key == key && !Active(t.workers[id]);
      assert HasWorker(t, key, false);
    }
    assert MarksOk(t);
  }

  lemma StepKeepsInv(s: System, step: Step)
    requires Inv(s) && Enabled(s, step)
    ensures Inv(Do(s, step))
  {
    hide HeapMatches, IsLeast;
    match step
    case GoesDown(_) => HasWorkerMoves(s, Do(s, step));
    case ComesBack(_) => HasWorkerMoves(s, Do(s, step));
    case SessionRequests(key, delay, now) =>
      var s1 := s.(owed := s.owed - {key});
      HasWorkerMoves(s, s1);
      RequestKeepsInv(s1, key, delay, now);
    case WorkerRequests(id, delay, now) =>
      LeavingWorker(s, id);
      RequestKeepsInv(s.(workers := s.workers - {id}), s.workers[id].key, delay, now);
    case Submits(ok) => SubmitKeepsInv(s, ok);
    case StartsProbe(id) => StartKeepsInv(s, id);
    case ClearsInflight(id) => ClearKeepsInv(s, id);
    case ReadsSession(id) => ReadKeepsInv(s, id);
    case PopDue(e, now) => PopKeepsInv(s, e, now);
    case SetsWake => SetsWakeKeepsInv(s);
    case _ => SleepKeepsInv(s, step);
  }

  lemma LeavingWorker(s: System, id: nat)
    requires Inv(s) && InPhase(s, id, Requesting)
    ensures var s1 := s.(workers := s.workers - {id});
            MarksOk(s1) && (!s.dispatcher.Stopped? ==> forall k :: k in s.down && k != s.workers[id].key ==> Looked(s1, k))
  {
    hide HeapMatches;
    var s1 := s.(workers := s.workers - {id});
    forall k, active | HasWorker(s, k, active) && (active || k != s.workers[id].key) ensures HasWorker(s1, k, active) {
      var other :| other in s.workers && s.workers[other].key == k && Active(s.workers[other]) == active;
      assert other in s1.workers;
    }
  }

  // ---------------------------------------------------------------------------
  // Whole runs
  // ---------------------------------------------------------------------------

  /** `steps` is a possible interleaving from `s`. */
  predicate Runs(s: System, steps: seq<Step>)
    decreases |steps|
  {
    steps == [] || (Enabled(s, steps[0]) && Runs(Do(s, steps[0]), steps[1..]))
  }

  function After(s: System, steps: seq<Step>): System
    requires Runs(s, steps)
    decreases |steps|
  {
    if steps == [] then s else After(Do(s, steps[0]), steps[1..])
  }

  lemma {:induction false} RunKeepsInv(s: System, steps: seq<Step>)
    requires Inv(s) && Runs(s, steps)
    ensures Inv(After(s, steps))
    decreases |steps|
  {
    hide Inv, Do, Enabled;
    if steps != [] {
      StepKeepsInv(s, steps[0]);
      RunKeepsInv(Do(s, steps[0]), steps[1..]);
    }
  }

  /**
   * After any interleaving: the heap holds each scheduled key exactly once; no key is both scheduled and in
   * flight; no key has two probes queued or running; and no key is being probed while another copy of it is
   * on its way to the pool.
   */
  lemma OneProbePerKey(steps: seq<Step>)
    requires Runs(Init(), steps)
    ensures var s := After(Init(), steps);
            && (forall k :: k in s.pending <==> HasEntry(s.heap, k))
            && (forall a, b :: a in s.heap && b in s.heap && a.key == b.key ==> a == b && s.heap[a] == 1)
            && s.pending !! s.inflight
            && (forall a, b :: a in s.workers && b in s.workers && Rivals(s.workers[a], s.workers[b]) ==> a == b)
            && (forall id :: id in s.workers && Active(s.workers[id]) ==>
                  s.workers[id].key in s.inflight && s.dispatcher != Holding(s.workers[id].key))
  {
    InitInv();
    RunKeepsInv(Init(), steps);
  }

  /**
   * No device is forgotten. While the dispatcher runs, a device that is down is always scheduled, in flight,
   * about to be requested by its own session, or in the hands of a worker that has yet to look at it again.
   */
  lemma DownIsLookedAfter(steps: seq<Step>, key: Key)
    requires Runs(Init(), steps)
    ensures var s := After(Init(), steps);
            !s.dispatcher.Stopped? && key in s.down ==> Looked(s, key)
  {
    hide HeapMatches, MarksOk, Looked;
    InitInv();
    RunKeepsInv(Init(), steps);
  }

  /**
   * A wake-up is never lost: asleep with the event unset and nobody about to set it, the dispatcher wakes no
   * later than the first entry is due.
   */
  lemma NeverOversleeps(steps: seq<Step>, e: Entry)
    requires Runs(Init(), steps)
    ensures var s := After(Init(), steps);
            s.dispatcher.Sleeping? && !s.wake && s.announcing == 0 && e in s.heap ==> s.dispatcher.until <= e.due
  {
    hide HeapMatches, MarksOk, Looked;
    InitInv();
    RunKeepsInv(Init(), steps);
  }

  function WakesSet(steps: seq<Step>): nat {
    if steps == [] then 0 else (if steps[0].SetsWake? then 1 else 0) + WakesSet(steps[1..])
  }

  /** Every entry ever pushed is announced once: the requesters still to set the event are those that pushed and have not. */
  lemma {:induction false} EveryPushIsAnnounced(s: System, steps: seq<Step>)
    requires Runs(s, steps)
    ensures After(s, steps).nextSeq + s.announcing == s.nextSeq + After(s, steps).announcing + WakesSet(steps)
    decreases |steps|
  {
    hide Do, Enabled;
    if steps != [] {
      StepAnnounces(s, steps[0]);
      EveryPushIsAnnounced(Do(s, steps[0]), steps[1..]);
    }
  }

  lemma StepAnnounces(s: System, step: Step)
    requires Enabled(s, step)
    ensures var t := Do(s, step);
            && t.nextSeq + s.announcing == s.nextSeq + t.announcing + (if step.SetsWake? then 1 else 0)
            && t.wake == (if step.SetsWake? then true else if step.ClearsWake? then false else s.wake)
            && |t.heap| == |s.heap| + (t.nextSeq - s.nextSeq) - (if step.PopDue? then 1 else 0)
  {
  }

  predicate OfDispatcher(step: Step) {
    step.PopDue? || step.SleepUntil? || step.SleepEmpty? || step.WakesUp? || step.ClearsWake? || step.Submits?
  }

  /**
   * The dispatcher is never stuck: until it stops, and unless it sleeps with the event unset and its time not come, it
   * can move; and when it looks at the heap it pops exactly if the first entry is due, sleeping to that time or for a
   * second if not.
   */
  lemma DispatcherCanMove(s: System, now: real) returns (step: Step)
    requires !s.dispatcher.Stopped?
    requires s.dispatcher.Sleeping? ==> s.wake || s.dispatcher.until <= now
    ensures Enabled(s, step) && OfDispatcher(step)
    ensures s.dispatcher.Running? && s.heap == multiset{} ==> Do(s, step).dispatcher == Sleeping(now + 1.0)
    ensures s.dispatcher.Running? && s.heap != multiset{} ==>
              exists e :: IsLeast(s.heap, e) && Do(s, step).dispatcher == if e.due <= now then Holding(e.key) else Sleeping(e.due)
  {
    match s.dispatcher
    case Running =>
      if s.heap == multiset{} {
        step := SleepEmpty(now);
      } else {
        var e := LeastExists(s.heap);
        step := if e.due <= now then PopDue(e, now) else SleepUntil(e, now);
      }
    case Holding(_) => step := Submits(true);
    case Sleeping(_) => step := WakesUp(now);
    case Woken => step := ClearsWake;
  }

  /** Asleep with the event unset it does not wake early, and one moment never both pops and sleeps on an entry. */
  lemma DispatcherWaits(s: System, e: Entry, now: real)
    ensures s.dispatcher.Sleeping? && !s.wake && now < s.dispatcher.until ==> !Enabled(s, WakesUp(now))
    ensures !(Enabled(s, PopDue(e, now)) && Enabled(s, SleepUntil(e, now)))
  {
  }
}
