/**
 * One websocket connection of the plot stream: throttling, the one-frame slot, the
 * reliable queue and the sender loop with its wake event (WebsocketManager in
 * linien-gateway/app/stream.py). The sender's moves are taken one at a time, so a message may
 * arrive between any two of them.
 */
module PlotSender {
  import opened Common

  datatype Limits = Limits(dropOld: bool, queueSize: nat, defaultFps: Option<real>, cap: Option<real>)

  function Normalized(fps: Option<real>): Option<real> {
    if fps.Some? && fps.value > 0.0 then fps else None
  }

  /** The manager's constructor: the default never exceeds the cap, and a queue holds at least ten. */
  function MakeLimits(dropOld: bool, queueSize: int, defaultFps: Option<real>, cap: Option<real>): (l: Limits)
    ensures l.queueSize >= 10
    ensures l.defaultFps.Some? ==> l.defaultFps.value > 0.0 && (l.cap.Some? ==> l.defaultFps.value <= l.cap.value)
  {
    var d, c := Normalized(defaultFps), Normalized(cap);
    Limits(dropOld, MaxInt(10, queueSize), if d.Some? && c.Some? && d.value > c.value then c else d, c)
  }

  function Resolved(l: Limits, requested: Option<real>): Option<real> {
    var fps := if Normalized(requested).Some? then Normalized(requested) else l.defaultFps;
    if fps.None? then None else if l.cap.Some? then Some(Min(fps.value, l.cap.value)) else fps
  }

  /** Settings in force: a queue of at least ten, and rates that are positive or absent, the default no higher than the cap. */
  lemma LimitsExactly(dropOld: bool, queueSize: int, defaultFps: Option<real>, cap: Option<real>)
    ensures var l := MakeLimits(dropOld, queueSize, defaultFps, cap);
            && l.dropOld == dropOld && (if queueSize >= 10 then l.queueSize == queueSize else l.queueSize == 10)
            && l.cap == (if cap.Some? && cap.value > 0.0 then cap else None)
            && (l.defaultFps.Some? <==> defaultFps.Some? && defaultFps.value > 0.0)
            && (l.defaultFps.Some? ==>
                  if l.cap.Some? && l.cap.value < defaultFps.value then l.defaultFps == l.cap else l.defaultFps == defaultFps)
  {
  }

  /** The rate of a connection: the one asked for if it is positive, else the default, lowered to the cap. */
  lemma RateResolved(l: Limits, requested: Option<real>, rate: real)
    ensures var r, asked := Resolved(l, requested), requested.Some? && requested.value > 0.0;
            && (r.Some? <==> asked || l.defaultFps.Some?)
            && (r.Some? ==>
                  (rate <= r.value <==>
                     (rate <= if asked then requested.value else l.defaultFps.value) && (l.cap.Some? ==> rate <= l.cap.value)))
  {
  }

  /** A frame in the two variants a subscriber may ask for. */
  datatype Frame = Frame(full: string, summary: string)

  /** `index` is history: the position among the frames accepted for this connection. */
  datatype Pending = Pending(payload: string, index: nat)

  datatype Message = Reliable(text: string) | Plot(frame: Pending)

  datatype Phase = Looking | Clearing | Rechecking | Waiting | Sending(message: Message) | Stopped

  datatype Accepted = Accepted(payload: string, at: real)

  /** The last four fields are history. */
  datatype Connection = Connection(
    fps: Option<real>,
    fullDetail: bool,
    lastPlot: real,
    queue: seq<string>,
    latest: Option<Pending>,
    wake: bool,
    phase: Phase,
    open: bool,
    accepted: seq<Accepted>,
    reliable: seq<string>,
    sentPlots: seq<Pending>,
    sentReliable: seq<string>)

  datatype Step =
    | OfferPlot(frame: Frame, now: real)
    | OfferReliable(text: string)
    | SetMaxFps(requested: Option<real>)
    | Sender(delivered: bool)

  function Opened(l: Limits, requested: Option<real>, fullDetail: bool): Connection {
    Connection(Resolved(l, requested), fullDetail, 0.0, [], None, false, Looking, true, [], [], [], [])
  }

  /** Is this frame held back by the connection's frame-rate cap? */
  predicate Throttled(c: Connection, now: real) {
    c.fps.Some? && c.fps.value != 0.0 && now - c.lastPlot < 1.0 / c.fps.value
  }

  function PlotOffered(l: Limits, c: Connection, frame: Frame, now: real): Connection {
    if Throttled(c, now) then c
    else
      var payload := if c.fullDetail then frame.full else frame.summary;
      var keep := if l.dropOld || c.latest.None? then Some(Pending(payload, |c.accepted|)) else c.latest;
      c.(lastPlot := if c.fps.Some? && c.fps.value != 0.0 then now else c.lastPlot,
         latest := keep, wake := true, accepted := c.accepted + [Accepted(payload, now)])
  }

  function ReliableOffered(l: Limits, c: Connection, text: string): Connection {
    if |c.queue| >= l.queueSize then c.(open := false, phase := Stopped)
    else c.(queue := c.queue + [text], wake := true, reliable := c.reliable + [text])
  }

  function Dequeued(c: Connection): (Connection, Option<Message>) {
    if c.queue != [] then (c.(queue := c.queue[1..]), Some(Reliable(c.queue[0])))
    else if c.latest.None? then (c, None)
    else (c.(latest := None), Some(Plot(c.latest.value)))
  }

  function Looked(c: Connection, onNothing: Phase): Connection {
    var (c1, m) := Dequeued(c);
    if m.Some? then c1.(phase := Sending(m.value)) else c1.(phase := onNothing)
  }

  function SenderMoves(c: Connection, delivered: bool): Connection {
    match c.phase
    case Looking => Looked(c, Clearing)
    case Clearing => c.(wake := false, phase := Rechecking)
    case Rechecking => Looked(c, Waiting)
    case Waiting => if c.wake then c.(phase := Looking) else c
    case Sending(m) =>
      if !delivered then c.(open := false, phase := Stopped)
      else if m.Reliable? then c.(phase := Looking, sentReliable := c.sentReliable + [m.text])
      else c.(phase := Looking, sentPlots := c.sentPlots + [m.frame])
    case Stopped => c
  }

  function Do(l: Limits, c: Connection, step: Step): Connection {
    match step
    case Sender(delivered) => SenderMoves(c, delivered)
    case OfferPlot(frame, now) => if c.open then PlotOffered(l, c, frame, now) else c
    case OfferReliable(text) => if c.open then ReliableOffered(l, c, text) else c
    case SetMaxFps(requested) => if c.open then c.(fps := Resolved(l, requested), lastPlot := 0.0) else c
  }

  function After(l: Limits, c: Connection, steps: seq<Step>): Connection
    decreases |steps|
  {
    if steps == [] then c else After(l, Do(l, c, steps[0]), steps[1..])
  }

  // ---------------------------------------------------------------------------
  // The object the manager updates
  // ---------------------------------------------------------------------------

  class ConnectionState {
    const limits: Limits
    const fullDetail: bool
    var maxFps: Option<real>
    var lastPlot: real
    var reliableQueue: seq<string>
    var latestPlotMessage: Option<Pending>
    var wakeEvent: bool
    var phase: Phase
    var registered: bool
    ghost var accepted: seq<Accepted>
    ghost var reliable: seq<string>
    ghost var sentPlots: seq<Pending>
    ghost var sentReliable: seq<string>
    var acceptedCount: nat

    ghost function Value(): Connection
      reads this
    {
      Connection(maxFps, fullDetail, lastPlot, reliableQueue, latestPlotMessage, wakeEvent, phase, registered,
                 accepted, reliable, sentPlots, sentReliable)
    }

    ghost predicate Valid()
      reads this
    {
      acceptedCount == |accepted|
    }

    constructor (limits: Limits, requested: Option<real>, fullDetail: bool)
      ensures Valid() && this.limits == limits && Value() == Opened(limits, requested, fullDetail)
      ensures lastPlot == 0.0 && reliableQueue == [] && latestPlotMessage.None? && !wakeEvent && phase == Looking && registered
    {
      this.limits, this.fullDetail := limits, fullDetail;
      maxFps, lastPlot := Resolved(limits, requested), 0.0;
      reliableQueue, latestPlotMessage, wakeEvent, phase, registered := [], None, false, Looking, true;
      accepted, reliable, sentPlots, sentReliable, acceptedCount := [], [], [], [], 0;
    }

    method UpdateMaxFps(requested: Option<real>)
      requires Valid()
      modifies this
      ensures Valid() && Value() == Do(limits, old(Value()), SetMaxFps(requested))
    {
      if !registered {
        return;
      }
      maxFps := Resolved(limits, requested);
      lastPlot := 0.0;
    }

    method BroadcastPlot(frame: Frame, now: real)
      requires Valid()
      modifies this
      ensures Valid() && Value() == Do(limits, old(Value()), OfferPlot(frame, now))
      ensures wakeEvent && !old(wakeEvent) ==>
                latestPlotMessage.Some? && (limits.dropOld || old(latestPlotMessage).None? ==>
                  latestPlotMessage.value.payload == if fullDetail then frame.full else frame.summary)
      ensures !limits.dropOld && old(latestPlotMessage).Some? ==> latestPlotMessage == old(latestPlotMessage)
    {
      if !registered {
        return;
      }
      if maxFps.Some? && maxFps.value != 0.0 {
        var minDt := 1.0 / maxFps.value;
        if now - lastPlot < minDt {
          return;
        }
        lastPlot := now;
      }
      var payload := if fullDetail then frame.full else frame.summary;
      EnqueuePlotFrame(payload);
      accepted := accepted + [Accepted(payload, now)];
      acceptedCount := acceptedCount + 1;
      wakeEvent := true;
    }

    method EnqueuePlotFrame(payload: string)
      modifies this`latestPlotMessage
      ensures latestPlotMessage == if limits.dropOld || old(latestPlotMessage).None? then Some(Pending(payload, acceptedCount))
                                   else old(latestPlotMessage)
    {
      if limits.dropOld {
        latestPlotMessage := Some(Pending(payload, acceptedCount));
        return;
      }
      if latestPlotMessage.None? {
        latestPlotMessage := Some(Pending(payload, acceptedCount));
      }
    }

    /** A full queue drops the connection: it is unregistered and its sender cancelled. */
    method OfferReliableMessage(text: string) returns (queued: bool)
      requires Valid()
      modifies this
      ensures Valid() && Value() == Do(limits, old(Value()), OfferReliable(text))
      ensures queued <==> old(registered) && registered
      ensures queued <==> old(registered) && |old(reliableQueue)| < limits.queueSize
      ensures queued ==> reliableQueue == old(reliableQueue) + [text] && wakeEvent && phase == old(phase)
      ensures old(registered) && !queued ==> phase == Stopped && reliableQueue == old(reliableQueue)
    {
      if !registered {
        return false;
      }
      if |reliableQueue| >= limits.queueSize {
        registered, phase := false, Stopped;
        return false;
      }
      reliableQueue := reliableQueue + [text];
      reliable := reliable + [text];
      wakeEvent := true;
      queued := true;
    }

    method DequeueNext() returns (message: Option<Message>)
      modifies this`reliableQueue, this`latestPlotMessage
      ensures (Value(), message) == Dequeued(old(Value()))
    {
      if reliableQueue != [] {
        message := Some(Reliable(reliableQueue[0]));
        reliableQueue := reliableQueue[1..];
        return;
      }
      if latestPlotMessage.None? {
        return None;
      }
      message := Some(Plot(latestPlotMessage.value));
      latestPlotMessage := None;
    }

    /** One move of the sender loop; `delivered` says whether a send under way went through. */
    method SenderStep(delivered: bool)
      requires Valid()
      modifies this
      ensures Valid() && Value() == Do(limits, old(Value()), Sender(delivered))
      ensures old(phase).Clearing? ==> !wakeEvent && phase == Rechecking
      ensures !old(phase).Clearing? ==> wakeEvent == old(wakeEvent)
    {
      match phase
      case Looking =>
        var message := DequeueNext();
        phase := if message.Some? then Sending(message.value) else Clearing;
      case Clearing =>
        wakeEvent := false;
        phase := Rechecking;
      case Rechecking =>
        var message := DequeueNext();
        phase := if message.Some? then Sending(message.value) else Waiting;
      case Waiting =>
        if wakeEvent {
          phase := Looking;
        }
      case Sending(message) =>
        if !delivered {
          registered, phase := false, Stopped;
        } else {
          if message.Reliable? {
            sentReliable := sentReliable + [message.text];
          } else {
            sentPlots := sentPlots + [message.frame];
          }
          phase := Looking;
        }
      case Stopped =>
    }
  }

  // ---------------------------------------------------------------------------
  // Delivery over whole runs
  // ---------------------------------------------------------------------------

  function ReliableUnderway(c: Connection): seq<string> {
    if c.phase.Sending? && c.phase.message.Reliable? then [c.phase.message.text] else []
  }

  function PlotUnderway(c: Connection): seq<Pending> {
    if c.phase.Sending? && c.phase.message.Plot? then [c.phase.message.frame] else []
  }

  function PlotInSlot(c: Connection): seq<Pending> {
    if c.latest.Some? then [c.latest.value] else []
  }

  /** Frames in the order the connection handles them: sent, being sent, waiting in the slot. */
  function PlotLine(c: Connection): seq<Pending> {
    c.sentPlots + PlotUnderway(c) + PlotInSlot(c)
  }

  /** Distinct accepted frames, in the order they were accepted. */
  predicate InOrder(line: seq<Pending>, accepted: seq<Accepted>) {
    && (forall k :: 0 <= k < |line| ==> line[k].index < |accepted| && line[k].payload == accepted[line[k].index].payload)
    && (forall j, k :: 0 <= j < k < |line| ==> line[j].index < line[k].index)
  }

  predicate NothingPending(c: Connection) {
    c.queue == [] && c.latest.None?
  }

  /** The sender never waits on an unset event with something pending. */
  predicate NotAsleepOnPending(c: Connection) {
    c.phase.Waiting? && !c.wake ==> NothingPending(c)
  }

  ghost predicate Inv(l: Limits, c: Connection) {
    && (c.open <==> !c.phase.Stopped?)
    && (if c.open then c.reliable == c.sentReliable + ReliableUnderway(c) + c.queue else c.sentReliable <= c.reliable)
    && InOrder(PlotLine(c), c.accepted)
    && NotAsleepOnPending(c)
    && (l.dropOld && c.open && c.accepted != [] ==>
          PlotLine(c) != [] && PlotLine(c)[|PlotLine(c)| - 1].index == |c.accepted| - 1)
  }

  lemma InOrderWithout(before: seq<Pending>, middle: seq<Pending>, after: seq<Pending>, accepted: seq<Accepted>)
    requires InOrder(before + middle + after, accepted)
    ensures InOrder(before + after, accepted)
  {
    var line, shorter := before + middle + after, before + after;
    assert forall k :: 0 <= k < |shorter| ==>
      shorter[k] == line[if k < |before| then k else k + |middle|];
  }

  lemma InOrderExtended(line: seq<Pending>, accepted: seq<Accepted>, payload: string, at: real)
    requires InOrder(line, accepted)
    ensures InOrder(line, accepted + [Accepted(payload, at)])
    ensures InOrder(line + [Pending(payload, |accepted|)], accepted + [Accepted(payload, at)])
  {
  }

  lemma PlotOfferKeepsInv(l: Limits, c: Connection, frame: Frame, now: real)
    requires Inv(l, c) && c.open
    ensures Inv(l, PlotOffered(l, c, frame, now))
  {
    if Throttled(c, now) {
      return;
    }
    var c1 := PlotOffered(l, c, frame, now);
    var before := c.sentPlots + PlotUnderway(c);
    var payload := if c.fullDetail then frame.full else frame.summary;
    InOrderWithout(before, PlotInSlot(c), [], c.accepted);
    assert before + PlotInSlot(c) + [] == PlotLine(c) && before + [] == before;
    InOrderExtended(before, c.accepted, payload, now);
    InOrderExtended(PlotLine(c), c.accepted, payload, now);
    assert PlotLine(c1) == before + PlotInSlot(c1);
  }

  /** A connection that stops keeps what it had sent, in order. */
  lemma StoppingKeepsInv(l: Limits, c: Connection)
    requires Inv(l, c) && c.open
    ensures Inv(l, c.(open := false, phase := Stopped))
  {
    var c1 := c.(open := false, phase := Stopped);
    InOrderWithout(c.sentPlots, PlotUnderway(c), PlotInSlot(c), c.accepted);
    assert c.sentPlots + [] == c.sentPlots;
    assert PlotLine(c1) == c.sentPlots + PlotInSlot(c);
  }

  lemma TakeFromQueue(sent: seq<string>, queue: seq<string>)
    requires queue != []
    ensures sent + [queue[0]] + queue[1..] == sent + [] + queue
  {
  }

  /** Messages have only moved along their lines, and the sender sleeps only with nothing pending. */
  predicate Shifted(c: Connection, c1: Connection) {
    && c1.open == c.open && c1.accepted == c.accepted && c1.reliable == c.reliable && !c1.phase.Stopped?
    && PlotLine(c1) == PlotLine(c)
    && c1.sentReliable + ReliableUnderway(c1) + c1.queue == c.sentReliable + ReliableUnderway(c) + c.queue
    && (c1.phase.Waiting? && !c1.wake ==> (c.phase.Waiting? && !c.wake) || NothingPending(c1))
  }

  /** Taking the next message moves it from queue or slot into the sender's hands. */
  lemma LookShifts(c: Connection, onNothing: Phase)
    requires !c.phase.Sending? && (onNothing == Clearing || onNothing == Waiting)
    ensures Shifted(c, Looked(c, onNothing))
  {
    if c.queue != [] {
      TakeFromQueue(c.sentReliable, c.queue);
    }
    assert c.sentPlots + [] + PlotInSlot(c) == c.sentPlots + PlotInSlot(c) + [];
  }

  lemma SendShifts(c: Connection)
    requires c.phase.Sending?
    ensures Shifted(c, SenderMoves(c, true))
  {
    assert c.sentReliable + [] == c.sentReliable && c.sentPlots + [] == c.sentPlots;
  }

  lemma RestShifts(c: Connection)
    requires c.phase.Clearing? || c.phase.Waiting?
    ensures Shifted(c, SenderMoves(c, true))
  {
  }

  /** A sender move that does not fail only shifts messages along their line. */
  lemma SenderShifts(c: Connection)
    requires !c.phase.Stopped?
    ensures Shifted(c, SenderMoves(c, true))
  {
    hide Shifted, Looked;
    match c.phase
    case Looking => LookShifts(c, Clearing);
    case Rechecking => LookShifts(c, Waiting);
    case Sending(_) => SendShifts(c);
    case _ => RestShifts(c);
  }

  lemma SenderKeepsInv(l: Limits, c: Connection, delivered: bool)
    requires Inv(l, c) && c.open
    ensures Inv(l, SenderMoves(c, delivered))
  {
    hide InOrder, Looked;
    if delivered || !c.phase.Sending? {
      SenderShifts(c);
    } else {
      StoppingKeepsInv(l, c);
    }
  }

  lemma ReliableOfferKeepsInv(l: Limits, c: Connection, text: string)
    requires Inv(l, c) && c.open
    ensures Inv(l, ReliableOffered(l, c, text))
  {
    hide InOrder;
    var c1 := ReliableOffered(l, c, text);
    if |c.queue| >= l.queueSize {
      StoppingKeepsInv(l, c);
    } else {
      assert c1.sentReliable + ReliableUnderway(c1) + c1.queue == c.sentReliable + ReliableUnderway(c) + c.queue + [text];
      assert PlotLine(c1) == PlotLine(c);
    }
  }

  lemma RateChangeKeepsInv(l: Limits, c: Connection, fps: Option<real>)
    requires Inv(l, c)
    ensures Inv(l, c.(fps := fps, lastPlot := 0.0))
  {
    hide InOrder;
    assert PlotLine(c.(fps := fps, lastPlot := 0.0)) == PlotLine(c);
  }

  lemma ClosedStaysPut(l: Limits, c: Connection, step: Step)
    requires Inv(l, c) && !c.open
    ensures Do(l, c, step) == c
  {
  }

  lemma StepKeepsInv(l: Limits, c: Connection, step: Step)
    requires Inv(l, c)
    ensures Inv(l, Do(l, c, step))
  {
    hide Inv, SenderMoves, ReliableOffered, PlotOffered;
    if !c.open {
      ClosedStaysPut(l, c, step);
    } else {
      match step
      case Sender(delivered) => SenderKeepsInv(l, c, delivered);
      case OfferPlot(frame, now) => PlotOfferKeepsInv(l, c, frame, now);
      case OfferReliable(text) => ReliableOfferKeepsInv(l, c, text);
      case SetMaxFps(requested) => RateChangeKeepsInv(l, c, Resolved(l, requested));
    }
  }

  lemma {:induction false} RunKeepsInv(l: Limits, c: Connection, steps: seq<Step>)
    requires Inv(l, c)
    ensures Inv(l, After(l, c, steps))
    decreases |steps|
  {
    hide Inv, Do;
    if steps != [] {
      StepKeepsInv(l, c, steps[0]);
      RunKeepsInv(l, Do(l, c, steps[0]), steps[1..]);
    }
  }

  lemma OpenedIsInv(l: Limits, requested: Option<real>, fullDetail: bool)
    ensures Inv(l, Opened(l, requested, fullDetail))
  {
  }

  /**
   * Over every run of a connection, whatever the order of offers, frame-rate changes and sender moves:
   * the sender never sleeps on an unset event while something is pending; reliable messages go out as a
   * prefix of those accepted; plot frames go out in the order they were accepted, none twice; and when
   * old frames are dropped the newest accepted frame is never the one lost.
   */
  lemma DeliveryIsSound(l: Limits, requested: Option<real>, fullDetail: bool, steps: seq<Step>)
    ensures var c := After(l, Opened(l, requested, fullDetail), steps);
            && NotAsleepOnPending(c)
            && c.sentReliable <= c.reliable
            && InOrder(c.sentPlots, c.accepted)
            && (l.dropOld && c.phase.Waiting? && !c.wake && c.accepted != [] ==>
                  c.sentPlots != [] && c.sentPlots[|c.sentPlots| - 1].index == |c.accepted| - 1)
  {
    hide Inv, InOrder, After;
    var c := After(l, Opened(l, requested, fullDetail), steps);
    OpenedIsInv(l, requested, fullDetail);
    RunKeepsInv(l, Opened(l, requested, fullDetail), steps);
    InvMeans(l, c);
  }

  lemma InvMeans(l: Limits, c: Connection)
    requires Inv(l, c)
    ensures NotAsleepOnPending(c)
    ensures c.sentReliable <= c.reliable && InOrder(c.sentPlots, c.accepted)
    ensures l.dropOld && c.phase.Waiting? && !c.wake && c.accepted != [] ==>
              c.sentPlots != [] && c.sentPlots[|c.sentPlots| - 1].index == |c.accepted| - 1
  {
    hide InOrder;
    assert c.sentPlots + (PlotUnderway(c) + PlotInSlot(c)) + [] == PlotLine(c) && c.sentPlots + [] == c.sentPlots;
    InOrderWithout(c.sentPlots, PlotUnderway(c) + PlotInSlot(c), [], c.accepted);
  }

  /** Sender moves still needed before a pending message is picked up. */
  function MovesToPickUp(c: Connection): nat {
    match c.phase
    case Looking => 1
    case Clearing => 2
    case Rechecking => 1
    case Waiting => 2
    case Sending(_) => 2
    case Stopped => 0
  }

  /**
   * Something pending is picked up within two moves of the sender, reliable messages first, and
   * nothing anyone else does in between puts that off.
   */
  lemma PendingIsPickedUp(l: Limits, c: Connection, step: Step)
    requires c.open && !c.phase.Stopped? && !NothingPending(c) && NotAsleepOnPending(c)
    ensures var c1 := Do(l, c, step);
            c1.open ==>
              && !c1.phase.Stopped? && NotAsleepOnPending(c1)
              && if step.Sender? then
                if MovesToPickUp(c) == 1
                then c1.phase == Sending(if c.queue != [] then Reliable(c.queue[0]) else Plot(c.latest.value))
                else MovesToPickUp(c1) == 1 && !NothingPending(c1)
              else MovesToPickUp(c1) == MovesToPickUp(c) && !NothingPending(c1)
  {
  }

  function SenderMovesIn(steps: seq<Step>): nat {
    if steps == [] then 0 else (if steps[0].Sender? then 1 else 0) + SenderMovesIn(steps[1..])
  }

  /**
   * Over a whole run: once the sender has moved twice - or once, if it was about to look - while the connection
   * stayed open, something pending has been picked up, the oldest reliable message first and the slot last.
   */
  lemma {:induction false} PickedUpWithinTwoMoves(l: Limits, c: Connection, steps: seq<Step>) returns (k: nat)
    requires c.open && !c.phase.Stopped? && !NothingPending(c) && NotAsleepOnPending(c)
    requires SenderMovesIn(steps) >= MovesToPickUp(c) && After(l, c, steps).open
    ensures 1 <= MovesToPickUp(c) <= 2
    ensures 0 < k <= |steps| && SenderMovesIn(steps[..k]) == MovesToPickUp(c)
    ensures var before := After(l, c, steps[..k - 1]);
            && !NothingPending(before)
            && After(l, c, steps[..k]).phase ==
               Sending(if before.queue != [] then Reliable(before.queue[0]) else Plot(before.latest.value))
    decreases |steps|
  {
    hide Do, NotAsleepOnPending;
    var next := Do(l, c, steps[0]);
    if !next.open { ClosedStaysClosed(l, next, steps[1..]); }
    PendingIsPickedUp(l, c, steps[0]);
    if steps[0].Sender? && MovesToPickUp(c) == 1 {
      k := 1;
      assert steps[..1][1..] == [] && steps[..0] == [];
    } else {
      var j := PickedUpWithinTwoMoves(l, next, steps[1..]);
      k := j + 1;
      assert steps[..k][1..] == steps[1..][..j] && steps[..j][1..] == steps[1..][..j - 1];
    }
  }

  lemma {:induction false} ClosedStaysClosed(l: Limits, c: Connection, steps: seq<Step>)
    requires !c.open
    ensures !After(l, c, steps).open
    decreases |steps|
  {
    if steps != [] {
      ClosedStep(l, c, steps[0]);
      ClosedStaysClosed(l, Do(l, c, steps[0]), steps[1..]);
    }
  }

  lemma ClosedStep(l: Limits, c: Connection, step: Step)
    requires !c.open
    ensures !Do(l, c, step).open
  {
  }

  // ---------------------------------------------------------------------------
  // Frame rate
  // ---------------------------------------------------------------------------

  /** From position `from` on, frames are at least `d` apart. */
  predicate Apart(accepted: seq<Accepted>, from: nat, d: real) {
    forall i, j :: from <= i <= j < |accepted| ==> accepted[j].at - accepted[i].at >= (j - i) as real * d
  }

  /** ... and the last one of them set the throttle. */
  predicate Spaced(c: Connection, from: nat, fps: real)
    requires fps > 0.0
  {
    && from <= |c.accepted| && c.fps == Some(fps)
    && (|c.accepted| > from ==> c.lastPlot == c.accepted[|c.accepted| - 1].at)
    && Apart(c.accepted, from, 1.0 / fps)
  }

  lemma ApartOneMore(accepted: seq<Accepted>, from: nat, d: real, a: Accepted)
    requires from <= |accepted| && Apart(accepted, from, d)
    requires |accepted| > from ==> a.at - accepted[|accepted| - 1].at >= d
    ensures Apart(accepted + [a], from, d)
  {
    var more, last := accepted + [a], |accepted|;
    forall i, j | from <= i <= j < |more| ensures more[j].at - more[i].at >= (j - i) as real * d {
      if j == last && i < last {
        assert accepted[last - 1].at - accepted[i].at >= (last - 1 - i) as real * d;
        OneMoreGap((last - i) as real, d);
      }
    }
  }

  lemma OneMoreGap(k: real, d: real)
    ensures k * d == (k - 1.0) * d + d
  {
  }

  lemma StepKeepsSpacing(l: Limits, c: Connection, from: nat, fps: real, step: Step)
    requires fps > 0.0 && Spaced(c, from, fps) && !step.SetMaxFps?
    ensures Spaced(Do(l, c, step), from, fps)
  {
    hide Apart;
    if step.OfferPlot? && c.open && !Throttled(c, step.now) {
      ApartOneMore(c.accepted, from, 1.0 / fps, Accepted(if c.fullDetail then step.frame.full else step.frame.summary, step.now));
    } else if step.Sender? {
      SenderLeavesThrottle(c, step.delivered);
    }
  }

  lemma SenderLeavesThrottle(c: Connection, delivered: bool)
    ensures var c1 := SenderMoves(c, delivered);
            c1.fps == c.fps && c1.lastPlot == c.lastPlot && c1.accepted == c.accepted
  {
    hide Looked;
    LookLeavesThrottle(c, Clearing);
    LookLeavesThrottle(c, Waiting);
  }

  lemma LookLeavesThrottle(c: Connection, onNothing: Phase)
    ensures var c1 := Looked(c, onNothing);
            c1.fps == c.fps && c1.lastPlot == c.lastPlot && c1.accepted == c.accepted
  {
  }

  predicate NoRateChange(steps: seq<Step>) {
    forall k :: 0 <= k < |steps| ==> !steps[k].SetMaxFps?
  }

  lemma {:induction false} RunKeepsSpacing(l: Limits, c: Connection, from: nat, fps: real, steps: seq<Step>)
    requires fps > 0.0 && Spaced(c, from, fps) && NoRateChange(steps)
    ensures Spaced(After(l, c, steps), from, fps)
    decreases |steps|
  {
    hide Spaced, Do;
    if steps != [] {
      StepKeepsSpacing(l, c, from, fps, steps[0]);
      RunKeepsSpacing(l, Do(l, c, steps[0]), from, fps, steps[1..]);
    }
  }

  /**
   * The throttle. From any state, as long as the cap stays at `fps`, any stretch of accepted frames whose
   * first and last are at most `window` apart holds no more than floor(window * fps) + 1 of them.
   */
  lemma RateIsBounded(l: Limits, c: Connection, fps: real, steps: seq<Step>, i: nat, j: nat, window: real)
    requires fps > 0.0 && c.fps == Some(fps) && NoRateChange(steps)
    requires |c.accepted| <= i <= j < |After(l, c, steps).accepted|
    requires After(l, c, steps).accepted[j].at - After(l, c, steps).accepted[i].at <= window
    ensures j - i + 1 <= (window * fps).Floor + 1
  {
    hide After, NoRateChange;
    RunKeepsSpacing(l, c, |c.accepted|, fps, steps);
    GapsFit((j - i) as real, fps, window);
  }

  /** And it holds back no more than that: once a frame has gone through, the next one does exactly when a period has passed. */
  lemma NextFrameGoesThroughWhenDue(l: Limits, c: Connection, fps: real, steps: seq<Step>, frame: Frame, now: real)
    requires fps > 0.0 && c.fps == Some(fps) && NoRateChange(steps)
    requires After(l, c, steps).open && |After(l, c, steps).accepted| > |c.accepted|
    ensures var t := After(l, c, steps);
            var last := t.accepted[|t.accepted| - 1];
            if now - last.at >= 1.0 / fps
            then Do(l, t, OfferPlot(frame, now)).accepted ==
                 t.accepted + [Accepted(if t.fullDetail then frame.full else frame.summary, now)]
            else Do(l, t, OfferPlot(frame, now)) == t
  {
    hide After, NoRateChange;
    RunKeepsSpacing(l, c, |c.accepted|, fps, steps);
  }

  lemma GapsFit(gaps: real, fps: real, window: real)
    requires fps > 0.0 && gaps * (1.0 / fps) <= window
    ensures gaps <= window * fps
  {
    var d := 1.0 / fps;
    assert d * fps == 1.0;
    assert (window - gaps * d) * fps >= 0.0;
    assert gaps * d * fps == gaps * (d * fps);
  }

  /** A rate change resets the throttle: the next frame a full period after the clock's origin goes through at once. */
  lemma RateChangeLetsNextFrameThrough(l: Limits, c: Connection, requested: Option<real>, frame: Frame, now: real)
    requires c.open
    ensures var c1 := Do(l, c, SetMaxFps(requested));
            var c2 := Do(l, c1, OfferPlot(frame, now));
            |c2.accepted| == |c.accepted| + 1 <==>
            (Resolved(l, requested).None? || Resolved(l, requested).value == 0.0 || now >= 1.0 / Resolved(l, requested).value)
  {
  }
}
