/**
 The loop of the server task, and the events on their way from it to the application: a bounded
 channel, and a backlog for what the channel does not hold. The loop reads another datagram only
 while the backlog has room, which is what keeps events from being dropped.
 */
module ServerLoop {
  import opened Basics
  import Cemi
  import opened TunnelServer
  import opened TunnelServerRuns

  const MAX_EVENT_BACKLOG: nat := 1024

  datatype ServerEvent = TunnelFrame(frame: Cemi.Frame) | RoutingFrame(frame: Cemi.Frame)

  /** The channel with its capacity, whether its receiver still exists, and the backlog. */
  datatype Queue = Queue(channel: seq<ServerEvent>, capacity: nat, alive: bool, backlog: seq<ServerEvent>)

  function Pushed(q: Queue, event: ServerEvent): Queue {
    if q.backlog == [] then
      if !q.alive then q
      else if |q.channel| < q.capacity then q.(channel := q.channel + [event])
      else q.(backlog := [event])
    else if |q.backlog| < MAX_EVENT_BACKLOG then q.(backlog := q.backlog + [event])
    else q
  }

  predicate Roomy(q: Queue) {
    |q.backlog| < MAX_EVENT_BACKLOG
  }

  /** A slot of the channel can be reserved, or the receiver is known to be gone. */
  predicate CanReserve(q: Queue) {
    !q.alive || |q.channel| < q.capacity
  }

  /** The oldest event of the backlog is handed over; without a receiver the backlog is given up. */
  function Delivered(q: Queue): Queue {
    if !q.alive then q.(backlog := [])
    else if q.backlog == [] then q
    else q.(channel := q.channel + [q.backlog[0]], backlog := q.backlog[1..])
  }

  /** What the application can still receive, in order. */
  function Held(q: Queue): seq<ServerEvent> {
    q.channel + q.backlog
  }

  /** An event is kept, as the last one held, exactly when there is room and somebody to read it. */
  lemma PushKeepsExactlyWithRoom(q: Queue, event: ServerEvent)
    ensures Held(Pushed(q, event)) == Held(q) + [event] <==> Roomy(q) && (q.alive || q.backlog != [])
    ensures !(Roomy(q) && (q.alive || q.backlog != [])) ==> Pushed(q, event) == q
  {
    if Roomy(q) && (q.alive || q.backlog != []) {
      assert Held(Pushed(q, event)) == Held(q) + [event];
    } else {
      assert |Held(Pushed(q, event))| == |Held(q)|;
    }
  }

  /** A delivery moves exactly the oldest event that is held back; without a reader all of them are dropped. */
  lemma DeliveryMoves(q: Queue)
    requires CanReserve(q)
    ensures q.alive && q.backlog != [] ==>
              Delivered(q) == q.(channel := q.channel + [q.backlog[0]], backlog := q.backlog[1..])
    ensures !q.alive ==> Delivered(q) == q.(backlog := [])
  {
  }

  lemma DeliveryKeepsOrder(q: Queue)
    requires q.alive
    ensures Held(Delivered(q)) == Held(q)
  {
    if q.backlog != [] {
      assert q.backlog == [q.backlog[0]] + q.backlog[1..];
    }
  }

  // ── The queue in its own form ───────────────────────────────────

  class EventQueue {
    var channel: seq<ServerEvent>
    const capacity: nat
    var alive: bool
    var backlog: seq<ServerEvent>

    function Model(): Queue
      reads this
    {
      Queue(channel, capacity, alive, backlog)
    }

    constructor (capacity: nat)
      ensures Model() == Queue([], capacity, true, [])
    {
      this.capacity := capacity;
      channel := [];
      alive := true;
      backlog := [];
    }

    /** Whether the event went into the channel, and whether the receiver is gone. */
    method TrySend(event: ServerEvent) returns (sent: bool, closed: bool)
      modifies `channel
      ensures closed == !alive && sent == (alive && |old(channel)| < capacity)
      ensures channel == if sent then old(channel) + [event] else old(channel)
    {
      closed := !alive;
      sent := alive && |channel| < capacity;
      if sent {
        channel := channel + [event];
      }
    }

    /** Hand `event` to the application without waiting. */
    method Push(event: ServerEvent)
      modifies `channel, `backlog
      ensures Model() == Pushed(old(Model()), event)
    {
      if backlog == [] {
        var sent, closed := TrySend(event);
        if !sent && !closed {
          backlog := backlog + [event];
        }
      } else if |backlog| < MAX_EVENT_BACKLOG {
        backlog := backlog + [event];
      }
    }

    method HasRoom() returns (room: bool)
      ensures room == Roomy(Model())
    {
      room := |backlog| < MAX_EVENT_BACKLOG;
    }

    /** Move the oldest held-back event into the channel once a slot could be reserved. */
    method Deliver()
      requires CanReserve(Model())
      modifies `channel, `backlog
      ensures Model() == Delivered(old(Model()))
    {
      if alive {
        if backlog != [] {
          channel, backlog := channel + [backlog[0]], backlog[1..];
        }
      } else {
        backlog := [];
      }
    }
  }

  // ── The loop ────────────────────────────────────────────────────

  datatype Step =
    | Datagram(event: Event, now: nat)
    | Routing(body: Octets)
    | Other(event: Event, now: nat)
    | Deliver
    | ApplicationTakes
    | ApplicationStops

  /** The loop with its history: every event read from the socket, and every one the application took. */
  datatype Loop = Loop(server: Server, events: Queue, read: seq<ServerEvent>, taken: seq<ServerEvent>)

  predicate FromNetwork(e: Event) {
    e.Connect? || e.Heartbeat? || e.Disconnect? || e.Request? || e.Ack?
  }

  /** The guards of the loop's arms. */
  predicate Ready(l: Loop, step: Step) {
    match step
    case Datagram(event, _) => Roomy(l.events) && FromNetwork(event)
    case Routing(_) => Roomy(l.events)
    case Other(event, _) => !FromNetwork(event)
    case Deliver => l.events.backlog != [] && CanReserve(l.events)
    case ApplicationTakes => l.events.channel != []
    case ApplicationStops => l.events.alive
  }

  function TunnelFrames(frames: seq<Cemi.ValidFrame>): seq<ServerEvent> {
    seq(|frames|, i requires 0 <= i < |frames| => TunnelFrame(frames[i]))
  }

  /** The events one arm of the loop hands over. */
  function Events(l: Loop, step: Step): seq<ServerEvent> {
    match step
    case Datagram(event, now) => TunnelFrames(TunnelServerRuns.Handle(l.server, event, now).events)
    case Routing(body) =>
      (match Cemi.Parse(body) case Ok(f) => [RoutingFrame(f)] case Err(_) => [])
    case Other(event, now) => TunnelFrames(TunnelServerRuns.Handle(l.server, event, now).events)
    case _ => []
  }

  function PushedAll(q: Queue, events: seq<ServerEvent>): Queue {
    if events == [] then q else Pushed(PushedAll(q, events[..|events| - 1]), events[|events| - 1])
  }

  function Next(l: Loop, step: Step): Loop {
    var server :=
      if step.Datagram? || step.Other? then TunnelServerRuns.Handle(l.server, step.event, step.now).server else l.server;
    var q := PushedAll(l.events, Events(l, step));
    var read := l.read + Events(l, step);
    match step
    case Deliver => Loop(server, Delivered(q), read, l.taken)
    case ApplicationTakes =>
      if q.channel == [] then Loop(server, q, read, l.taken)
      else Loop(server, q.(channel := q.channel[1..]), read, l.taken + [q.channel[0]])
    case ApplicationStops => Loop(server, q.(channel := [], alive := false), read, l.taken)
    case _ => Loop(server, q, read, l.taken)
  }

  /** A run of the loop; `None` when an arm ran although its guard was closed. */
  function Run(l: Loop, steps: seq<Step>): Option<Loop> {
    if steps == [] then Some(l)
    else
      match Run(l, steps[..|steps| - 1])
      case None => None
      case Some(m) => if Ready(m, steps[|steps| - 1]) then Some(Next(m, steps[|steps| - 1])) else None
  }

  /** What the application took is a prefix of what was read; nothing is missing while it listens. */
  ghost predicate Intact(l: Loop) {
    && l.taken <= l.read
    && (l.events.alive ==> l.taken + Held(l.events) == l.read)
    && |l.events.channel| <= l.events.capacity
    && |l.events.backlog| <= MAX_EVENT_BACKLOG
    && (!l.events.alive ==> l.events.channel == [])
  }

  lemma AtMostOneIsPushed(l: Loop, step: Step)
    ensures |Events(l, step)| <= 1
    ensures Ready(l, step) && Events(l, step) != [] ==> Roomy(l.events)
  {
    if step.Datagram? || step.Other? {
      AtMostOneEvent(l.server, step.event, step.now);
    }
  }

  lemma PushingStaysIntact(l: Loop, q: Queue, events: seq<ServerEvent>)
    requires Intact(l) && |events| <= 1 && (events != [] ==> Roomy(l.events)) && q == PushedAll(l.events, events)
    ensures Intact(l.(events := q, read := l.read + events))
  {
    if events != [] {
      assert events == [events[0]] && events[..0] == [];
      PushKeepsExactlyWithRoom(l.events, events[0]);
      assert l.taken + (Held(l.events) + events) == (l.taken + Held(l.events)) + events;
    }
  }

  lemma StepStaysIntact(l: Loop, step: Step)
    requires Intact(l) && Ready(l, step)
    ensures Intact(Next(l, step))
  {
    AtMostOneIsPushed(l, step);
    PushingStaysIntact(l, PushedAll(l.events, Events(l, step)), Events(l, step));
    match step
    case Deliver =>
      if l.events.alive {
        DeliveryKeepsOrder(l.events);
      }
    case ApplicationTakes =>
      assert l.events.channel == [l.events.channel[0]] + l.events.channel[1..];
      assert l.taken + Held(l.events) == Next(l, step).taken + Held(Next(l, step).events);
    case _ =>
  }

  /**
   Over every run of the loop with its guards, no event is lost or reordered: what the application
   received, then what the channel and the backlog hold, is exactly what was read from the socket,
   as long as the application listens; and what it received is always a prefix of what was read.
   */
  lemma {:induction false} NothingReadIsDropped(server: Server, capacity: nat, steps: seq<Step>)
    requires Run(Loop(server, Queue([], capacity, true, []), [], []), steps).Some?
    ensures Intact(Run(Loop(server, Queue([], capacity, true, []), [], []), steps).value)
  {
    if steps != [] {
      var n := |steps| - 1;
      NothingReadIsDropped(server, capacity, steps[..n]);
      StepStaysIntact(Run(Loop(server, Queue([], capacity, true, []), [], []), steps[..n]).value, steps[n]);
    }
  }
}
