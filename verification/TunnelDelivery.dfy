/**
 What the applications at both ends of a tunnel get: where only cEMI frames are queued, as the
 interfaces of both ends demand, every request that is accepted is a frame and is delivered, so
 exactly-once holds for the frames themselves.
 */
module TunnelDelivery {
  import opened Basics
  import opened TunnelServer
  import opened TunnelServerRuns
  import opened TunnelAccounts
  import opened TunnelPair
  import Cemi
  import Ts = TunnelState

  predicate IsFrame(cemi: Octets) {
    Cemi.Parse(cemi).Ok?
  }

  predicate AllFrames(bodies: seq<Octets>) {
    forall i :: 0 <= i < |bodies| ==> IsFrame(bodies[i])
  }

  /** Everything a tunnel holds back or repeats is a frame. */
  predicate HoldsFrames(t: Tunnel) {
    && AllFrames(t.outbox)
    && (t.inFlight.Some? && t.inFlight.value.datagram.TunnelingRequest? ==> IsFrame(t.inFlight.value.datagram.cemi))
  }

  predicate SendsFrames(sent: seq<Sent>) {
    forall i :: 0 <= i < |sent| && sent[i].datagram.TunnelingRequest? ==> IsFrame(sent[i].datagram.cemi)
  }

  // ── The server's end ────────────────────────────────────────────

  lemma FrameIsSerializable(cemi: Octets)
    requires IsFrame(cemi)
    ensures Serializable(cemi)
  {
    Cemi.FrameIsShort(Cemi.Parse(cemi).value);
  }

  lemma PumpingFrames(t: Tunnel, now: nat)
    requires HoldsFrames(t)
    ensures HoldsFrames(Pumped(t, now).tunnel) && SendsFrames(Pumped(t, now).sent)
  {
    if t.inFlight.None? && t.outbox != [] {
      FrameIsSerializable(t.outbox[0]);
    }
  }

  lemma QueueingFrames(t: Tunnel, cemi: Octets, now: nat)
    requires HoldsFrames(t) && IsFrame(cemi)
    ensures HoldsFrames(Queued(t, cemi, now).tunnel) && SendsFrames(Queued(t, cemi, now).sent)
  {
    PumpingFrames(Enqueued(t, cemi), now);
  }

  lemma AcceptingFrames(t: Tunnel, body: Octets, now: nat)
    requires HoldsFrames(t)
    ensures HoldsFrames(Accepted(t, body, now).tunnel) && SendsFrames(Accepted(t, body, now).sent)
  {
    var advanced := t.(recvSeq := (t.recvSeq + 1) % 256);
    match Cemi.Parse(body)
    case Err(_) =>
    case Ok(f) =>
      if f.data[0] == Cemi.L_DATA_REQ {
        ConfirmationIsAFrame(f);
        QueueingFrames(advanced, ConfirmationOf(f).value, now);
      }
  }

  /** An event that queues frames only lets the tunnel send frames only. */
  lemma AloneSendsFrames(t: Tunnel, e: ClientEvent, now: nat)
    requires HoldsFrames(t) && (e.Queue? ==> IsFrame(e.cemi))
    ensures var o := Alone(t, e, now);
            (o.tunnel.Some? ==> HoldsFrames(o.tunnel.value)) && SendsFrames(o.sent) && AllFrames(FirstTransmissions(o))
  {
    match e
    case Take(body) => AcceptingFrames(t, body, now);
    case AckNumber(sequence) =>
      PumpingFrames(t.(inFlight := None, sendSeq := (sequence + 1) % 256), now);
    case Queue(cemi) => QueueingFrames(t, cemi, now);
    case _ =>
  }

  // ── Both directions ─────────────────────────────────────────────

  /** The applications hand over frames only. */
  predicate QueuesFrame(step: Step) {
    match step
    case AtServer(Queue(cemi), _) => IsFrame(cemi)
    case ClientStarts(cemi) => IsFrame(cemi)
    case _ => true
  }

  ghost predicate FramesOnly(p: Pair) {
    && (p.server.Some? ==> HoldsFrames(p.server.value))
    && AllFrames(p.down.sent) && AllFrames(p.up.sent)
  }

  lemma ServerActsOnFrames(p: Pair, t: Tunnel, e: ClientEvent, now: nat, reply: seq<P>)
    requires FramesOnly(p) && p.server == Some(t) && (e.Queue? ==> IsFrame(e.cemi))
    ensures FramesOnly(ServerActed(p, t, e, Alone(t, e, now), reply))
  {
    AloneSendsFrames(t, e, now);
  }

  /** A client begins to send only what its application hands over. */
  lemma OnlyStartBegins(c: Ts.Client, e: Ts.Step)
    ensures if e.Start? then AllFrames(Begun(c, Ts.Handle(c, e))) || !IsFrame(e.cemi) else Begun(c, Ts.Handle(c, e)) == []
  {
  }

  lemma StepKeepsFrames(p: Pair, step: Step)
    requires FramesOnly(p) && Enabled(p, step) && QueuesFrame(step)
    ensures FramesOnly(Do(p, step))
  {
    match step
    case AtServer(e, now) => ServerActsOnFrames(p, p.server.value, e, now, []);
    case ServerReceives(keepCopy, now) =>
      ReceivingKeepsFrames(p.(toServer := if keepCopy then p.toServer else p.toServer[1..]), p.toServer[0], now);
    case ClientStarts(cemi) => OnlyStartBegins(p.client, Ts.Start(cemi));
    case ClientExpires => OnlyStartBegins(p.client, Ts.Expire);
    case ClientReceives(_) => OnlyStartBegins(p.client, Ts.Arrive(Some(ToDatagram(p.id, p.toClient[0].message))));
    case ClientHears(d) => OnlyStartBegins(p.client, Ts.Arrive(d));
    case _ =>
  }

  lemma ReceivingKeepsFrames(p: Pair, x: P, now: nat)
    requires FramesOnly(p)
    ensures FramesOnly(ServerGets(p, x, now))
  {
    if p.server.Some? {
      var t := p.server.value;
      match x.message
      case Numbered(sequence, cemi) =>
        ServerActsOnFrames(p, t, if sequence == t.recvSeq then Take(cemi) else Nothing, now,
                           [StopAndWait.Packet(StopAndWait.Acknowledged(sequence), x.index)]);
      case Acknowledged(sequence) => ServerActsOnFrames(p, t, AckNumber(sequence), now, []);
      case Signal(_) =>
    }
  }

  lemma {:induction false} RunKeepsFrames(states: seq<Pair>, steps: seq<Step>, k: nat)
    requires IsRun(states, steps) && k < |states| && forall i :: 0 <= i < |steps| ==> QueuesFrame(steps[i])
    ensures FramesOnly(states[k])
  {
    if k > 0 {
      RunKeepsFrames(states, steps, k - 1);
      StepKeepsFrames(states[k - 1], steps[k - 1]);
    }
  }

  // ── What is delivered ───────────────────────────────────────────

  /** The octets of frames. */
  function OctetsOf(frames: seq<Cemi.ValidFrame>): (r: seq<Octets>)
    ensures |r| == |frames|
  {
    seq(|frames|, i requires 0 <= i < |frames| => frames[i].data)
  }

  /** Bodies that are frames are delivered as these frames, one for one. */
  lemma {:induction false} FramesAreDelivered(bodies: seq<Octets>)
    requires AllFrames(bodies)
    ensures OctetsOf(Ts.Frames(bodies)) == bodies
  {
    if bodies != [] {
      var n := |bodies| - 1;
      FramesAreDelivered(bodies[..n]);
      OneFrameMore(Ts.Frames(bodies[..n]), bodies[n]);
      LastApart([], bodies);
    }
  }

  lemma OneFrameMore(frames: seq<Cemi.ValidFrame>, body: Octets)
    requires IsFrame(body)
    ensures OctetsOf(frames + Ts.FrameIn(body)) == OctetsOf(frames) + [body]
  {
    assert Ts.FrameIn(body) == [Cemi.Parse(body).value];
  }

  lemma DeliveredAsReceived(d: Direction)
    requires AllFrames(d.sent) && d.received <= d.sent && d.confirmed <= |d.received| <= d.confirmed + 1
    ensures DeliveredOf(d, Ts.Frames(d.received))
  {
    assert AllFrames(d.received);
    FramesAreDelivered(d.received);
  }

  // ── What the server hands over ──────────────────────────────────

  /** The frames the server hands to its application in a step, as its request handler gives them. */
  function EventsOf(p: Pair, step: Step): seq<Cemi.ValidFrame> {
    if step.ServerReceives? && p.server.Some? && p.toServer != [] && p.toServer[0].message.Numbered? then
      var t := p.server.value;
      var m := p.toServer[0].message;
      Handle(Server([t], 1), Request(t.dataAddr, t.channelId, m.seqNo, m.payload), step.now).events
    else []
  }

  /** All frames the server handed over in the first `k` steps. */
  function HandedOver(states: seq<Pair>, steps: seq<Step>, k: nat): seq<Cemi.ValidFrame>
    requires k <= |steps| < |states|
  {
    if k == 0 then [] else HandedOver(states, steps, k - 1) + EventsOf(states[k - 1], steps[k - 1])
  }

  lemma StepHandsOver(p: Pair, step: Step)
    requires Enabled(p, step) && (p.server.Some? ==> TunnelOk(p.server.value))
    ensures Ts.Frames(Do(p, step).up.received) == Ts.Frames(p.up.received) + EventsOf(p, step)
  {
    EmptyIsUnit(Ts.Frames(p.up.received));
    if step.ServerReceives? && p.server.Some? && p.toServer[0].message.Numbered? {
      var t := p.server.value;
      var m := p.toServer[0].message;
      ServerAnswersAsInPair(Server([t], 1), t, m.seqNo, m.payload, step.now);
      OneMoreBody(p.up.received, m.payload);
    }
  }

  lemma OneMoreBody(bodies: seq<Octets>, body: Octets)
    ensures Ts.Frames(bodies + [body]) == Ts.Frames(bodies) + Ts.FrameIn(body)
  {
    assert (bodies + [body])[..|bodies|] == bodies;
  }

  lemma {:induction false} HandedOverIs(states: seq<Pair>, steps: seq<Step>, k: nat)
    requires IsRun(states, steps) && k < |states|
    ensures HandedOver(states, steps, k) == Ts.Frames(states[k].up.received)
  {
    if k > 0 {
      HandedOverIs(states, steps, k - 1);
      RunIsOk(states, steps, k - 1);
      StepHandsOver(states[k - 1], steps[k - 1]);
    }
  }

  /** These frames are a prefix of those sent, at most one ahead of the confirmed ones. */
  predicate DeliveredOf(d: Direction, delivered: seq<Cemi.ValidFrame>) {
    OctetsOf(delivered) <= d.sent && d.confirmed <= |delivered| <= d.confirmed + 1
  }

  /**
   In every state of every run in which the applications hand over frames: the frames that the
   client delivered are a prefix of those the server put in flight, each once and in order, at most
   one ahead of what is known to be acknowledged; and as long as no send of the client has failed,
   the frames that the server handed to its application are such a prefix of those the client sent.
   */
  lemma FramesAreDeliveredExactlyOnce(states: seq<Pair>, steps: seq<Step>, k: nat)
    requires IsRun(states, steps) && k < |states| && forall i :: 0 <= i < |steps| ==> QueuesFrame(steps[i])
    ensures DeliveredOf(states[k].down, Ts.Frames(states[k].down.received))
    ensures !states[k].failed ==> DeliveredOf(states[k].up, HandedOver(states, steps, k))
  {
    RunKeepsFrames(states, steps, k);
    ServerToClientIsExactlyOnce(states, steps, k);
    DeliveredAsReceived(states[k].down);
    if !states[k].failed {
      ClientToServerIsExactlyOnce(states, steps, k);
      DeliveredAsReceived(states[k].up);
      HandedOverIs(states, steps, k);
    }
  }
}
