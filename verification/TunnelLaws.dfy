/**
 What the tunnel server and its clients achieve: connections are set up and torn down, frames reach
 the other side and the applications, confirmations come back, and silence ends a tunnel.
 */
module TunnelLaws {
  import opened Basics
  import opened TunnelServer
  import opened TunnelServerRuns
  import opened TunnelAccounts
  import Cemi
  import Ts = TunnelState

  // ── Connecting ──────────────────────────────────────────────────

  /** The tunnel a client gets: idle, counting from zero, with the addresses it named. */
  predicate IsNew(t: Tunnel, id: nat, ctrlAddr: Endpoint, dataAddr: Endpoint, now: nat) {
    && t.channelId == id && t.ctrlAddr == ctrlAddr && t.dataAddr == dataAddr
    && t.sendSeq == 0 && t.recvSeq == 0 && t.lastHeartbeat == now
    && t.outbox == [] && t.inFlight.None? && !t.overflowReported
  }

  /** With room for it, a client gets a tunnel of its own; the answer says its id and its address. */
  lemma ConnectGivesTunnel(s: Server, ctrlAddr: Endpoint, dataAddr: Endpoint, now: nat) returns (t: Tunnel)
    requires ServerOk(s) && |s.tunnels| < 4
    ensures var step := Handle(s, Connect(ctrlAddr, dataAddr, false), now);
            && IsNew(t, t.channelId, ctrlAddr, dataAddr, now) && 0 < t.channelId < 256
            && (forall u :: u in s.tunnels ==> u.channelId != t.channelId)
            && step.server.tunnels == s.tunnels + [t]
            && step.sent == [Sent(ctrlAddr, ConnectResponse(t.channelId, 0x00, 0xFF00 + t.channelId))]
            && ServerOk(step.server)
  {
    HandleKeepsOk(s, Connect(ctrlAddr, dataAddr, false), now);
    var m := IdSearchEndsWithinFourProbes(s);
    LaterIs(s.nextChannelId, m);
    t := NewTunnel(Later(s.nextChannelId, m), ctrlAddr, dataAddr, now);
    NotInUse(s.tunnels, t.channelId);
    ConnectAppends(s, t, now);
  }

  lemma NotInUse(tunnels: seq<Tunnel>, id: nat)
    requires id !in Ids(tunnels)
    ensures forall u :: u in tunnels ==> u.channelId != id
  {
  }

  lemma ConnectAppends(s: Server, t: Tunnel, now: nat)
    requires |s.tunnels| < 4 && FreeId(Ids(s.tunnels), s.nextChannelId, 0) == Some(t.channelId)
    requires t == NewTunnel(t.channelId, t.ctrlAddr, t.dataAddr, now)
    ensures var step := OnConnect(s, t.ctrlAddr, t.dataAddr, false, now);
            && step.server.tunnels == s.tunnels + [t]
            && step.sent == [Sent(t.ctrlAddr, ConnectResponse(t.channelId, 0x00, 0xFF00 + t.channelId))]
  {
  }

  /** The id `j` steps after the next one, counting round from 255 to 1. */
  function Candidate(s: Server, j: nat): nat {
    if s.nextChannelId + j < 256 then s.nextChannelId + j else s.nextChannelId + j - 255
  }

  predicate InUse(s: Server, id: nat) {
    exists t :: t in s.tunnels && t.channelId == id
  }

  /** The new tunnel gets the first free id from the next one on, and the next one is the one behind it. */
  lemma FirstFreeId(s: Server, ctrlAddr: Endpoint, dataAddr: Endpoint, t: Tunnel, now: nat) returns (m: nat)
    requires ServerOk(s) && |s.tunnels| < 4
    requires Handle(s, Connect(ctrlAddr, dataAddr, false), now).server.tunnels == s.tunnels + [t]
    ensures m <= 3 && t.channelId == Candidate(s, m) && !InUse(s, t.channelId)
    ensures forall j: nat :: j < m ==> InUse(s, Candidate(s, j))
    ensures Handle(s, Connect(ctrlAddr, dataAddr, false), now).server.nextChannelId
         == if t.channelId == 255 then 1 else t.channelId + 1
  {
    m := FirstCandidate(s);
    ConnectTakes(s, ctrlAddr, dataAddr, t, now, Candidate(s, m));
  }

  lemma FirstCandidate(s: Server) returns (m: nat)
    requires ServerOk(s) && |s.tunnels| < 4
    ensures m <= 3 && FreeId(Ids(s.tunnels), s.nextChannelId, 0) == Some(Candidate(s, m)) && 0 < Candidate(s, m) < 256
    ensures !InUse(s, Candidate(s, m)) && forall j: nat :: j < m ==> InUse(s, Candidate(s, j))
  {
    m := IdSearchEndsWithinFourProbes(s);
    LaterIs(s.nextChannelId, m);
    NotInUse(s.tunnels, Candidate(s, m));
    forall j: nat | j < m ensures InUse(s, Candidate(s, j)) {
      LaterIs(s.nextChannelId, j);
    }
  }

  lemma ConnectTakes(s: Server, ctrlAddr: Endpoint, dataAddr: Endpoint, t: Tunnel, now: nat, id: nat)
    requires |s.tunnels| < 4 && FreeId(Ids(s.tunnels), s.nextChannelId, 0) == Some(id) && 0 < id < 256
    requires OnConnect(s, ctrlAddr, dataAddr, false, now).server.tunnels == s.tunnels + [t]
    ensures t.channelId == id
    ensures OnConnect(s, ctrlAddr, dataAddr, false, now).server.nextChannelId == if id == 255 then 1 else id + 1
  {
    assert OnConnect(s, ctrlAddr, dataAddr, false, now).server.tunnels[|s.tunnels|] == t;
  }

  /** A fifth client and another type of connection are refused, and nothing changes. */
  lemma ConnectIsRefused(s: Server, ctrlAddr: Endpoint, dataAddr: Endpoint, deviceManagement: bool, now: nat)
    requires |s.tunnels| >= 4 || deviceManagement
    ensures Handle(s, Connect(ctrlAddr, dataAddr, deviceManagement), now)
         == ServerStep(s, [Sent(ctrlAddr, ConnectResponse(0, if deviceManagement then 0x22 else 0x24, 0))], [])
  {
  }

  /** The frame in a body that the application gets, if it is one. */
  function Frame(body: Octets): seq<Cemi.ValidFrame> {
    if Cemi.Parse(body).Ok? then [Cemi.Parse(body).value] else []
  }

  /** What a request hands to the application: the frame in it, if it has the expected number. */
  lemma RequestHandsOver(s: Server, t: Tunnel, sequence: nat, body: Octets, now: nat)
    requires ServerOk(s) && t in s.tunnels
    ensures var step := Handle(s, Request(t.dataAddr, t.channelId, sequence, body), now);
            && step.events == (if sequence == t.recvSeq then Frame(body) else [])
            && step.sent != [] && step.sent[0] == Sent(t.dataAddr, TunnelingAck(t.channelId, sequence, 0x00))
  {
    FirstOrOther(s, t, t.channelId, None, None);
  }

  /** Requests from another address or on an unknown channel are turned away. */
  lemma RequestIsRefused(s: Server, src: Endpoint, id: nat, sequence: nat, body: Octets, now: nat)
    requires ServerOk(s) && forall u :: u in s.tunnels && u.channelId == id ==> u.dataAddr != src
    ensures Handle(s, Request(src, id, sequence, body), now)
         == ServerStep(s, [Sent(src, TunnelingAck(id, sequence, 0x21))], [])
  {
    var k := First(s.tunnels, HasId(id));
    if k < |s.tunnels| {
      assert s.tunnels[k] in s.tunnels;
    }
  }

  /** A new client can use the id in the answer at once, from its data address: its first request is taken. */
  lemma NewClientIsServed(s: Server, ctrlAddr: Endpoint, dataAddr: Endpoint, body: Octets, now: nat, later: nat)
    requires ServerOk(s) && |s.tunnels| < 4
    ensures var connected := Handle(s, Connect(ctrlAddr, dataAddr, false), now);
            && |connected.sent| == 1 && connected.sent[0].to == ctrlAddr && connected.sent[0].datagram.ConnectResponse?
            && var id := connected.sent[0].datagram.channelId;
               var served := Handle(connected.server, Request(dataAddr, id, 0, body), later);
               && served.events == Frame(body)
               && served.sent != [] && served.sent[0] == Sent(dataAddr, TunnelingAck(id, 0, 0x00))
  {
    var t := ConnectGivesTunnel(s, ctrlAddr, dataAddr, now);
    var connected := Handle(s, Connect(ctrlAddr, dataAddr, false), now).server;
    assert connected.tunnels[|s.tunnels|] == t;
    RequestHandsOver(connected, t, 0, body, later);
  }

  // ── Staying and leaving ─────────────────────────────────────────

  lemma {:induction false} KeptIs(tunnels: seq<Tunnel>, which: Tunnel -> bool, t: Tunnel)
    ensures t in Keep(tunnels, which) <==> t in tunnels && which(t)
  {
    if tunnels != [] {
      var n := |tunnels| - 1;
      KeptIs(tunnels[..n], which, t);
      assert tunnels == tunnels[..n] + [tunnels[n]];
    }
  }

  /** A client leaves from its control address; exactly its tunnel goes, and it gets an answer. */
  lemma DisconnectRemoves(s: Server, t: Tunnel, u: Tunnel, now: nat)
    requires ServerOk(s) && t in s.tunnels
    ensures var step := Handle(s, Disconnect(t.ctrlAddr, t.channelId), now);
            && (u in step.server.tunnels <==> u in s.tunnels && u != t)
            && step.sent == [Sent(t.ctrlAddr, DisconnectResponse(t.channelId, 0x00))] && step.events == []
  {
    FirstOrOther(s, t, t.channelId, Some(t.ctrlAddr), None);
    KeptIs(s.tunnels, OtherId(t.channelId), u);
    if u in s.tunnels && u.channelId == t.channelId {
      var k :| 0 <= k < |s.tunnels| && s.tunnels[k] == u;
      SameIdSameTunnel(s, k, t);
    }
  }

  lemma NoneMatches(s: Server, src: Endpoint, id: nat)
    requires forall u :: u in s.tunnels && u.channelId == id ==> u.ctrlAddr != src
    ensures First(s.tunnels, Matching(id, Some(src), None)) == |s.tunnels|
  {
    forall j | 0 <= j < |s.tunnels| ensures !Matching(id, Some(src), None)(s.tunnels[j]) {
      assert s.tunnels[j] in s.tunnels;
    }
  }

  /** Nobody else can end a tunnel, or keep it alive. */
  lemma OthersCannot(s: Server, src: Endpoint, id: nat, now: nat)
    requires forall u :: u in s.tunnels && u.channelId == id ==> u.ctrlAddr != src
    ensures Handle(s, Disconnect(src, id), now) == ServerStep(s, [Sent(src, DisconnectResponse(id, 0x21))], [])
    ensures Handle(s, Heartbeat(src, id), now) == ServerStep(s, [Sent(src, ConnectionStateResponse(id, 0x21))], [])
  {
    NoneMatches(s, src, id);
  }

  /** A heartbeat is noted and answered. */
  lemma HeartbeatIsNoted(s: Server, t: Tunnel, now: nat)
    requires ServerOk(s) && t in s.tunnels
    ensures var step := Handle(s, Heartbeat(t.ctrlAddr, t.channelId), now);
            && t.(lastHeartbeat := now) in step.server.tunnels
            && step.sent == [Sent(t.ctrlAddr, ConnectionStateResponse(t.channelId, 0x00))] && step.events == []
  {
    FirstOrOther(s, t, t.channelId, Some(t.ctrlAddr), None);
    var k := First(s.tunnels, Matching(t.channelId, Some(t.ctrlAddr), None));
    assert s.tunnels[k := t.(lastHeartbeat := now)][k] == t.(lastHeartbeat := now);
  }

  /** Exactly the clients without a heartbeat for two minutes are forgotten, without a word. */
  lemma StaleTunnelsGo(s: Server, u: Tunnel, now: nat)
    ensures var step := Handle(s, CleanUp, now);
            && (u in step.server.tunnels <==> u in s.tunnels && now < u.lastHeartbeat + 120_000)
            && step.sent == [] && step.events == []
  {
    KeptIs(s.tunnels, Alive(now), u);
  }

  // ── Sending ─────────────────────────────────────────────────────

  /** The octets the clients get: those of the frame, as an indication if it was a request. */
  function Indication(f: Cemi.ValidFrame): Octets {
    [if f.data[0] == 0x11 then 0x29 else f.data[0]] + f.data[1..]
  }

  lemma IndicationIs(f: Cemi.ValidFrame)
    ensures AsIndication(f) == Indication(f) && Serializable(Indication(f))
  {
    IndicationIsAFrame(f);
    assert f.data == [f.data[0]] + f.data[1..];
  }

  /** A tunnel after one more frame, and what goes on the wire: at once, or when it is its turn. */
  predicate Served(t: Tunnel, cemi: Octets, now: nat, u: Tunnel, sent: seq<Sent>) {
    && u.channelId == t.channelId && u.ctrlAddr == t.ctrlAddr && u.dataAddr == t.dataAddr
    && u.sendSeq == t.sendSeq && u.recvSeq == t.recvSeq
    && if t.inFlight.None? then
         && sent == [Sent(t.dataAddr, TunnelingRequest(t.channelId, t.sendSeq, cemi))]
         && u.outbox == []
         && u.inFlight == Some(InFlight(t.sendSeq, TunnelingRequest(t.channelId, t.sendSeq, cemi), 1, now + 1000))
       else
         && sent == [] && u.inFlight == t.inFlight
         && u.outbox == (if |t.outbox| < 128 then t.outbox else t.outbox[1..]) + [cemi]
  }

  lemma QueueServes(t: Tunnel, cemi: Octets, now: nat)
    requires TunnelOk(t) && Serializable(cemi)
    ensures Served(t, cemi, now, Queued(t, cemi, now).tunnel, Queued(t, cemi, now).sent)
  {
    PumpRestores(Enqueued(t, cemi), now);
    if t.inFlight.None? {
      assert Enqueued(t, cemi).outbox == [cemi];
      PumpFirst(Enqueued(t, cemi), now);
    } else {
      assert Enqueued(t, cemi).outbox == (if |t.outbox| < 128 then t.outbox else t.outbox[1..]) + [cemi];
    }
  }

  lemma PumpFirst(t: Tunnel, now: nat)
    requires t.inFlight.None? && t.outbox != [] && Serializable(t.outbox[0])
    ensures var r := Pumped(t, now);
            && r.sent == [Sent(t.dataAddr, TunnelingRequest(t.channelId, t.sendSeq, t.outbox[0]))]
            && r.tunnel.outbox == t.outbox[1..]
            && r.tunnel.inFlight
               == Some(InFlight(t.sendSeq, TunnelingRequest(t.channelId, t.sendSeq, t.outbox[0]), 1, now + 1000))
            && r.tunnel.channelId == t.channelId && r.tunnel.ctrlAddr == t.ctrlAddr && r.tunnel.dataAddr == t.dataAddr
            && r.tunnel.sendSeq == t.sendSeq && r.tunnel.recvSeq == t.recvSeq
  {
  }

  /** A frame for everybody reaches every client, and the multicast group if there is one. */
  lemma EveryClientIsServed(s: Server, multicast: Option<Endpoint>, f: Cemi.ValidFrame, t: Tunnel, now: nat) returns (u: Tunnel)
    requires ServerOk(s) && t in s.tunnels
    ensures var step := Handle(s, SendAll(multicast, f), now);
            && u in step.server.tunnels
            && Served(t, Indication(f), now, u, Requests(step.sent, t.channelId))
            && (multicast.Some? ==> step.sent != [] && step.sent[0] == Sent(multicast.value, RoutingIndication(Indication(f))))
  {
    ServedAsIfAlone(s, SendAll(multicast, f), now, t);
    IndicationIs(f);
    QueueServes(t, Indication(f), now);
    u := Queued(t, Indication(f), now).tunnel;
    OwnRequests(t, Queue(Indication(f)), now);
    GroupIsServed(s, multicast, f, now);
  }

  lemma GroupIsServed(s: Server, multicast: Option<Endpoint>, f: Cemi.ValidFrame, now: nat)
    ensures var step := Handle(s, SendAll(multicast, f), now);
            multicast.Some? ==> step.sent != [] && step.sent[0] == Sent(multicast.value, RoutingIndication(Indication(f)))
  {
    IndicationIs(f);
  }

  /** A frame for one client reaches it, and no other. */
  lemma OneClientIsServed(s: Server, f: Cemi.ValidFrame, t: Tunnel, now: nat) returns (u: Tunnel)
    requires ServerOk(s) && t in s.tunnels
    ensures var step := Handle(s, SendTo(t.channelId, f), now);
            && u in step.server.tunnels && Served(t, Indication(f), now, u, step.sent) && step.events == []
            && forall v :: v in s.tunnels && v != t ==> v in step.server.tunnels
  {
    FirstOrOther(s, t, t.channelId, None, None);
    IndicationIs(f);
    QueueServes(t, Indication(f), now);
    u := Queued(t, Indication(f), now).tunnel;
    var k := First(s.tunnels, HasId(t.channelId));
    assert s.tunnels[k := u][k] == u;
    forall v | v in s.tunnels && v != t ensures v in s.tunnels[k := u] {
      var j :| 0 <= j < |s.tunnels| && s.tunnels[j] == v;
      assert s.tunnels[k := u][j] == v;
    }
  }

  /** What a tunnel sends are its own requests, all of them. */
  lemma OwnRequests(t: Tunnel, e: ClientEvent, now: nat)
    requires TunnelOk(t) && (e.Queue? ==> Serializable(e.cemi))
    ensures Requests(Alone(t, e, now).sent, t.channelId) == Alone(t, e, now).sent
  {
    SendsOwnRequests(t, e, now);
    AllRequests(Alone(t, e, now).sent, t.channelId);
  }

  lemma {:induction false} AllRequests(sent: seq<Sent>, id: nat)
    requires forall i :: 0 <= i < |sent| ==> sent[i].datagram.TunnelingRequest? && sent[i].datagram.channelId == id
    ensures Requests(sent, id) == sent
  {
    if sent != [] {
      LastApart([], sent);
      AllRequests(sent[..|sent| - 1], id);
    }
  }

  /** An acknowledgement of the number in flight frees the line; the next frame goes out with the next number. */
  lemma AckReleases(s: Server, t: Tunnel, now: nat) returns (u: Tunnel)
    requires ServerOk(s) && t in s.tunnels && t.inFlight.Some?
    ensures var step := Handle(s, Ack(t.dataAddr, t.channelId, t.sendSeq), now);
            && u in step.server.tunnels && u.channelId == t.channelId && u.ctrlAddr == t.ctrlAddr && u.dataAddr == t.dataAddr
            && u.sendSeq == (t.sendSeq + 1) % 256 && u.recvSeq == t.recvSeq && step.events == []
            && if t.outbox == [] then step.sent == [] && u.inFlight.None? && u.outbox == []
               else
                 && step.sent == [Sent(t.dataAddr, TunnelingRequest(t.channelId, u.sendSeq, t.outbox[0]))]
                 && u.outbox == t.outbox[1..] && u.inFlight.Some? && u.inFlight.value.attempts == 1
                 && u.inFlight.value.datagram == step.sent[0].datagram
  {
    FirstOrOther(s, t, t.channelId, None, Some(t.dataAddr));
    var k := First(s.tunnels, Matching(t.channelId, None, Some(t.dataAddr)));
    var freed := t.(inFlight := None, sendSeq := (t.sendSeq + 1) % 256);
    u := Pumped(freed, now).tunnel;
    assert s.tunnels[k := u][k] == u;
    if t.outbox != [] {
      assert t.outbox[0] in t.outbox;
      PumpFirst(freed, now);
    }
  }

  /** Any other acknowledgement changes nothing. */
  lemma OtherAckIsIgnored(s: Server, t: Tunnel, src: Endpoint, sequence: nat, now: nat)
    requires ServerOk(s) && t in s.tunnels
    requires src != t.dataAddr || t.inFlight.None? || sequence != t.sendSeq
    ensures t in Handle(s, Ack(src, t.channelId, sequence), now).server.tunnels
  {
    ServedAsIfAlone(s, Ack(src, t.channelId, sequence), now, t);
  }

  // ── Silence ─────────────────────────────────────────────────────

  /** A request that is not acknowledged in time is sent again, unchanged, up to the third time. */
  lemma OverdueIsRepeated(s: Server, t: Tunnel, now: nat)
    requires ServerOk(s) && t in s.tunnels && t.inFlight.Some? && t.inFlight.value.deadline <= now
    requires t.inFlight.value.attempts < 3
    ensures var f := t.inFlight.value;
            var step := Handle(s, Expire, now);
            && t.(inFlight := Some(f.(attempts := f.attempts + 1, deadline := now + 1000))) in step.server.tunnels
            && Requests(step.sent, t.channelId) == [Sent(t.dataAddr, f.datagram)]
  {
    ServedAsIfAlone(s, Expire, now, t);
    RepeatedAlone(t, now);
    OwnRequests(t, Timeout, now);
  }

  lemma RepeatedAlone(t: Tunnel, now: nat)
    requires t.inFlight.Some? && t.inFlight.value.deadline <= now && t.inFlight.value.attempts < 3
    ensures var f := t.inFlight.value;
            Alone(t, Timeout, now)
            == Outcome(Some(t.(inFlight := Some(f.(attempts := f.attempts + 1, deadline := now + 1000)))),
                       [Sent(t.dataAddr, f.datagram)])
  {
  }

  /** A client that did not acknowledge the third one is dropped, and told so at its control address. */
  lemma SilentClientIsDropped(s: Server, t: Tunnel, now: nat)
    requires ServerOk(s) && t in s.tunnels && t.inFlight.Some? && t.inFlight.value.deadline <= now
    requires t.inFlight.value.attempts == 3
    ensures var step := Handle(s, Expire, now);
            && (forall u :: u in step.server.tunnels ==> u.channelId != t.channelId)
            && Sent(t.ctrlAddr, DisconnectRequest(t.channelId)) in step.sent
  {
    ServedAsIfAlone(s, Expire, now, t);
    var k :| 0 <= k < |s.tunnels| && s.tunnels[k] == t;
    GoodbyeIsSaid(s.tunnels, k, now);
  }

  lemma {:induction false} GoodbyeIsSaid(tunnels: seq<Tunnel>, k: nat, now: nat)
    requires k < |tunnels| && tunnels[k].inFlight.Some? && tunnels[k].inFlight.value.deadline <= now
    requires tunnels[k].inFlight.value.attempts == 3
    ensures Sent(tunnels[k].ctrlAddr, DisconnectRequest(tunnels[k].channelId)) in Goodbyes(tunnels, now)
    decreases |tunnels|
  {
    if k < |tunnels| - 1 {
      GoodbyeIsSaid(tunnels[..|tunnels| - 1], k, now);
    }
  }

  /** Nothing is repeated, and nobody dropped, before its time. */
  lemma NotYetDue(s: Server, t: Tunnel, now: nat)
    requires ServerOk(s) && t in s.tunnels && (t.inFlight.Some? ==> now < t.inFlight.value.deadline)
    ensures t in Handle(s, Expire, now).server.tunnels && Requests(Handle(s, Expire, now).sent, t.channelId) == []
  {
    ServedAsIfAlone(s, Expire, now, t);
  }

  // ── The client ──────────────────────────────────────────────────

  /** A client acknowledges every request on its channel, also while it sends, and takes the expected one. */
  lemma ClientTakes(c: Ts.Client, sequence: nat, body: Octets)
    ensures var h := Ts.Handle(c, Ts.Arrive(Some(TunnelingRequest(c.channelId, sequence, body))));
            && h.sent == [TunnelingAck(c.channelId, sequence, 0x00)] && h.verdict.None?
            && h.accepted == (if sequence == c.recvSeq then [body] else [])
            && h.client == c.(recvSeq := if sequence == c.recvSeq then (c.recvSeq + 1) % 256 else c.recvSeq)
  {
  }

  /** Requests on other channels do nothing. */
  lemma ClientIgnores(c: Ts.Client, id: nat, sequence: nat, body: Octets)
    requires id != c.channelId
    ensures var h := Ts.Handle(c, Ts.Arrive(Some(TunnelingRequest(id, sequence, body))));
            h == Ts.ClientStep(c, [], [], None)
  {
  }

  /** A disconnect between sends is answered and ends the tunnel. */
  lemma ClientLeaves(c: Ts.Client, id: nat)
    requires c.waiting.None?
    ensures Ts.Handle(c, Ts.Arrive(Some(DisconnectRequest(id))))
         == Ts.ClientStep(c, [DisconnectResponse(c.channelId, 0x00)], [], Some(Ts.PeerLeft))
  {
  }

  /** A send puts the frame on the wire under the current number, and waits. */
  lemma ClientSends(c: Ts.Client, body: Octets)
    requires c.waiting.None? && Serializable(body)
    ensures var h := Ts.Handle(c, Ts.Start(body));
            && h.sent == [TunnelingRequest(c.channelId, c.sendSeq, body)] && h.verdict.None? && h.accepted == []
            && h.client == c.(waiting := Some(Ts.Waiting(body, 1, [])))
  {
  }

  /** The acknowledgement ends the send, and moves the number. */
  lemma ClientIsAcknowledged(c: Ts.Client, body: Octets, attempt: nat)
    requires c.waiting == Some(Ts.Waiting(body, attempt, []))
    ensures Ts.Handle(c, Ts.Arrive(Some(TunnelingAck(c.channelId, c.sendSeq, 0x00))))
         == Ts.ClientStep(c.(waiting := None, sendSeq := (c.sendSeq + 1) % 256), [], [], Some(Ts.Acked))
  {
  }

  // ── Frames arrive ───────────────────────────────────────────────

  /** Server and client agree about their tunnel, on which nothing is under way. */
  ghost predicate Linked(s: Server, c: Ts.Client, t: Tunnel) {
    && ServerOk(s) && t in s.tunnels && t.channelId == c.channelId && t.inFlight.None?
    && c.waiting.None? && t.sendSeq == c.recvSeq && t.recvSeq == c.sendSeq && c.sendSeq < 256
  }

  /** Both ends after a frame, the bodies the client accepted, and the frames the server handed over. */
  datatype Exchange = Exchange(server: Server, client: Ts.Client, accepted: seq<Octets>, events: seq<Cemi.ValidFrame>)

  /** The client gets the request in `sent`, and its acknowledgement gets back to the server. */
  function Answered(s: Server, c: Ts.Client, dataAddr: Endpoint, sent: seq<Sent>, now: nat): Exchange {
    if |sent| == 1 && sent[0].to == dataAddr then
      var h := Ts.Handle(c, Ts.Arrive(Some(sent[0].datagram)));
      if |h.sent| == 1 && h.sent[0].TunnelingAck? && h.sent[0].status == 0x00 then
        var released := Handle(s, Ack(dataAddr, h.sent[0].channelId, h.sent[0].sequence), now);
        Exchange(released.server, h.client, h.accepted, released.events)
      else Exchange(s, h.client, h.accepted, [])
    else Exchange(s, c, [], [])
  }

  /** The application of the server sends a frame to the client. */
  function Down(s: Server, c: Ts.Client, dataAddr: Endpoint, f: Cemi.ValidFrame, now: nat): Exchange {
    var queued := Handle(s, SendTo(c.channelId, f), now);
    Answered(queued.server, c, dataAddr, queued.sent, now)
  }

  lemma AnswerArrives(s: Server, c: Ts.Client, u: Tunnel, body: Octets, now: nat) returns (v: Tunnel)
    requires ServerOk(s) && u in s.tunnels && u.channelId == c.channelId && u.outbox == [] && u.inFlight.Some?
    requires c.waiting.None? && u.sendSeq == c.recvSeq && u.recvSeq == c.sendSeq && c.sendSeq < 256
    ensures var e := Answered(s, c, u.dataAddr, [Sent(u.dataAddr, TunnelingRequest(u.channelId, u.sendSeq, body))], now);
            Linked(e.server, e.client, v) && v.dataAddr == u.dataAddr && e.accepted == [body] && e.events == []
            && e.client.channelId == c.channelId && e.client.sendSeq == c.sendSeq
  {
    ClientTakes(c, u.sendSeq, body);
    v := AckReleases(s, u, now);
    HandleKeepsOk(s, Ack(u.dataAddr, u.channelId, u.sendSeq), now);
  }

  /** A frame of the server's application arrives at the client's, exactly once, as an indication. */
  lemma DownArrives(s: Server, c: Ts.Client, t: Tunnel, f: Cemi.ValidFrame, now: nat) returns (v: Tunnel)
    requires Linked(s, c, t)
    ensures var e := Down(s, c, t.dataAddr, f, now);
            Linked(e.server, e.client, v) && v.dataAddr == t.dataAddr && e.accepted == [Indication(f)]
            && e.client.channelId == c.channelId
  {
    var u := OneClientIsServed(s, f, t, now);
    HandleKeepsOk(s, SendTo(t.channelId, f), now);
    v := AnswerArrives(Handle(s, SendTo(t.channelId, f), now).server, c, u, Indication(f), now);
  }

  /** The confirmation a client is owed: its own frame, with another message code and without the confirm flag. */
  function Confirmation(f: Cemi.ValidFrame): Octets {
    f.data[0 := 0x2E][f.ctrlOffset := f.data[f.ctrlOffset] & 0xFE]
  }

  /** The application of the client sends a frame; the server may owe it a confirmation. */
  function Up(s: Server, c: Ts.Client, dataAddr: Endpoint, f: Cemi.ValidFrame, now: nat): Exchange {
    var h := Ts.Handle(c, Ts.Start(f.data));
    if |h.sent| == 1 && h.sent[0].TunnelingRequest? then
      var served := Handle(s, Request(dataAddr, h.sent[0].channelId, h.sent[0].sequence, h.sent[0].cemi), now);
      if served.sent != [] && served.sent[0].to == dataAddr then
        var acked := Ts.Handle(h.client, Ts.Arrive(Some(served.sent[0].datagram)));
        var confirmed := Answered(served.server, acked.client, dataAddr, served.sent[1..], now);
        confirmed.(events := served.events + confirmed.events)
      else Exchange(served.server, h.client, [], served.events)
    else Exchange(s, h.client, [], [])
  }

  /** What the server makes of the next request of a client. */
  lemma TakenRequest(s: Server, t: Tunnel, f: Cemi.ValidFrame, now: nat) returns (u: Tunnel)
    requires ServerOk(s) && t in s.tunnels && t.inFlight.None?
    ensures var served := Handle(s, Request(t.dataAddr, t.channelId, t.recvSeq, f.data), now);
            && served.events == [f] && ServerOk(served.server) && u in served.server.tunnels
            && u.channelId == t.channelId && u.dataAddr == t.dataAddr && u.sendSeq == t.sendSeq
            && u.recvSeq == (t.recvSeq + 1) % 256 && u.outbox == []
            && if f.data[0] == 0x11 then
                 && u.inFlight.Some?
                 && served.sent == [Sent(t.dataAddr, TunnelingAck(t.channelId, t.recvSeq, 0x00)),
                                    Sent(t.dataAddr, TunnelingRequest(t.channelId, t.sendSeq, Confirmation(f)))]
               else
                 && u.inFlight.None? && served.sent == [Sent(t.dataAddr, TunnelingAck(t.channelId, t.recvSeq, 0x00))]
  {
    var e := Request(t.dataAddr, t.channelId, t.recvSeq, f.data);
    Cemi.ParseAcceptsExactlyValid(f);
    FirstOrOther(s, t, t.channelId, None, None);
    HandleKeepsOk(s, e, now);
    u := Accepted(t, f.data, now).tunnel;
    var k := First(s.tunnels, HasId(t.channelId));
    assert s.tunnels[k := u][k] == u;
    AcceptedIs(t, f, now);
  }

  lemma AcceptedIs(t: Tunnel, f: Cemi.ValidFrame, now: nat)
    requires TunnelOk(t) && t.inFlight.None?
    ensures var r := Accepted(t, f.data, now);
            var u := r.tunnel;
            && u.channelId == t.channelId && u.dataAddr == t.dataAddr && u.sendSeq == t.sendSeq
            && u.recvSeq == (t.recvSeq + 1) % 256 && u.outbox == []
            && if f.data[0] == 0x11 then
                 u.inFlight.Some? && r.sent == [Sent(t.dataAddr, TunnelingRequest(t.channelId, t.sendSeq, Confirmation(f)))]
               else u.inFlight.None? && r.sent == []
  {
    Cemi.ParseAcceptsExactlyValid(f);
    if f.data[0] == 0x11 {
      ConfirmationIsAFrame(f);
      QueueServes(t.(recvSeq := (t.recvSeq + 1) % 256), Confirmation(f), now);
    }
  }

  /**
   A frame of the client's application arrives at the server's, exactly once and unchanged; if it is
   a request, its confirmation arrives at the client's.
   */
  lemma UpArrives(s: Server, c: Ts.Client, t: Tunnel, f: Cemi.ValidFrame, now: nat) returns (v: Tunnel)
    requires Linked(s, c, t)
    ensures var e := Up(s, c, t.dataAddr, f, now);
            Linked(e.server, e.client, v) && v.dataAddr == t.dataAddr && e.events == [f]
            && e.accepted == (if f.data[0] == 0x11 then [Confirmation(f)] else [])
            && e.client.channelId == c.channelId
  {
    Cemi.FrameIsShort(f);
    ClientSends(c, f.data);
    var u := TakenRequest(s, t, f, now);
    var waiting := Ts.Handle(c, Ts.Start(f.data)).client;
    ClientIsAcknowledged(waiting, f.data, 1);
    var acked := Ts.Handle(waiting, Ts.Arrive(Some(TunnelingAck(c.channelId, c.sendSeq, 0x00)))).client;
    var served := Handle(s, Request(t.dataAddr, c.channelId, c.sendSeq, f.data), now);
    if f.data[0] == 0x11 {
      assert served.sent[1..] == [Sent(t.dataAddr, TunnelingRequest(t.channelId, t.sendSeq, Confirmation(f)))];
      v := AnswerArrives(served.server, acked, u, Confirmation(f), now);
    } else {
      assert served.sent[1..] == [];
      v := u;
    }
  }

  // ── Any exchange over a line without loss ───────────────────────

  datatype Send = FromServer(frame: Cemi.ValidFrame) | FromClient(frame: Cemi.ValidFrame)

  function ExchangedAll(s: Server, c: Ts.Client, dataAddr: Endpoint, sends: seq<Send>, now: nat): Exchange
    decreases |sends|
  {
    if sends == [] then Exchange(s, c, [], [])
    else
      var one := match sends[0]
        case FromServer(f) => Down(s, c, dataAddr, f, now)
        case FromClient(f) => Up(s, c, dataAddr, f, now);
      var rest := ExchangedAll(one.server, one.client, dataAddr, sends[1..], now);
      Exchange(rest.server, rest.client, one.accepted + rest.accepted, one.events + rest.events)
  }

  /** What the client's application is to get. */
  function ForClient(sends: seq<Send>): seq<Octets> {
    if sends == [] then []
    else
      (match sends[0]
       case FromServer(f) => [Indication(f)]
       case FromClient(f) => if f.data[0] == 0x11 then [Confirmation(f)] else [])
      + ForClient(sends[1..])
  }

  /** What the server's application is to get. */
  function ForServer(sends: seq<Send>): seq<Cemi.ValidFrame> {
    if sends == [] then []
    else (match sends[0] case FromServer(_) => [] case FromClient(f) => [f]) + ForServer(sends[1..])
  }

  /**
   Over a line without loss everything arrives, in both directions, in any order of sends, and
   whatever other clients the server has.
   */
  lemma {:induction false} EverythingArrives(s: Server, c: Ts.Client, t: Tunnel, sends: seq<Send>, now: nat) returns (v: Tunnel)
    requires Linked(s, c, t)
    ensures var e := ExchangedAll(s, c, t.dataAddr, sends, now);
            Linked(e.server, e.client, v) && e.accepted == ForClient(sends) && e.events == ForServer(sends)
    decreases |sends|
  {
    if sends == [] {
      v := t;
    } else {
      match sends[0]
      case FromServer(f) =>
        var u := DownArrives(s, c, t, f, now);
        var one := Down(s, c, t.dataAddr, f, now);
        NothingHandedOver(s, c, t, f, now);
        v := EverythingArrives(one.server, one.client, u, sends[1..], now);
      case FromClient(f) =>
        var u := UpArrives(s, c, t, f, now);
        var one := Up(s, c, t.dataAddr, f, now);
        v := EverythingArrives(one.server, one.client, u, sends[1..], now);
    }
  }

  lemma NothingHandedOver(s: Server, c: Ts.Client, t: Tunnel, f: Cemi.ValidFrame, now: nat)
    requires Linked(s, c, t)
    ensures Down(s, c, t.dataAddr, f, now).events == []
  {
  }
}
