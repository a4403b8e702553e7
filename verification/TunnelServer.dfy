/**
 The server side of KNXnet/IP tunnelling (KNX 3/8/4): up to four clients, each with its own
 queue of cEMI frames, one request in flight at a time, an eight-bit sequence number and three
 attempts.

 A tunnel client is given as the datatype `Tunnel` with functions for what can happen to it, and
 a server as a sequence of tunnels. The classes `TunnelClient` and `DeviceServer` keep the same
 state in fields and are proved to follow these functions. Sends are returned as values; a send
 that fails is a datagram the network loses.
 */
module TunnelServer {
  import opened Basics
  import Cemi

  const MAX_TUNNELS: nat := 4
  const MAX_CLIENT_QUEUE: nat := 128
  const MAX_RETRIES: nat := 3
  const REQUEST_TIMEOUT_MS: nat := 1000
  const TUNNEL_TIMEOUT_MS: nat := 120_000
  const TUNNEL_IA_BASE: nat := 0xFF00
  const E_NO_ERROR: nat := 0x00
  const E_CONNECTION_ID: nat := 0x21
  const E_CONNECTION_TYPE: nat := 0x22
  const E_NO_MORE_CONNECTIONS: nat := 0x24

  /** A socket address. */
  type Endpoint = nat

  datatype Datagram =
    | TunnelingRequest(channelId: nat, sequence: nat, cemi: Octets)
    | TunnelingAck(channelId: nat, sequence: nat, status: nat)
    | DisconnectRequest(channelId: nat)
    | DisconnectResponse(channelId: nat, status: nat)
    | ConnectResponse(channelId: nat, status: nat, assignedAddress: nat)
    | ConnectionStateResponse(channelId: nat, status: nat)
    | RoutingIndication(cemi: Octets)

  datatype Sent = Sent(to: Endpoint, datagram: Datagram)

  /** The request that waits for its acknowledgement. */
  datatype InFlight = InFlight(sequence: nat, datagram: Datagram, attempts: nat, deadline: nat)

  datatype Tunnel = Tunnel(
    channelId: nat,
    ctrlAddr: Endpoint,
    dataAddr: Endpoint,
    sendSeq: nat,
    recvSeq: nat,
    lastHeartbeat: nat,
    outbox: seq<Octets>,
    inFlight: Option<InFlight>,
    overflowReported: bool)

  /** A tunnel after something happened to it, and what it put on the wire. */
  datatype TunnelStep = TunnelStep(tunnel: Tunnel, sent: seq<Sent>)

  function NewTunnel(channelId: nat, ctrlAddr: Endpoint, dataAddr: Endpoint, now: nat): Tunnel {
    Tunnel(channelId, ctrlAddr, dataAddr, 0, 0, now, [], None, false)
  }

  /** A tunnelling request has ten octets around its cEMI frame and a 16-bit total length. */
  predicate Serializable(cemi: Octets) {
    |cemi| + 10 <= 0xFFFF
  }

  // ── One tunnel as a function ────────────────────────────────────

  /** Queue a frame; a full queue drops its oldest one. */
  function Enqueued(t: Tunnel, cemi: Octets): Tunnel {
    if |t.outbox| >= MAX_CLIENT_QUEUE then
      t.(outbox := t.outbox[1..] + [cemi], overflowReported := true)
    else
      t.(outbox := t.outbox + [cemi])
  }

  /** Send the request in flight, for the first time or again. */
  function Transmitted(t: Tunnel, now: nat): TunnelStep {
    match t.inFlight
    case None => TunnelStep(t, [])
    case Some(f) =>
      TunnelStep(t.(inFlight := Some(f.(attempts := f.attempts + 1, deadline := now + REQUEST_TIMEOUT_MS))),
                 [Sent(t.dataAddr, f.datagram)])
  }

  /** Put the next frame that fits a datagram on the wire, unless one waits for its acknowledgement. */
  function Pumped(t: Tunnel, now: nat): TunnelStep
    decreases |t.outbox|
  {
    if t.inFlight.Some? then TunnelStep(t, [])
    else if t.outbox == [] then TunnelStep(t.(overflowReported := false), [])
    else
      var rest := t.(outbox := t.outbox[1..]);
      if Serializable(t.outbox[0]) then
        var request := TunnelingRequest(t.channelId, t.sendSeq, t.outbox[0]);
        Transmitted(rest.(inFlight := Some(InFlight(t.sendSeq, request, 0, now))), now)
      else
        Pumped(rest, now)
  }

  function Queued(t: Tunnel, cemi: Octets, now: nat): TunnelStep {
    Pumped(Enqueued(t, cemi), now)
  }

  /** The client acknowledged number `sequence`. */
  function Acknowledged(t: Tunnel, sequence: nat, now: nat): TunnelStep {
    if t.inFlight.Some? && t.inFlight.value.sequence == sequence then
      Pumped(t.(inFlight := None, sendSeq := (sequence + 1) % 256), now)
    else
      TunnelStep(t, [])
  }

  predicate Overdue(t: Tunnel, now: nat) {
    t.inFlight.Some? && t.inFlight.value.deadline <= now
  }

  /** The acknowledgement is overdue and no attempt is left. */
  predicate Lost(t: Tunnel, now: nat) {
    Overdue(t, now) && t.inFlight.value.attempts >= MAX_RETRIES
  }

  /** Repeat an overdue request while attempts are left. */
  function Retried(t: Tunnel, now: nat): TunnelStep {
    if Overdue(t, now) && !Lost(t, now) then Transmitted(t, now) else TunnelStep(t, [])
  }

  // ── cEMI on the way through ─────────────────────────────────────

  /** The confirmation a client is owed for a request: no other frame is confirmed. */
  function ConfirmationOf(f: Cemi.ValidFrame): Option<Octets>
  {
    if f.data[0] != Cemi.L_DATA_REQ then None
    else
      var control := 2 + f.data[1] as nat;
      Some(f.data[0 := Cemi.L_DATA_CON][control := f.data[control] & 0xFE])
  }

  /** What a server puts on the wire: an indication where the frame was a request. */
  function AsIndication(f: Cemi.ValidFrame): Octets
  {
    if f.data[0] == Cemi.L_DATA_REQ then f.data[0 := Cemi.L_DATA_IND] else f.data
  }

  // ── The server as a function ────────────────────────────────────

  datatype Server = Server(tunnels: seq<Tunnel>, nextChannelId: nat)

  /** A server after something happened, with what it sent and the frames it hands to the application. */
  datatype ServerStep = ServerStep(server: Server, sent: seq<Sent>, events: seq<Cemi.ValidFrame>)

  function NextId(id: nat): nat {
    if (id + 1) % 256 == 0 then 1 else (id + 1) % 256
  }

  function Ids(tunnels: seq<Tunnel>): set<nat> {
    set t | t in tunnels :: t.channelId
  }

  /** The first free id from `id` on, unless more than 255 steps are needed. */
  function FreeId(used: set<nat>, id: nat, attempts: nat): Option<nat>
    decreases 256 - attempts
  {
    if id !in used then Some(id)
    else if attempts + 1 > 255 then None
    else FreeId(used, NextId(id), attempts + 1)
  }

  /** The tunnels with this id and, where given, these addresses. */
  function Matching(id: nat, ctrl: Option<Endpoint>, data: Option<Endpoint>): Tunnel -> bool {
    (t: Tunnel) =>
      && t.channelId == id
      && (ctrl.Some? ==> t.ctrlAddr == ctrl.value)
      && (data.Some? ==> t.dataAddr == data.value)
  }

  function HasId(id: nat): Tunnel -> bool {
    Matching(id, None, None)
  }

  function OtherId(id: nat): Tunnel -> bool {
    (t: Tunnel) => t.channelId != id
  }

  function NotLost(now: nat): Tunnel -> bool {
    (t: Tunnel) => !Lost(t, now)
  }

  function Alive(now: nat): Tunnel -> bool {
    (t: Tunnel) => now < t.lastHeartbeat + TUNNEL_TIMEOUT_MS
  }

  function First(tunnels: seq<Tunnel>, which: Tunnel -> bool): (k: nat)
    ensures k <= |tunnels|
    ensures k < |tunnels| ==> which(tunnels[k])
    ensures forall j :: 0 <= j < k ==> !which(tunnels[j])
  {
    if tunnels == [] || which(tunnels[0]) then 0 else 1 + First(tunnels[1..], which)
  }

  function Keep(tunnels: seq<Tunnel>, which: Tunnel -> bool): seq<Tunnel> {
    if tunnels == [] then []
    else
      var n := |tunnels| - 1;
      Keep(tunnels[..n], which) + (if which(tunnels[n]) then [tunnels[n]] else [])
  }

  function OnConnect(s: Server, ctrlAddr: Endpoint, dataAddr: Endpoint, deviceManagement: bool, now: nat): ServerStep {
    if deviceManagement then
      ServerStep(s, [Sent(ctrlAddr, ConnectResponse(0, E_CONNECTION_TYPE, 0))], [])
    else if |s.tunnels| >= MAX_TUNNELS then
      ServerStep(s, [Sent(ctrlAddr, ConnectResponse(0, E_NO_MORE_CONNECTIONS, 0))], [])
    else
      match FreeId(Ids(s.tunnels), s.nextChannelId, 0)
      case None => ServerStep(s, [], [])
      case Some(id) =>
        ServerStep(Server(s.tunnels + [NewTunnel(id, ctrlAddr, dataAddr, now)], NextId(id)),
                   [Sent(ctrlAddr, ConnectResponse(id, E_NO_ERROR, TUNNEL_IA_BASE + id))], [])
  }

  function OnHeartbeat(s: Server, src: Endpoint, id: nat, now: nat): ServerStep {
    var k := First(s.tunnels, Matching(id, Some(src), None));
    if k < |s.tunnels| then
      ServerStep(s.(tunnels := s.tunnels[k := s.tunnels[k].(lastHeartbeat := now)]),
                 [Sent(src, ConnectionStateResponse(id, E_NO_ERROR))], [])
    else
      ServerStep(s, [Sent(src, ConnectionStateResponse(id, E_CONNECTION_ID))], [])
  }

  function OnDisconnect(s: Server, src: Endpoint, id: nat): ServerStep {
    if First(s.tunnels, Matching(id, Some(src), None)) < |s.tunnels| then
      ServerStep(s.(tunnels := Keep(s.tunnels, OtherId(id))),
                 [Sent(src, DisconnectResponse(id, E_NO_ERROR))], [])
    else
      ServerStep(s, [Sent(src, DisconnectResponse(id, E_CONNECTION_ID))], [])
  }

  /** What an accepted request with body `body` makes of its tunnel. */
  function Accepted(t: Tunnel, body: Octets, now: nat): TunnelStep {
    var advanced := t.(recvSeq := (t.recvSeq + 1) % 256);
    match Cemi.Parse(body)
    case Err(_) => TunnelStep(advanced, [])
    case Ok(f) =>
      match ConfirmationOf(f)
      case None => TunnelStep(advanced, [])
      case Some(confirmation) => Queued(advanced, confirmation, now)
  }

  function OnRequest(s: Server, src: Endpoint, id: nat, sequence: nat, body: Octets, now: nat): ServerStep {
    var k := First(s.tunnels, HasId(id));
    if k == |s.tunnels| || s.tunnels[k].dataAddr != src then
      ServerStep(s, [Sent(src, TunnelingAck(id, sequence, E_CONNECTION_ID))], [])
    else
      var ack := [Sent(src, TunnelingAck(id, sequence, E_NO_ERROR))];
      if sequence != s.tunnels[k].recvSeq then
        ServerStep(s, ack, [])
      else
        var r := Accepted(s.tunnels[k], body, now);
        ServerStep(s.(tunnels := s.tunnels[k := r.tunnel]), ack + r.sent,
                   match Cemi.Parse(body) case Ok(f) => [f] case Err(_) => [])
  }

  function OnAck(s: Server, src: Endpoint, id: nat, sequence: nat, now: nat): ServerStep {
    var k := First(s.tunnels, Matching(id, None, Some(src)));
    if k == |s.tunnels| then ServerStep(s, [], [])
    else
      var r := Acknowledged(s.tunnels[k], sequence, now);
      ServerStep(s.(tunnels := s.tunnels[k := r.tunnel]), r.sent, [])
  }

  /** Queue one frame for every tunnel, in order. */
  function AllQueued(tunnels: seq<Tunnel>, cemi: Octets, now: nat): (seq<Tunnel>, seq<Sent>) {
    if tunnels == [] then ([], [])
    else
      var n := |tunnels| - 1;
      var (before, sent) := AllQueued(tunnels[..n], cemi, now);
      var r := Queued(tunnels[n], cemi, now);
      (before + [r.tunnel], sent + r.sent)
  }

  function OnSendAll(s: Server, multicast: Option<Endpoint>, f: Cemi.ValidFrame, now: nat): ServerStep
  {
    var cemi := AsIndication(f);
    var (tunnels, sent) := AllQueued(s.tunnels, cemi, now);
    var routed := match multicast case Some(group) => [Sent(group, RoutingIndication(cemi))] case None => [];
    ServerStep(s.(tunnels := tunnels), routed + sent, [])
  }

  function OnSendTo(s: Server, id: nat, f: Cemi.ValidFrame, now: nat): ServerStep
  {
    var k := First(s.tunnels, HasId(id));
    if k == |s.tunnels| then ServerStep(s, [], [])
    else
      var r := Queued(s.tunnels[k], AsIndication(f), now);
      ServerStep(s.(tunnels := s.tunnels[k := r.tunnel]), r.sent, [])
  }

  /** Repeat every overdue request that has attempts left, in order. */
  function AllRetried(tunnels: seq<Tunnel>, now: nat): (seq<Tunnel>, seq<Sent>) {
    if tunnels == [] then ([], [])
    else
      var n := |tunnels| - 1;
      var (before, sent) := AllRetried(tunnels[..n], now);
      var r := Retried(tunnels[n], now);
      (before + [r.tunnel], sent + r.sent)
  }

  /** The goodbyes to the clients that are given up. */
  function Goodbyes(tunnels: seq<Tunnel>, now: nat): seq<Sent> {
    if tunnels == [] then []
    else
      var n := |tunnels| - 1;
      Goodbyes(tunnels[..n], now)
      + (if Lost(tunnels[n], now) then [Sent(tunnels[n].ctrlAddr, DisconnectRequest(tunnels[n].channelId))] else [])
  }

  /** Acknowledgements are due: repeat what may be repeated, then forget the clients that never answered. */
  function OnExpire(s: Server, now: nat): ServerStep {
    var (tunnels, sent) := AllRetried(s.tunnels, now);
    ServerStep(s.(tunnels := Keep(tunnels, NotLost(now))), sent + Goodbyes(s.tunnels, now), [])
  }

  function OnCleanup(s: Server, now: nat): ServerStep {
    ServerStep(s.(tunnels := Keep(s.tunnels, Alive(now))), [], [])
  }

  // ── The server's own form ───────────────────────────────────────

  class TunnelClient {
    const channelId: nat
    const ctrlAddr: Endpoint
    const dataAddr: Endpoint
    var sendSeq: nat
    var recvSeq: nat
    var lastHeartbeat: nat
    var outbox: seq<Octets>
    var inFlight: Option<InFlight>
    var overflowReported: bool

    function Model(): Tunnel
      reads this
    {
      Tunnel(channelId, ctrlAddr, dataAddr, sendSeq, recvSeq, lastHeartbeat, outbox, inFlight, overflowReported)
    }

    constructor (channelId: nat, ctrlAddr: Endpoint, dataAddr: Endpoint, now: nat)
      ensures Model() == NewTunnel(channelId, ctrlAddr, dataAddr, now)
    {
      this.channelId, this.ctrlAddr, this.dataAddr := channelId, ctrlAddr, dataAddr;
      sendSeq, recvSeq, lastHeartbeat := 0, 0, now;
      outbox, inFlight, overflowReported := [], None, false;
    }

    method Enqueue(cemi: Octets)
      modifies this
      ensures Model() == Enqueued(old(Model()), cemi)
    {
      if |outbox| >= MAX_CLIENT_QUEUE {
        outbox := outbox[1..];
        if !overflowReported {
          overflowReported := true;
        }
      }
      outbox := outbox + [cemi];
    }

    method Transmit(now: nat) returns (sent: seq<Sent>)
      modifies this
      ensures TunnelStep(Model(), sent) == Transmitted(old(Model()), now)
    {
      if inFlight.None? {
        return [];
      }
      var f := inFlight.value;
      inFlight := Some(f.(attempts := f.attempts + 1, deadline := now + REQUEST_TIMEOUT_MS));
      sent := [Sent(dataAddr, f.datagram)];
    }

    method Pump(now: nat) returns (sent: seq<Sent>)
      modifies this
      ensures TunnelStep(Model(), sent) == Pumped(old(Model()), now)
    {
      if inFlight.Some? {
        return [];
      }
      var sequence := sendSeq;
      var request: Option<Datagram> := None;
      while request.None?
        invariant inFlight.None? && sequence == sendSeq
        invariant request.None? ==> Pumped(Model(), now) == Pumped(old(Model()), now)
        invariant request.Some? ==>
                    Pumped(old(Model()), now)
                    == Transmitted(Model().(inFlight := Some(InFlight(sequence, request.value, 0, now))), now)
        decreases |outbox| + (if request.None? then 1 else 0)
      {
        if outbox == [] {
          overflowReported := false;
          return [];
        }
        var cemi := outbox[0];
        outbox := outbox[1..];
        if Serializable(cemi) {
          request := Some(TunnelingRequest(channelId, sequence, cemi));
        }
      }
      inFlight := Some(InFlight(sequence, request.value, 0, now));
      sent := Transmit(now);
    }

    method Acknowledge(sequence: nat, now: nat) returns (sent: seq<Sent>)
      modifies this
      ensures TunnelStep(Model(), sent) == Acknowledged(old(Model()), sequence, now)
    {
      if inFlight.Some? && inFlight.value.sequence == sequence {
        inFlight := None;
        sendSeq := (sequence + 1) % 256;
        sent := Pump(now);
      } else {
        sent := [];
      }
    }

    /** Take over a request with the expected number; the frame in it goes to the application. */
    method Accept(body: Octets, now: nat) returns (sent: seq<Sent>, events: seq<Cemi.ValidFrame>)
      modifies this
      ensures TunnelStep(Model(), sent) == Accepted(old(Model()), body, now)
      ensures events == match Cemi.Parse(body) case Ok(f) => [f] case Err(_) => []
    {
      recvSeq := (recvSeq + 1) % 256;
      sent, events := [], [];
      var parsed := Cemi.Parse(body);
      if parsed.Ok? {
        var confirmation := ConfirmationOf(parsed.value);
        if confirmation.Some? {
          Enqueue(confirmation.value);
          sent := Pump(now);
        }
        events := [parsed.value];
      }
    }
  }

  class DeviceServer {
    var tunnels: seq<TunnelClient>
    var nextChannelId: nat

    /** No two entries are the same object. */
    ghost predicate Valid()
      reads this
    {
      forall i, j :: 0 <= i < j < |tunnels| ==> tunnels[i] != tunnels[j]
    }

    ghost function Model(): Server
      reads this, tunnels
    {
      Server(Models(tunnels), nextChannelId)
    }

    static ghost function Models(clients: seq<TunnelClient>): (r: seq<Tunnel>)
      reads clients
      ensures |r| == |clients|
      ensures forall i :: 0 <= i < |r| ==> r[i] == clients[i].Model()
    {
      seq(|clients|, i requires 0 <= i < |clients| reads clients => clients[i].Model())
    }

    constructor ()
      ensures Valid() && Model() == Server([], 1) && tunnels == []
    {
      tunnels := [];
      nextChannelId := 1;
    }

    /** The position of the first tunnel with this id and, if asked for, this address. */
    method Find(id: nat, ctrl: Option<Endpoint>, data: Option<Endpoint>) returns (k: nat)
      ensures k == First(Model().tunnels, Matching(id, ctrl, data))
    {
      k := 0;
      while k < |tunnels| && !Matching(id, ctrl, data)(tunnels[k].Model())
        invariant 0 <= k <= |tunnels|
        invariant forall j :: 0 <= j < k ==> !Matching(id, ctrl, data)(Model().tunnels[j])
      {
        k := k + 1;
      }
      FirstIs(Model().tunnels, Matching(id, ctrl, data), k);
    }

    /** Search for an unused channel id, from the next one on. */
    method FindFreeId() returns (free: Option<nat>)
      ensures free == FreeId(Ids(Model().tunnels), nextChannelId, 0)
    {
      var channelId := nextChannelId;
      var attempts := 0;
      var taken := Taken(channelId);
      while taken
        invariant attempts <= 255
        invariant taken <==> channelId in Ids(Model().tunnels)
        invariant FreeId(Ids(Model().tunnels), channelId, attempts)
                  == FreeId(Ids(Model().tunnels), nextChannelId, 0)
        decreases 256 - attempts
      {
        channelId := NextId(channelId);
        attempts := attempts + 1;
        if attempts > 255 {
          return None;
        }
        taken := Taken(channelId);
      }
      free := Some(channelId);
    }

    method Connect(ctrlAddr: Endpoint, dataAddr: Endpoint, deviceManagement: bool, now: nat) returns (sent: seq<Sent>)
      requires Valid()
      modifies this
      ensures Valid() && fresh(Objects(tunnels) - old(Objects(tunnels)))
      ensures ServerStep(Model(), sent, []) == OnConnect(old(Model()), ctrlAddr, dataAddr, deviceManagement, now)
    {
      if deviceManagement {
        return [Sent(ctrlAddr, ConnectResponse(0, E_CONNECTION_TYPE, 0))];
      }
      if |tunnels| >= MAX_TUNNELS {
        return [Sent(ctrlAddr, ConnectResponse(0, E_NO_MORE_CONNECTIONS, 0))];
      }
      var free := FindFreeId();
      if free.None? {
        return [];
      }
      var channelId := free.value;
      var client := new TunnelClient(channelId, ctrlAddr, dataAddr, now);
      assert client !in tunnels;
      tunnels := tunnels + [client];
      nextChannelId := NextId(channelId);
      sent := [Sent(ctrlAddr, ConnectResponse(channelId, E_NO_ERROR, TUNNEL_IA_BASE + channelId))];
    }

    method Taken(id: nat) returns (taken: bool)
      ensures taken <==> id in Ids(Model().tunnels)
    {
      var k := Find(id, None, None);
      taken := k < |tunnels|;
      if taken {
        assert Model().tunnels[k] in Model().tunnels;
      }
    }

    method Heartbeat(src: Endpoint, id: nat, now: nat) returns (sent: seq<Sent>)
      requires Valid()
      modifies tunnels
      ensures Valid()
      ensures ServerStep(Model(), sent, []) == OnHeartbeat(old(Model()), src, id, now)
    {
      var k := Find(id, Some(src), None);
      if k < |tunnels| {
        tunnels[k].lastHeartbeat := now;
        sent := [Sent(src, ConnectionStateResponse(id, E_NO_ERROR))];
      } else {
        sent := [Sent(src, ConnectionStateResponse(id, E_CONNECTION_ID))];
      }
    }

    method Disconnect(src: Endpoint, id: nat) returns (sent: seq<Sent>)
      requires Valid()
      modifies this
      ensures Valid() && Objects(tunnels) <= old(Objects(tunnels))
      ensures ServerStep(Model(), sent, []) == OnDisconnect(old(Model()), src, id)
    {
      var k := Find(id, Some(src), None);
      if k < |tunnels| {
        Retain(OtherId(id));
        sent := [Sent(src, DisconnectResponse(id, E_NO_ERROR))];
      } else {
        sent := [Sent(src, DisconnectResponse(id, E_CONNECTION_ID))];
      }
    }

    /** Keep the tunnels that satisfy `which`, in order. */
    method Retain(which: Tunnel -> bool)
      requires Valid()
      modifies this
      ensures Valid() && Objects(tunnels) <= old(Objects(tunnels))
      ensures Model() == old(Model()).(tunnels := Keep(old(Model().tunnels), which))
    {
      var kept: seq<TunnelClient> := [];
      ghost var all := Models(tunnels);
      for i := 0 to |tunnels|
        invariant tunnels == old(tunnels) && nextChannelId == old(nextChannelId)
        invariant forall c :: c in kept ==> c in tunnels[..i]
        invariant forall j, k :: 0 <= j < k < |kept| ==> kept[j] != kept[k]
        invariant Models(kept) == Keep(all[..i], which)
      {
        assert all[..i + 1][..i] == all[..i];
        assert tunnels[..i + 1] == tunnels[..i] + [tunnels[i]];
        assert tunnels[i] !in tunnels[..i];
        if which(tunnels[i].Model()) {
          kept := kept + [tunnels[i]];
        }
      }
      assert all[..|tunnels|] == all;
      tunnels := kept;
    }

    method Request(src: Endpoint, id: nat, sequence: nat, body: Octets, now: nat)
      returns (sent: seq<Sent>, events: seq<Cemi.ValidFrame>)
      requires Valid()
      modifies tunnels
      ensures Valid()
      ensures ServerStep(Model(), sent, events) == OnRequest(old(Model()), src, id, sequence, body, now)
    {
      events := [];
      var k := Find(id, None, None);
      if k == |tunnels| || tunnels[k].dataAddr != src {
        return [Sent(src, TunnelingAck(id, sequence, E_CONNECTION_ID))], [];
      }
      var ack := [Sent(src, TunnelingAck(id, sequence, E_NO_ERROR))];
      if sequence != tunnels[k].recvSeq {
        return ack, [];
      }
      var more;
      more, events := tunnels[k].Accept(body, now);
      sent := ack + more;
    }

    method Ack(src: Endpoint, id: nat, sequence: nat, now: nat) returns (sent: seq<Sent>)
      requires Valid()
      modifies tunnels
      ensures Valid()
      ensures ServerStep(Model(), sent, []) == OnAck(old(Model()), src, id, sequence, now)
    {
      var k := Find(id, None, Some(src));
      if k == |tunnels| {
        return [];
      }
      sent := tunnels[k].Acknowledge(sequence, now);
    }

    /** Queue a frame for one tunnel; the others are not touched. */
    method QueueFor(k: nat, cemi: Octets, now: nat) returns (sent: seq<Sent>)
      requires Valid() && k < |tunnels|
      modifies tunnels
      ensures Valid()
      ensures Model().tunnels == old(Model().tunnels)[k := Queued(old(Model().tunnels[k]), cemi, now).tunnel]
      ensures sent == Queued(old(tunnels[k].Model()), cemi, now).sent
      ensures tunnels[k].Model() == Queued(old(tunnels[k].Model()), cemi, now).tunnel
      ensures forall j :: 0 <= j < |tunnels| && j != k ==> tunnels[j].Model() == old(tunnels[j].Model())
    {
      tunnels[k].Enqueue(cemi);
      sent := tunnels[k].Pump(now);
    }

    /** Queue a frame for every tunnel: one that does not answer holds up only itself. */
    method QueueForAll(cemi: Octets, now: nat) returns (sent: seq<Sent>)
      requires Valid()
      modifies tunnels
      ensures Valid()
      ensures (Model().tunnels, sent) == AllQueued(old(Model().tunnels), cemi, now)
    {
      sent := [];
      ghost var all := Model().tunnels;
      for i := 0 to |tunnels|
        invariant |all| == |tunnels|
        invariant forall j :: 0 <= j < i ==> tunnels[j].Model() == Queued(all[j], cemi, now).tunnel
        invariant forall j :: i <= j < |all| ==> tunnels[j].Model() == all[j]
        invariant sent == AllQueued(all[..i], cemi, now).1
      {
        OneMoreQueued(all, i, cemi, now);
        var more := QueueFor(i, cemi, now);
        sent := sent + more;
      }
      QueuedOneByOne(all, cemi, now);
      assert all[..|tunnels|] == all && Model().tunnels == AllQueued(all, cemi, now).0;
    }

    method SendToAll(multicast: Option<Endpoint>, f: Cemi.ValidFrame, now: nat) returns (sent: seq<Sent>)
      requires Valid()
      modifies tunnels
      ensures Valid()
      ensures ServerStep(Model(), sent, []) == OnSendAll(old(Model()), multicast, f, now)
    {
      var cemi := AsIndication(f);
      var routed := if multicast.Some? then [Sent(multicast.value, RoutingIndication(cemi))] else [];
      var queued := QueueForAll(cemi, now);
      sent := routed + queued;
    }

    /** Repeat the overdue request of one tunnel, or do nothing. */
    method RetryAt(k: nat, now: nat) returns (sent: seq<Sent>)
      requires Valid() && k < |tunnels|
      modifies tunnels
      ensures Valid()
      ensures sent == Retried(old(tunnels[k].Model()), now).sent
      ensures tunnels[k].Model() == Retried(old(tunnels[k].Model()), now).tunnel
      ensures forall j :: 0 <= j < |tunnels| && j != k ==> tunnels[j].Model() == old(tunnels[j].Model())
    {
      sent := [];
      var inFlight := tunnels[k].inFlight;
      if inFlight.None? || inFlight.value.deadline > now {
        return;
      }
      if inFlight.value.attempts < MAX_RETRIES {
        sent := tunnels[k].Transmit(now);
      }
    }

    /** Forget the first tunnel with this id and say goodbye to its client. */
    method Drop(id: nat) returns (sent: seq<Sent>)
      requires Valid()
      modifies this
      ensures Valid() && Objects(tunnels) <= old(Objects(tunnels)) && nextChannelId == old(nextChannelId)
      ensures (Model().tunnels, sent) == DropOne(old(Model().tunnels), id)
    {
      var k := Find(id, None, None);
      if k == |tunnels| {
        return [];
      }
      ghost var all := Model().tunnels;
      sent := [Sent(tunnels[k].ctrlAddr, DisconnectRequest(id))];
      RemoveAt(k);
      assert Model().tunnels == all[..k] + all[k + 1..];
    }

    method RemoveAt(k: nat)
      requires Valid() && k < |tunnels|
      modifies this`tunnels
      ensures Valid() && Objects(tunnels) <= old(Objects(tunnels))
      ensures |tunnels| == |old(tunnels)| - 1
      ensures forall i :: 0 <= i < |tunnels| ==> tunnels[i] == old(tunnels)[if i < k then i else i + 1]
    {
      tunnels := tunnels[..k] + tunnels[k + 1..];
    }

    /** Repeat what is overdue and note the ids of the clients that never answered. */
    method RetryAll(now: nat) returns (sent: seq<Sent>, lost: seq<nat>)
      requires Valid()
      modifies tunnels
      ensures Valid()
      ensures (Model().tunnels, sent) == AllRetried(old(Model().tunnels), now)
      ensures lost == LostIds(old(Model().tunnels), now)
    {
      sent, lost := [], [];
      ghost var all := Model().tunnels;
      for i := 0 to |tunnels|
        invariant |all| == |tunnels|
        invariant forall j :: 0 <= j < i ==> tunnels[j].Model() == Retried(all[j], now).tunnel
        invariant forall j :: i <= j < |all| ==> tunnels[j].Model() == all[j]
        invariant sent == AllRetried(all[..i], now).1 && lost == LostIds(all[..i], now)
      {
        OneMoreRetried(all, i, now);
        if Lost(tunnels[i].Model(), now) {
          lost := lost + [tunnels[i].channelId];
        }
        var more := RetryAt(i, now);
        sent := sent + more;
      }
      RetriedOneByOne(all, now);
      assert all[..|tunnels|] == all && Model().tunnels == AllRetried(all, now).0;
    }

    /** Forget these clients, one after the other. */
    method DropEach(lost: seq<nat>) returns (sent: seq<Sent>)
      requires Valid()
      modifies this
      ensures Valid() && Objects(tunnels) <= old(Objects(tunnels)) && nextChannelId == old(nextChannelId)
      ensures (Model().tunnels, sent) == DropAll(old(Model().tunnels), lost)
    {
      sent := [];
      ghost var all := Model().tunnels;
      for i := 0 to |lost|
        invariant Valid() && nextChannelId == old(nextChannelId) && Objects(tunnels) <= old(Objects(tunnels))
        invariant DropAll(all, lost[..i]) == (Model().tunnels, sent)
      {
        assert lost[..i + 1][..i] == lost[..i];
        var goodbye := Drop(lost[i]);
        sent := sent + goodbye;
      }
      assert lost[..|lost|] == lost;
    }

    method ExpireAcks(now: nat) returns (sent: seq<Sent>)
      requires Valid()
      requires DistinctIds(Model().tunnels)
      modifies this, tunnels
      ensures Valid() && Objects(tunnels) <= old(Objects(tunnels))
      ensures ServerStep(Model(), sent, []) == OnExpire(old(Model()), now)
    {
      ghost var all := Model().tunnels;
      var repeated, lost := RetryAll(now);
      var goodbyes := DropEach(lost);
      DroppingTheLost(all, now);
      sent := repeated + goodbyes;
    }

    method SendToTunnel(id: nat, f: Cemi.ValidFrame, now: nat) returns (sent: seq<Sent>)
      requires Valid()
      modifies tunnels
      ensures Valid()
      ensures ServerStep(Model(), sent, []) == OnSendTo(old(Model()), id, f, now)
    {
      var k := Find(id, None, None);
      if k == |tunnels| {
        return [];
      }
      sent := QueueFor(k, AsIndication(f), now);
    }

    method CleanUp(now: nat)
      requires Valid()
      modifies this
      ensures Valid() && Objects(tunnels) <= old(Objects(tunnels))
      ensures ServerStep(Model(), [], []) == OnCleanup(old(Model()), now)
    {
      Retain(Alive(now));
    }
  }

  // ── What the methods' loops compute ─────────────────────────────

  ghost predicate DistinctIds(tunnels: seq<Tunnel>) {
    forall i, j :: 0 <= i < j < |tunnels| ==> tunnels[i].channelId != tunnels[j].channelId
  }

  function LostIds(tunnels: seq<Tunnel>, now: nat): seq<nat> {
    if tunnels == [] then []
    else
      var n := |tunnels| - 1;
      LostIds(tunnels[..n], now) + (if Lost(tunnels[n], now) then [tunnels[n].channelId] else [])
  }

  function DropOne(tunnels: seq<Tunnel>, id: nat): (seq<Tunnel>, seq<Sent>) {
    var k := First(tunnels, HasId(id));
    if k == |tunnels| then (tunnels, [])
    else (tunnels[..k] + tunnels[k + 1..], [Sent(tunnels[k].ctrlAddr, DisconnectRequest(id))])
  }

  function DropAll(tunnels: seq<Tunnel>, ids: seq<nat>): (seq<Tunnel>, seq<Sent>) {
    if ids == [] then (tunnels, [])
    else
      var (rest, sent) := DropAll(tunnels, ids[..|ids| - 1]);
      var (last, goodbye) := DropOne(rest, ids[|ids| - 1]);
      (last, sent + goodbye)
  }

  lemma OneMoreQueued(all: seq<Tunnel>, i: nat, cemi: Octets, now: nat)
    requires i < |all|
    ensures var (before, sent) := AllQueued(all[..i], cemi, now);
            var r := Queued(all[i], cemi, now);
            AllQueued(all[..i + 1], cemi, now) == (before + [r.tunnel], sent + r.sent)
  {
    assert all[..i + 1][..i] == all[..i];
  }

  lemma OneMoreRetried(all: seq<Tunnel>, i: nat, now: nat)
    requires i < |all|
    ensures var (before, sent) := AllRetried(all[..i], now);
            var r := Retried(all[i], now);
            AllRetried(all[..i + 1], now) == (before + [r.tunnel], sent + r.sent)
    ensures LostIds(all[..i + 1], now)
         == LostIds(all[..i], now) + (if Lost(all[i], now) then [all[i].channelId] else [])
  {
    assert all[..i + 1][..i] == all[..i];
  }

  lemma {:induction false} QueuedOneByOne(all: seq<Tunnel>, cemi: Octets, now: nat)
    ensures var queued := AllQueued(all, cemi, now).0;
            |queued| == |all| && forall i :: 0 <= i < |all| ==> queued[i] == Queued(all[i], cemi, now).tunnel
  {
    if all != [] {
      QueuedOneByOne(all[..|all| - 1], cemi, now);
    }
  }

  lemma {:induction false} RetriedOneByOne(all: seq<Tunnel>, now: nat)
    ensures var retried := AllRetried(all, now).0;
            |retried| == |all| && forall i :: 0 <= i < |all| ==> retried[i] == Retried(all[i], now).tunnel
  {
    if all != [] {
      RetriedOneByOne(all[..|all| - 1], now);
    }
  }

  lemma {:induction false} KeptWereThere(tunnels: seq<Tunnel>, which: Tunnel -> bool)
    ensures forall t :: t in Keep(tunnels, which) <==> t in tunnels && which(t)
  {
    if tunnels != [] {
      var n := |tunnels| - 1;
      KeptWereThere(tunnels[..n], which);
      assert tunnels == tunnels[..n] + [tunnels[n]];
    }
  }

  lemma DroppingOneBefore(tunnels: seq<Tunnel>, t: Tunnel, id: nat)
    requires t.channelId != id
    ensures var (rest, sent) := DropOne(tunnels, id);
            DropOne(tunnels + [t], id) == (rest + [t], sent)
  {
    var all := tunnels + [t];
    var k := First(tunnels, HasId(id));
    FirstIs(all, HasId(id), if k < |tunnels| then k else |all|);
    if k < |tunnels| {
      assert all[..k] + all[k + 1..] == tunnels[..k] + tunnels[k + 1..] + [t];
    }
  }

  lemma {:induction false} DroppingBefore(tunnels: seq<Tunnel>, t: Tunnel, ids: seq<nat>)
    requires t.channelId !in ids
    ensures var (rest, sent) := DropAll(tunnels, ids);
            DropAll(tunnels + [t], ids) == (rest + [t], sent)
  {
    if ids != [] {
      var n := |ids| - 1;
      assert t.channelId !in ids[..n];
      DroppingBefore(tunnels, t, ids[..n]);
      DroppingOneBefore(DropAll(tunnels, ids[..n]).0, t, ids[n]);
    }
  }

  lemma DroppingLast(kept: seq<Tunnel>, t: Tunnel)
    requires forall u :: u in kept ==> u.channelId != t.channelId
    ensures DropOne(kept + [t], t.channelId) == (kept, [Sent(t.ctrlAddr, DisconnectRequest(t.channelId))])
  {
    FirstIs(kept + [t], HasId(t.channelId), |kept|);
    assert (kept + [t])[..|kept|] + (kept + [t])[|kept| + 1..] == kept;
  }

  lemma {:induction false} LostIdsAreIds(tunnels: seq<Tunnel>, now: nat)
    ensures forall id :: id in LostIds(tunnels, now) ==> exists t :: t in tunnels && t.channelId == id
  {
    if tunnels != [] {
      var n := |tunnels| - 1;
      LostIdsAreIds(tunnels[..n], now);
      assert tunnels == tunnels[..n] + [tunnels[n]];
    }
  }

  /** Retrying keeps ids and addresses, and a retried tunnel is lost exactly if it was before. */
  lemma RetryKeepsLost(t: Tunnel, now: nat)
    ensures var r := Retried(t, now).tunnel;
            r.channelId == t.channelId && r.ctrlAddr == t.ctrlAddr && (Lost(r, now) <==> Lost(t, now))
  {
  }

  lemma KeptHaveOtherIds(all: seq<Tunnel>, now: nat)
    requires all != [] && DistinctIds(all)
    ensures var n := |all| - 1;
            forall u :: u in Keep(AllRetried(all[..n], now).0, NotLost(now)) ==> u.channelId != all[n].channelId
    ensures all[|all| - 1].channelId !in LostIds(all[..|all| - 1], now)
  {
    var n := |all| - 1;
    RetriedOneByOne(all[..n], now);
    KeptWereThere(AllRetried(all[..n], now).0, NotLost(now));
    LostIdsAreIds(all[..n], now);
  }

  lemma DroppingOneMore(before: seq<Tunnel>, ids: seq<nat>, kept: seq<Tunnel>, goodbyes: seq<Sent>, r: Tunnel)
    requires DropAll(before, ids) == (kept, goodbyes)
    requires r.channelId !in ids && forall u :: u in kept ==> u.channelId != r.channelId
    ensures DropAll(before + [r], ids) == (kept + [r], goodbyes)
    ensures DropAll(before + [r], ids + [r.channelId])
         == (kept, goodbyes + [Sent(r.ctrlAddr, DisconnectRequest(r.channelId))])
  {
    DroppingBefore(before, r, ids);
    DroppingLast(kept, r);
    assert (ids + [r.channelId])[..|ids|] == ids;
  }

  lemma KeepOneMore(before: seq<Tunnel>, r: Tunnel, which: Tunnel -> bool)
    ensures Keep(before + [r], which) == Keep(before, which) + (if which(r) then [r] else [])
  {
    assert (before + [r])[..|before|] == before;
  }

  /** Dropping the lost tunnels one by one leaves the others, when no two tunnels share an id. */
  lemma {:induction false} DroppingTheLost(all: seq<Tunnel>, now: nat)
    requires DistinctIds(all)
    ensures DropAll(AllRetried(all, now).0, LostIds(all, now))
         == (Keep(AllRetried(all, now).0, NotLost(now)), Goodbyes(all, now))
  {
    if all != [] {
      var n := |all| - 1;
      var t, r := all[n], Retried(all[n], now).tunnel;
      var before, ids := AllRetried(all[..n], now).0, LostIds(all[..n], now);
      var kept, goodbyes := Keep(before, NotLost(now)), Goodbyes(all[..n], now);
      DroppingTheLost(all[..n], now);
      RetryKeepsLost(t, now);
      KeptHaveOtherIds(all, now);
      DroppingOneMore(before, ids, kept, goodbyes, r);
      KeepOneMore(before, r, NotLost(now));
      assert AllRetried(all, now).0 == before + [r];
      if !Lost(t, now) {
        assert ids + [] == ids && goodbyes + [] == goodbyes;
      }
    }
  }

  ghost function Objects(clients: seq<TunnelClient>): set<object> {
    set c | c in clients
  }

  lemma {:induction false} FirstIs(tunnels: seq<Tunnel>, which: Tunnel -> bool, k: nat)
    requires k <= |tunnels|
    requires forall j :: 0 <= j < k ==> !which(tunnels[j])
    requires k < |tunnels| ==> which(tunnels[k])
    ensures First(tunnels, which) == k
  {
    if k > 0 {
      FirstIs(tunnels[1..], which, k - 1);
    }
  }
}
