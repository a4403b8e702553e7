/**
 Each client of the tunnel server is served as if it were alone, and every frame ever queued for
 it is accounted for: it went on the wire in order, it still waits, or it was evicted while 128
 younger ones waited.
 */
module TunnelAccounts {
  import opened Basics
  import Cemi
  import opened TunnelServer
  import opened TunnelServerRuns

  // ── One client alone ────────────────────────────────────────────

  /** What an event of the server means for one client. */
  datatype ClientEvent =
    | Nothing
    | Beat
    | Leave
    | Take(body: Octets)
    | AckNumber(sequence: nat)
    | Queue(cemi: Octets)
    | Timeout
    | Sweep

  function For(e: Event, t: Tunnel): ClientEvent {
    match e
    case Connect(_, _, _) => Nothing
    case Heartbeat(src, id) => if id == t.channelId && src == t.ctrlAddr then Beat else Nothing
    case Disconnect(src, id) => if id == t.channelId && src == t.ctrlAddr then Leave else Nothing
    case Request(src, id, sequence, body) =>
      if id == t.channelId && src == t.dataAddr && sequence == t.recvSeq then Take(body) else Nothing
    case Ack(src, id, sequence) => if id == t.channelId && src == t.dataAddr then AckNumber(sequence) else Nothing
    case SendAll(_, frame) => Queue(AsIndication(frame))
    case SendTo(id, frame) => if id == t.channelId then Queue(AsIndication(frame)) else Nothing
    case Expire => Timeout
    case CleanUp => Sweep
  }

  /** The tunnel a client has after an event, if it still has one, and what goes on the wire to it. */
  datatype Outcome = Outcome(tunnel: Option<Tunnel>, sent: seq<Sent>)

  function Alone(t: Tunnel, e: ClientEvent, now: nat): Outcome {
    match e
    case Nothing => Outcome(Some(t), [])
    case Beat => Outcome(Some(t.(lastHeartbeat := now)), [])
    case Leave => Outcome(None, [])
    case Take(body) => var r := Accepted(t, body, now); Outcome(Some(r.tunnel), r.sent)
    case AckNumber(sequence) => var r := Acknowledged(t, sequence, now); Outcome(Some(r.tunnel), r.sent)
    case Queue(cemi) => var r := Queued(t, cemi, now); Outcome(Some(r.tunnel), r.sent)
    case Timeout => if Lost(t, now) then Outcome(None, []) else var r := Retried(t, now); Outcome(Some(r.tunnel), r.sent)
    case Sweep => Outcome(if Alive(now)(t) then Some(t) else None, [])
  }

  /** The tunnelling requests to one client among everything a server sends. */
  function Requests(sent: seq<Sent>, id: nat): seq<Sent> {
    if sent == [] then []
    else
      var n := |sent| - 1;
      var d := sent[n].datagram;
      Requests(sent[..n], id) + (if d.TunnelingRequest? && d.channelId == id then [sent[n]] else [])
  }

  lemma {:induction false} RequestsConcat(a: seq<Sent>, b: seq<Sent>, id: nat)
    ensures Requests(a + b, id) == Requests(a, id) + Requests(b, id)
  {
    if b == [] {
      assert a + b == a;
    } else {
      RequestsConcat(a, b[..|b| - 1], id);
      assert (a + b)[..|a + b| - 1] == a + b[..|b| - 1];
    }
  }

  lemma {:induction false} NoRequests(sent: seq<Sent>, id: nat)
    requires forall x :: x in sent ==> !(x.datagram.TunnelingRequest? && x.datagram.channelId == id)
    ensures Requests(sent, id) == []
  {
    if sent != [] {
      NoRequests(sent[..|sent| - 1], id);
    }
  }

  /** The server serves `client` under `id`. */
  ghost predicate Serves(s: Server, id: nat, client: Option<Tunnel>) {
    match client
    case Some(t) => t in s.tunnels && t.channelId == id
    case None => forall t :: t in s.tunnels ==> t.channelId != id
  }

  /** What a good tunnel sends are requests with its own id. */
  lemma SendsOwnRequests(t: Tunnel, e: ClientEvent, now: nat)
    requires TunnelOk(t) && (e.Queue? ==> Serializable(e.cemi))
    ensures forall x :: x in Alone(t, e, now).sent ==>
              x.datagram.TunnelingRequest? && x.datagram.channelId == t.channelId && x.to == t.dataAddr
  {
    match e
    case Take(body) => TakingSendsOwnRequests(t, body, now);
    case AckNumber(sequence) =>
      if t.inFlight.Some? && t.inFlight.value.sequence == sequence {
        PumpRestores(t.(inFlight := None, sendSeq := (sequence + 1) % 256), now);
      }
    case Queue(cemi) => PumpRestores(Enqueued(t, cemi), now);
    case _ =>
  }

  lemma TakingSendsOwnRequests(t: Tunnel, body: Octets, now: nat)
    requires TunnelOk(t)
    ensures forall x :: x in Accepted(t, body, now).sent ==>
              x.datagram.TunnelingRequest? && x.datagram.channelId == t.channelId && x.to == t.dataAddr
  {
    var parsed := Cemi.Parse(body);
    if parsed.Ok? && parsed.value.data[0] == Cemi.L_DATA_REQ {
      ConfirmationIsAFrame(parsed.value);
      PumpRestores(Enqueued(t.(recvSeq := (t.recvSeq + 1) % 256), ConfirmationOf(parsed.value).value), now);
    }
  }

  // ── The server serves each client as if it were alone ───────────

  /** An event that changes at most tunnel number `k` of the server, which is not the one of `t`. */
  lemma OthersStay(s: Server, k: nat, u: Tunnel, t: Tunnel)
    requires ServerOk(s) && t in s.tunnels && k < |s.tunnels| && s.tunnels[k].channelId != t.channelId
    ensures t in s.tunnels[k := u]
  {
    var i :| 0 <= i < |s.tunnels| && s.tunnels[i] == t;
    assert s.tunnels[k := u][i] == t;
  }

  lemma SameIdSameTunnel(s: Server, k: nat, t: Tunnel)
    requires ServerOk(s) && t in s.tunnels && k < |s.tunnels| && s.tunnels[k].channelId == t.channelId
    ensures s.tunnels[k] == t
  {
    var i :| 0 <= i < |s.tunnels| && s.tunnels[i] == t;
  }

  /** Where the first tunnel that matches an id is, seen from a tunnel the server has. */
  lemma FirstOrOther(s: Server, t: Tunnel, id: nat, ctrl: Option<Endpoint>, data: Option<Endpoint>)
    requires ServerOk(s) && t in s.tunnels
    ensures var k := First(s.tunnels, Matching(id, ctrl, data));
            if Matching(id, ctrl, data)(t) then k < |s.tunnels| && s.tunnels[k] == t
            else k < |s.tunnels| ==> s.tunnels[k].channelId != t.channelId
  {
    var k := First(s.tunnels, Matching(id, ctrl, data));
    var i :| 0 <= i < |s.tunnels| && s.tunnels[i] == t;
    if k < |s.tunnels| && s.tunnels[k].channelId == t.channelId {
      SameIdSameTunnel(s, k, t);
    }
  }

  lemma KeepServes(s: Server, which: Tunnel -> bool, t: Tunnel)
    requires ServerOk(s) && t in s.tunnels
    ensures Serves(s.(tunnels := Keep(s.tunnels, which)), t.channelId, if which(t) then Some(t) else None)
  {
    KeptWereThere(s.tunnels, which);
    forall u | u in Keep(s.tunnels, which) && u.channelId == t.channelId ensures u == t {
      var i :| 0 <= i < |s.tunnels| && s.tunnels[i] == u;
      SameIdSameTunnel(s, i, t);
    }
  }

  /** Requests sent to all clients, seen by one of them. */
  lemma {:induction false} QueuedForAllSeenByOne(tunnels: seq<Tunnel>, cemi: Octets, now: nat, k: nat)
    requires DistinctIds(tunnels) && k < |tunnels| && Serializable(cemi)
    requires forall t :: t in tunnels ==> TunnelOk(t)
    ensures |AllQueued(tunnels, cemi, now).0| == |tunnels|
    ensures AllQueued(tunnels, cemi, now).0[k] == Queued(tunnels[k], cemi, now).tunnel
    ensures Requests(AllQueued(tunnels, cemi, now).1, tunnels[k].channelId)
         == Requests(Queued(tunnels[k], cemi, now).sent, tunnels[k].channelId)
    decreases |tunnels|
  {
    var n := |tunnels| - 1;
    var id := tunnels[k].channelId;
    var (before, sent) := AllQueued(tunnels[..n], cemi, now);
    QueuedOneByOne(tunnels[..n], cemi, now);
    RequestsConcat(sent, Queued(tunnels[n], cemi, now).sent, id);
    if k < n {
      QueuedForAllSeenByOne(tunnels[..n], cemi, now, k);
      SendsOwnRequests(tunnels[n], Queue(cemi), now);
      NoRequests(Queued(tunnels[n], cemi, now).sent, id);
    } else {
      NotSeenByOthers(tunnels[..n], cemi, now, id);
    }
  }

  lemma {:induction false} NotSeenByOthers(tunnels: seq<Tunnel>, cemi: Octets, now: nat, id: nat)
    requires Serializable(cemi) && forall t :: t in tunnels ==> TunnelOk(t) && t.channelId != id
    ensures Requests(AllQueued(tunnels, cemi, now).1, id) == []
  {
    if tunnels != [] {
      var n := |tunnels| - 1;
      NotSeenByOthers(tunnels[..n], cemi, now, id);
      RequestsConcat(AllQueued(tunnels[..n], cemi, now).1, Queued(tunnels[n], cemi, now).sent, id);
      SendsOwnRequests(tunnels[n], Queue(cemi), now);
      NoRequests(Queued(tunnels[n], cemi, now).sent, id);
    }
  }

  /** Repetitions of all overdue requests, seen by one client. */
  lemma {:induction false} RetriesSeenByOne(tunnels: seq<Tunnel>, now: nat, k: nat)
    requires DistinctIds(tunnels) && k < |tunnels|
    requires forall t :: t in tunnels ==> TunnelOk(t)
    ensures |AllRetried(tunnels, now).0| == |tunnels|
    ensures AllRetried(tunnels, now).0[k] == Retried(tunnels[k], now).tunnel
    ensures Requests(AllRetried(tunnels, now).1, tunnels[k].channelId)
         == Requests(Retried(tunnels[k], now).sent, tunnels[k].channelId)
    decreases |tunnels|
  {
    var n := |tunnels| - 1;
    var id := tunnels[k].channelId;
    var (before, sent) := AllRetried(tunnels[..n], now);
    RetriedOneByOne(tunnels[..n], now);
    RequestsConcat(sent, Retried(tunnels[n], now).sent, id);
    if k < n {
      RetriesSeenByOne(tunnels[..n], now, k);
      SendsOwnRequests(tunnels[n], Timeout, now);
      NoRequests(Retried(tunnels[n], now).sent, id);
    } else {
      RetriesNotSeenByOthers(tunnels[..n], now, id);
    }
  }

  lemma {:induction false} RetriesNotSeenByOthers(tunnels: seq<Tunnel>, now: nat, id: nat)
    requires forall t :: t in tunnels ==> TunnelOk(t) && t.channelId != id
    ensures Requests(AllRetried(tunnels, now).1, id) == []
  {
    if tunnels != [] {
      var n := |tunnels| - 1;
      RetriesNotSeenByOthers(tunnels[..n], now, id);
      RequestsConcat(AllRetried(tunnels[..n], now).1, Retried(tunnels[n], now).sent, id);
      SendsOwnRequests(tunnels[n], Timeout, now);
      NoRequests(Retried(tunnels[n], now).sent, id);
    }
  }

  lemma {:induction false} GoodbyesAreNoRequests(tunnels: seq<Tunnel>, now: nat)
    ensures forall x :: x in Goodbyes(tunnels, now) ==> !x.datagram.TunnelingRequest?
  {
    if tunnels != [] {
      GoodbyesAreNoRequests(tunnels[..|tunnels| - 1], now);
    }
  }

  /** The server's step, seen by the client of `t`, is that client's own step. */
  ghost predicate AsIfAlone(t: Tunnel, own: Outcome, step: ServerStep) {
    && Serves(step.server, t.channelId, own.tunnel)
    && Requests(step.sent, t.channelId) == Requests(own.sent, t.channelId)
  }

  lemma RequestAsIfAlone(s: Server, src: Endpoint, id: nat, sequence: nat, body: Octets, now: nat, t: Tunnel)
    requires ServerOk(s) && t in s.tunnels
    ensures var e := Request(src, id, sequence, body); AsIfAlone(t, Alone(t, For(e, t), now), Handle(s, e, now))
  {
    var k := First(s.tunnels, HasId(id));
    FirstOrOther(s, t, id, None, None);
    if k < |s.tunnels| && s.tunnels[k].dataAddr == src && sequence == s.tunnels[k].recvSeq {
      RequestTaken(s, k, sequence, body, now, t, [Sent(src, TunnelingAck(id, sequence, E_NO_ERROR))]);
      if s.tunnels[k].channelId == t.channelId {
        SameIdSameTunnel(s, k, t);
      }
    } else {
      NoRequests(Handle(s, Request(src, id, sequence, body), now).sent, t.channelId);
    }
  }

  /** Tunnel number `k` takes over a request; `ack` acknowledges it. */
  lemma RequestTaken(s: Server, k: nat, sequence: nat, body: Octets, now: nat, t: Tunnel, ack: seq<Sent>)
    requires ServerOk(s) && t in s.tunnels && k < |s.tunnels|
    requires |ack| == 1 && !ack[0].datagram.TunnelingRequest?
    ensures var u := s.tunnels[k];
            var r := Accepted(u, body, now);
            && Serves(s.(tunnels := s.tunnels[k := r.tunnel]), t.channelId,
                      Some(if u.channelId == t.channelId then r.tunnel else t))
            && Requests(ack + r.sent, t.channelId)
               == if u.channelId == t.channelId then Requests(r.sent, t.channelId) else []
  {
    var u := s.tunnels[k];
    var r := Accepted(u, body, now);
    AcceptKeepsOk(u, body, now);
    BehindAck(ack, r.sent, t.channelId);
    if u.channelId == t.channelId {
      assert s.tunnels[k := r.tunnel][k] == r.tunnel;
    } else {
      OthersStay(s, k, r.tunnel, t);
      SendsNothingTo(u, body, now, t.channelId, r.sent);
    }
  }

  lemma BehindAck(ack: seq<Sent>, sent: seq<Sent>, id: nat)
    requires |ack| == 1 && !ack[0].datagram.TunnelingRequest?
    ensures Requests(ack + sent, id) == Requests(sent, id)
  {
    RequestsConcat(ack, sent, id);
    NoRequests(ack, id);
    EmptyIsUnit(Requests(sent, id));
  }

  lemma SendsNothingTo(u: Tunnel, body: Octets, now: nat, id: nat, sent: seq<Sent>)
    requires TunnelOk(u) && u.channelId != id && sent == Accepted(u, body, now).sent
    ensures Requests(sent, id) == []
  {
    SendsOwnRequests(u, Take(body), now);
    NoRequests(sent, id);
  }

  lemma AckAsIfAlone(s: Server, src: Endpoint, id: nat, sequence: nat, now: nat, t: Tunnel)
    requires ServerOk(s) && t in s.tunnels
    ensures var e := Ack(src, id, sequence); AsIfAlone(t, Alone(t, For(e, t), now), Handle(s, e, now))
  {
    var k := First(s.tunnels, Matching(id, None, Some(src)));
    FirstOrOther(s, t, id, None, Some(src));
    if k < |s.tunnels| {
      var u := s.tunnels[k];
      var r := Acknowledged(u, sequence, now);
      AckKeepsOk(u, sequence, now);
      if u.channelId == t.channelId {
        assert s.tunnels[k := r.tunnel][k] == r.tunnel;
      } else {
        OthersStay(s, k, r.tunnel, t);
        SendsOwnRequests(u, AckNumber(sequence), now);
        NoRequests(r.sent, t.channelId);
      }
    }
  }

  lemma SendToAsIfAlone(s: Server, id: nat, frame: Cemi.ValidFrame, now: nat, t: Tunnel)
    requires ServerOk(s) && t in s.tunnels
    ensures var e := SendTo(id, frame); AsIfAlone(t, Alone(t, For(e, t), now), Handle(s, e, now))
  {
    var k := First(s.tunnels, HasId(id));
    FirstOrOther(s, t, id, None, None);
    IndicationIsAFrame(frame);
    if k < |s.tunnels| {
      var u := s.tunnels[k];
      var r := Queued(u, AsIndication(frame), now);
      QueueKeepsOk(u, AsIndication(frame), now);
      if u.channelId == t.channelId {
        assert s.tunnels[k := r.tunnel][k] == r.tunnel;
      } else {
        OthersStay(s, k, r.tunnel, t);
        SendsOwnRequests(u, Queue(AsIndication(frame)), now);
        NoRequests(r.sent, t.channelId);
      }
    }
  }

  lemma SendAllServes(s: Server, multicast: Option<Endpoint>, frame: Cemi.ValidFrame, now: nat, k: nat)
    requires ServerOk(s) && k < |s.tunnels| && Serializable(AsIndication(frame))
    ensures Serves(OnSendAll(s, multicast, frame, now).server, s.tunnels[k].channelId,
                   Some(Queued(s.tunnels[k], AsIndication(frame), now).tunnel))
  {
    var cemi := AsIndication(frame);
    QueueKeepsOk(s.tunnels[k], cemi, now);
    QueuedForAllSeenByOne(s.tunnels, cemi, now, k);
  }

  lemma SendAllAsIfAlone(s: Server, multicast: Option<Endpoint>, frame: Cemi.ValidFrame, now: nat, t: Tunnel)
    requires ServerOk(s) && t in s.tunnels
    ensures AsIfAlone(t, Alone(t, Queue(AsIndication(frame)), now), OnSendAll(s, multicast, frame, now))
  {
    var cemi := AsIndication(frame);
    IndicationIsAFrame(frame);
    var k :| 0 <= k < |s.tunnels| && s.tunnels[k] == t;
    SendAllServes(s, multicast, frame, now, k);
    QueuedForAllSeenByOne(s.tunnels, cemi, now, k);
    RoutedIsNoRequest(multicast, cemi, AllQueued(s.tunnels, cemi, now).1, t.channelId);
  }

  lemma RoutedIsNoRequest(multicast: Option<Endpoint>, cemi: Octets, sent: seq<Sent>, id: nat)
    ensures var routed := match multicast case Some(group) => [Sent(group, RoutingIndication(cemi))] case None => [];
            Requests(routed + sent, id) == Requests(sent, id)
  {
    var routed := match multicast case Some(group) => [Sent(group, RoutingIndication(cemi))] case None => [];
    RequestsConcat(routed, sent, id);
    NoRequests(routed, id);
    EmptyIsUnit(Requests(sent, id));
  }

  lemma RetriedServerIsOk(s: Server, now: nat)
    requires ServerOk(s)
    ensures ServerOk(s.(tunnels := AllRetried(s.tunnels, now).0))
  {
    RetriedOneByOne(s.tunnels, now);
    var retried := AllRetried(s.tunnels, now).0;
    forall i | 0 <= i < |s.tunnels|
      ensures TunnelOk(retried[i]) && retried[i].channelId == s.tunnels[i].channelId
    {
      RetryKeepsOk(s.tunnels[i], now);
    }
    ReplaceAllKeepsOk(s, retried);
  }

  lemma ExpireServes(s: Server, now: nat, k: nat)
    requires ServerOk(s) && k < |s.tunnels|
    ensures Serves(OnExpire(s, now).server, s.tunnels[k].channelId, Alone(s.tunnels[k], Timeout, now).tunnel)
  {
    var retried := AllRetried(s.tunnels, now).0;
    RetriedOneByOne(s.tunnels, now);
    RetriedServerIsOk(s, now);
    RetryKeepsLost(s.tunnels[k], now);
    assert retried[k] in retried;
    KeepServes(s.(tunnels := retried), NotLost(now), retried[k]);
  }

  lemma ExpireAsIfAlone(s: Server, now: nat, t: Tunnel)
    requires ServerOk(s) && t in s.tunnels
    ensures AsIfAlone(t, Alone(t, Timeout, now), Handle(s, Expire, now))
  {
    var k :| 0 <= k < |s.tunnels| && s.tunnels[k] == t;
    ExpireServes(s, now, k);
    ExpireRequests(s, now, k);
    ExpireIs(s, now);
    AloneParts(t, Alone(t, Timeout, now), OnExpire(s, now));
  }

  lemma ExpireIs(s: Server, now: nat)
    ensures Handle(s, Expire, now) == OnExpire(s, now)
  {
  }

  lemma AloneParts(t: Tunnel, own: Outcome, step: ServerStep)
    requires Serves(step.server, t.channelId, own.tunnel)
    requires Requests(step.sent, t.channelId) == Requests(own.sent, t.channelId)
    ensures AsIfAlone(t, own, step)
  {
  }

  lemma ExpireRequests(s: Server, now: nat, k: nat)
    requires ServerOk(s) && k < |s.tunnels|
    ensures var t := s.tunnels[k];
            Requests(OnExpire(s, now).sent, t.channelId) == Requests(Alone(t, Timeout, now).sent, t.channelId)
  {
    RetriesSeenByOne(s.tunnels, now, k);
    OnlyRetriesRequest(s, now, s.tunnels[k].channelId);
    SentOnExpire(s, now);
    SentOnTimeout(s.tunnels[k], now);
  }

  lemma SentOnTimeout(t: Tunnel, now: nat)
    ensures Alone(t, Timeout, now).sent == Retried(t, now).sent
  {
  }

  lemma SentOnExpire(s: Server, now: nat)
    ensures OnExpire(s, now).sent == AllRetried(s.tunnels, now).1 + Goodbyes(s.tunnels, now)
  {
  }

  lemma OnlyRetriesRequest(s: Server, now: nat, id: nat)
    requires ServerOk(s)
    ensures Requests(AllRetried(s.tunnels, now).1 + Goodbyes(s.tunnels, now), id)
         == Requests(AllRetried(s.tunnels, now).1, id)
  {
    RequestsConcat(AllRetried(s.tunnels, now).1, Goodbyes(s.tunnels, now), id);
    GoodbyesAreNoRequests(s.tunnels, now);
    NoRequests(Goodbyes(s.tunnels, now), id);
    EmptyIsUnit(Requests(AllRetried(s.tunnels, now).1, id));
  }

  lemma ControlAsIfAlone(s: Server, e: Event, now: nat, t: Tunnel)
    requires ServerOk(s) && t in s.tunnels && (e.Connect? || e.Heartbeat? || e.Disconnect? || e.CleanUp?)
    ensures AsIfAlone(t, Alone(t, For(e, t), now), Handle(s, e, now))
  {
    NoRequests(Handle(s, e, now).sent, t.channelId);
    match e
    case Connect(_, _, _) =>
    case Heartbeat(src, id) =>
      FirstOrOther(s, t, id, Some(src), None);
      var k := First(s.tunnels, Matching(id, Some(src), None));
      if k < |s.tunnels| {
        var u := s.tunnels[k].(lastHeartbeat := now);
        if s.tunnels[k].channelId == t.channelId {
          assert s.tunnels[k := u][k] == u;
        } else {
          OthersStay(s, k, u, t);
        }
      }
    case Disconnect(src, id) =>
      FirstOrOther(s, t, id, Some(src), None);
      KeepServes(s, OtherId(id), t);
    case CleanUp =>
      KeepServes(s, Alive(now), t);
  }

  /**
   Isolation: whatever happens to the server, each client's queue, sequence numbers, frame in
   flight and requests on the wire become exactly what they would be if no other client existed.
   */
  lemma ServedAsIfAlone(s: Server, e: Event, now: nat, t: Tunnel)
    requires ServerOk(s) && t in s.tunnels
    ensures AsIfAlone(t, Alone(t, For(e, t), now), Handle(s, e, now))
  {
    match e
    case Request(src, id, sequence, body) => RequestAsIfAlone(s, src, id, sequence, body, now, t);
    case Ack(src, id, sequence) => AckAsIfAlone(s, src, id, sequence, now, t);
    case SendAll(multicast, frame) => SendAllAsIfAlone(s, multicast, frame, now, t);
    case SendTo(id, frame) => SendToAsIfAlone(s, id, frame, now, t);
    case Expire => ExpireAsIfAlone(s, now, t);
    case _ => ControlAsIfAlone(s, e, now, t);
  }

  /** A client's tunnel after a run, as long as it has one. */
  function AloneRun(t: Tunnel, es: seq<Stamped>): Option<Tunnel> {
    if es == [] then Some(t)
    else
      var last := es[|es| - 1];
      match AloneRun(t, es[..|es| - 1])
      case None => None
      case Some(u) => Alone(u, For(last.event, u), last.now).tunnel
  }

  /** Over whole runs, a client that is still served has the tunnel it would have alone. */
  lemma {:induction false} RunAsIfAlone(s: Server, es: seq<Stamped>, t: Tunnel)
    requires ServerOk(s) && t in s.tunnels
    ensures ServerOk(Run(s, es))
    ensures AloneRun(t, es).Some? ==> AloneRun(t, es).value in Run(s, es).tunnels
                                      && AloneRun(t, es).value.channelId == t.channelId
  {
    if es != [] {
      var n := |es| - 1;
      RunAsIfAlone(s, es[..n], t);
      var before := Run(s, es[..n]);
      HandleKeepsOk(before, es[n].event, es[n].now);
      if AloneRun(t, es[..n]).Some? {
        ServedAsIfAlone(before, es[n].event, es[n].now, AloneRun(t, es[..n]).value);
      }
    }
  }

  // ── Every frame is accounted for ────────────────────────────────

  /** What became of a queued frame: it went on the wire, or was dropped while so many waited. */
  datatype Fate = Flown | Evicted(waiting: nat)

  /** A client's tunnel with its history: the frames queued, the fates of the first of them, and the wire. */
  datatype Account = Account(tunnel: Tunnel, queued: seq<Octets>, fates: seq<Fate>, wire: seq<Octets>)

  /** The frame an event queues, if any. */
  function QueuedBy(e: ClientEvent): seq<Octets> {
    match e
    case Queue(cemi) => [cemi]
    case Take(body) =>
      (match Cemi.Parse(body)
       case Err(_) => []
       case Ok(f) => match ConfirmationOf(f) case None => [] case Some(c) => [c])
    case _ => []
  }

  /** The frames sent for the first time. */
  function FirstTransmissions(o: Outcome): seq<Octets> {
    if o.tunnel.Some? && o.tunnel.value.inFlight.Some? && o.tunnel.value.inFlight.value.attempts == 1
       && |o.sent| == 1 && o.sent[0].datagram.TunnelingRequest? then
      [o.sent[0].datagram.cemi]
    else []
  }

  function Evictions(t: Tunnel, e: ClientEvent): seq<Fate> {
    if QueuedBy(e) != [] && |t.outbox| >= MAX_CLIENT_QUEUE then [Evicted(|t.outbox|)] else []
  }

  function Booked(a: Account, e: ClientEvent, now: nat): Account
    requires Alone(a.tunnel, e, now).tunnel.Some?
  {
    var o := Alone(a.tunnel, e, now);
    Account(o.tunnel.value,
            a.queued + QueuedBy(e),
            a.fates + Evictions(a.tunnel, e) + (if FirstTransmissions(o) == [] then [] else [Flown]),
            a.wire + FirstTransmissions(o))
  }

  /** The frames among the first `|fates|` that went on the wire, in order. */
  function FlownOf(frames: seq<Octets>, fates: seq<Fate>): seq<Octets>
    requires |fates| <= |frames|
  {
    if fates == [] then []
    else
      var n := |fates| - 1;
      FlownOf(frames, fates[..n]) + (if fates[n] == Flown then [frames[n]] else [])
  }

  lemma {:induction false} FlownOfMore(frames: seq<Octets>, more: seq<Octets>, fates: seq<Fate>)
    requires |fates| <= |frames|
    ensures FlownOf(frames + more, fates) == FlownOf(frames, fates)
  {
    if fates != [] {
      FlownOfMore(frames, more, fates[..|fates| - 1]);
    }
  }

  lemma FlownOfStep(frames: seq<Octets>, more: seq<Octets>, fates: seq<Fate>, added: seq<Fate>)
    requires |fates| <= |frames| && |added| <= 1 && |fates| + |added| <= |frames + more|
    ensures FlownOf(frames + more, fates + added)
         == FlownOf(frames, fates) + (if added == [Flown] then [(frames + more)[|fates|]] else [])
  {
    FlownOfMore(frames, more, fates);
    if added == [] {
      assert fates + added == fates;
    } else {
      assert (fates + added)[..|fates|] == fates;
    }
  }

  /**
   The account is balanced: the frames that still wait are exactly the youngest queued ones, the
   wire shows the older ones in order, once each, and only those evicted from a full queue of 128
   are missing.
   */
  ghost predicate Balanced(a: Account) {
    && TunnelOk(a.tunnel)
    && |a.fates| + |a.tunnel.outbox| == |a.queued|
    && a.tunnel.outbox == a.queued[|a.fates|..]
    && a.wire == FlownOf(a.queued, a.fates)
    && forall i :: 0 <= i < |a.fates| && a.fates[i].Evicted? ==> a.fates[i].waiting == MAX_CLIENT_QUEUE
  }

  lemma OpeningIsBalanced(id: nat, ctrlAddr: Endpoint, dataAddr: Endpoint, now: nat)
    requires 0 < id < 256
    ensures Balanced(Account(NewTunnel(id, ctrlAddr, dataAddr, now), [], [], []))
  {
  }

  /** What one step adds to a balanced account: frames queued, at most one fate, and the frame it sent. */
  lemma Rebalanced(a: Account, b: Account, more: seq<Octets>, fates: seq<Fate>)
    requires Balanced(a) && TunnelOk(b.tunnel) && |fates| <= 1
    requires b.queued == a.queued + more && b.fates == a.fates + fates && |b.fates| <= |b.queued|
    requires b.tunnel.outbox == b.queued[|b.fates|..]
    requires b.wire == a.wire + (if fates == [Flown] then [b.queued[|a.fates|]] else [])
    requires fates != [] && fates[0].Evicted? ==> fates[0].waiting == MAX_CLIENT_QUEUE
    ensures Balanced(b)
  {
    FlownOfStep(a.queued, more, a.fates, fates);
  }

  /** Queueing one frame, whatever else of the tunnel changed, keeps the account balanced. */
  lemma QueueingBalances(a: Account, t: Tunnel, e: ClientEvent, cemi: Octets, now: nat)
    requires Balanced(a) && Serializable(cemi) && QueuedBy(e) == [cemi]
    requires TunnelOk(t) && t.outbox == a.tunnel.outbox && t.inFlight == a.tunnel.inFlight
    requires var r := Queued(t, cemi, now); Alone(a.tunnel, e, now) == Outcome(Some(r.tunnel), r.sent)
    ensures Balanced(Booked(a, e, now))
  {
    QueueingSends(t, cemi, now);
    QueueingBooks(a, Booked(a, e, now), e, cemi);
  }

  lemma QueueingBooks(a: Account, b: Account, e: ClientEvent, cemi: Octets)
    requires Balanced(a) && TunnelOk(b.tunnel) && QueuedBy(e) == [cemi] && b.queued == a.queued + [cemi]
    requires if a.tunnel.inFlight.None? then
               b.tunnel.outbox == [] && b.fates == a.fates + [Flown] && b.wire == a.wire + [cemi]
             else
               && b.tunnel.outbox == Enqueued(a.tunnel, cemi).outbox
               && b.fates == a.fates + Evictions(a.tunnel, e) && b.wire == a.wire
    ensures Balanced(b)
  {
    if a.tunnel.inFlight.None? {
      Rebalanced(a, b, [cemi], [Flown]);
    } else {
      Rebalanced(a, b, [cemi], Evictions(a.tunnel, e));
    }
  }

  /** A frame queued for an idle tunnel goes out at once; another one waits. */
  lemma QueueingSends(t: Tunnel, cemi: Octets, now: nat)
    requires TunnelOk(t) && Serializable(cemi)
    ensures var r := Queued(t, cemi, now);
            && TunnelOk(r.tunnel)
            && FirstTransmissions(Outcome(Some(r.tunnel), r.sent)) == (if t.inFlight.None? then [cemi] else [])
            && r.tunnel.outbox == (if t.inFlight.None? then [] else Enqueued(t, cemi).outbox)
  {
    PumpRestores(Enqueued(t, cemi), now);
  }

  lemma AckBalances(a: Account, sequence: nat, now: nat)
    requires Balanced(a)
    ensures Balanced(Booked(a, AckNumber(sequence), now))
  {
    var t := a.tunnel;
    var b := Booked(a, AckNumber(sequence), now);
    if t.inFlight.Some? && t.inFlight.value.sequence == sequence {
      PumpRestores(t.(inFlight := None, sendSeq := (sequence + 1) % 256), now);
      if t.outbox != [] {
        assert FirstTransmissions(Alone(t, AckNumber(sequence), now)) == [t.outbox[0]];
        Rebalanced(a, b, [], [Flown]);
      } else {
        Rebalanced(a, b, [], []);
      }
    } else {
      Rebalanced(a, b, [], []);
    }
  }

  lemma RetryIsNoFirstTransmission(t: Tunnel, now: nat)
    requires TunnelOk(t)
    ensures FirstTransmissions(Alone(t, Timeout, now)) == []
  {
  }

  lemma TakingBalances(a: Account, body: Octets, now: nat)
    requires Balanced(a)
    ensures Balanced(Booked(a, Take(body), now))
  {
    var e := Take(body);
    var t := a.tunnel.(recvSeq := (a.tunnel.recvSeq + 1) % 256);
    if QueuedBy(e) == [] {
      var b := Booked(a, e, now);
      assert b.queued == a.queued && b.fates == a.fates && b.wire == a.wire;
    } else {
      var f := Cemi.Parse(body).value;
      ConfirmationIsAFrame(f);
      QueueingBalances(a, t, e, ConfirmationOf(f).value, now);
    }
  }

  /** Every event keeps the account of a client balanced as long as it is served. */
  lemma BookingBalances(a: Account, e: ClientEvent, now: nat)
    requires Balanced(a) && (e.Queue? ==> Serializable(e.cemi))
    requires Alone(a.tunnel, e, now).tunnel.Some?
    ensures Balanced(Booked(a, e, now))
  {
    match e
    case Queue(cemi) => QueueingBalances(a, a.tunnel, e, cemi, now);
    case Take(body) => TakingBalances(a, body, now);
    case AckNumber(sequence) => AckBalances(a, sequence, now);
    case Timeout =>
      RetryIsNoFirstTransmission(a.tunnel, now);
      RetryKeepsOk(a.tunnel, now);
      Rebalanced(a, Booked(a, e, now), [], []);
    case Leave =>
    case Nothing => Rebalanced(a, Booked(a, e, now), [], []);
    case Beat => Rebalanced(a, Booked(a, e, now), [], []);
    case Sweep => Rebalanced(a, Booked(a, e, now), [], []);
  }

  /** The account of a client over a run of the server, as long as it is served. */
  function AccountOver(a: Account, es: seq<Stamped>): Option<Account> {
    if es == [] then Some(a)
    else
      var last := es[|es| - 1];
      match AccountOver(a, es[..|es| - 1])
      case None => None
      case Some(b) =>
        var e := For(last.event, b.tunnel);
        if Alone(b.tunnel, e, last.now).tunnel.None? then None else Some(Booked(b, e, last.now))
  }

  /** One event of the server keeps a balanced account balanced and about the server's own tunnel. */
  lemma AccountStep(s: Server, last: Stamped, b: Account, e: ClientEvent)
    requires ServerOk(s) && b.tunnel in s.tunnels && Balanced(b) && e == For(last.event, b.tunnel)
    requires Alone(b.tunnel, e, last.now).tunnel.Some?
    ensures Balanced(Booked(b, e, last.now))
    ensures Booked(b, e, last.now).tunnel in Handle(s, last.event, last.now).server.tunnels
    ensures Booked(b, e, last.now).tunnel.channelId == b.tunnel.channelId
  {
    ServedAsIfAlone(s, last.event, last.now, b.tunnel);
    if e.Queue? {
      IndicationIsAFrame(last.event.frame);
    }
    BookingBalances(b, e, last.now);
  }

  /**
   Conservation: over every run of the server, whatever the other clients do, the account of a
   client stays balanced, and it describes the tunnel the server really has for that client.
   */
  lemma {:induction false} EveryFrameIsAccountedFor(s: Server, es: seq<Stamped>, a: Account)
    requires ServerOk(s) && a.tunnel in s.tunnels && Balanced(a)
    ensures ServerOk(Run(s, es))
    ensures match AccountOver(a, es)
            case None => true
            case Some(b) => Balanced(b) && b.tunnel in Run(s, es).tunnels && b.tunnel.channelId == a.tunnel.channelId
  {
    if es != [] {
      var n := |es| - 1;
      EveryFrameIsAccountedFor(s, es[..n], a);
      HandleKeepsOk(Run(s, es[..n]), es[n].event, es[n].now);
      if AccountOver(a, es).Some? {
        var b := AccountOver(a, es[..n]).value;
        AccountStep(Run(s, es[..n]), es[n], b, For(es[n].event, b.tunnel));
      }
    }
  }
}
