/**
 What the tunnel server keeps over every run: its invariant, the isolation of the clients from
 each other, and the account of every frame queued for a client.
 */
module TunnelServerRuns {
  import opened Basics
  import Cemi
  import opened TunnelServer

  datatype Event =
    | Connect(ctrlAddr: Endpoint, dataAddr: Endpoint, deviceManagement: bool)
    | Heartbeat(src: Endpoint, id: nat)
    | Disconnect(src: Endpoint, id: nat)
    | Request(src: Endpoint, id: nat, sequence: nat, body: Octets)
    | Ack(src: Endpoint, id: nat, sequence: nat)
    | SendAll(multicast: Option<Endpoint>, frame: Cemi.ValidFrame)
    | SendTo(id: nat, frame: Cemi.ValidFrame)
    | Expire
    | CleanUp

  function Handle(s: Server, e: Event, now: nat): ServerStep {
    match e
    case Connect(ctrlAddr, dataAddr, deviceManagement) => OnConnect(s, ctrlAddr, dataAddr, deviceManagement, now)
    case Heartbeat(src, id) => OnHeartbeat(s, src, id, now)
    case Disconnect(src, id) => OnDisconnect(s, src, id)
    case Request(src, id, sequence, body) => OnRequest(s, src, id, sequence, body, now)
    case Ack(src, id, sequence) => OnAck(s, src, id, sequence, now)
    case SendAll(multicast, frame) => OnSendAll(s, multicast, frame, now)
    case SendTo(id, frame) => OnSendTo(s, id, frame, now)
    case Expire => OnExpire(s, now)
    case CleanUp => OnCleanup(s, now)
  }

  // ── The invariant of one tunnel ─────────────────────────────────

  ghost predicate TunnelOk(t: Tunnel) {
    && 0 < t.channelId < 256 && t.sendSeq < 256 && t.recvSeq < 256
    && |t.outbox| <= MAX_CLIENT_QUEUE
    && (forall c :: c in t.outbox ==> Serializable(c))
    && match t.inFlight
       case None => t.outbox == []
       case Some(f) =>
         && f.sequence == t.sendSeq
         && 1 <= f.attempts <= MAX_RETRIES
         && f.datagram.TunnelingRequest?
         && f.datagram.channelId == t.channelId && f.datagram.sequence == t.sendSeq
  }

  /** A tunnel that is about to be pumped: nothing need be in flight although frames wait. */
  ghost predicate ReadyToPump(t: Tunnel) {
    && 0 < t.channelId < 256 && t.sendSeq < 256 && t.recvSeq < 256
    && |t.outbox| <= MAX_CLIENT_QUEUE
    && (forall c :: c in t.outbox ==> Serializable(c))
    && (t.inFlight.Some? ==> TunnelOk(t))
  }

  /** Pumping sends the oldest waiting frame, if nothing is in flight, and restores the invariant. */
  lemma PumpRestores(t: Tunnel, now: nat)
    requires ReadyToPump(t)
    ensures var r := Pumped(t, now);
            && TunnelOk(r.tunnel)
            && r.tunnel.channelId == t.channelId && r.tunnel.ctrlAddr == t.ctrlAddr && r.tunnel.dataAddr == t.dataAddr
            && if t.inFlight.Some? || t.outbox == [] then
                 r.sent == [] && r.tunnel.outbox == t.outbox && r.tunnel.inFlight == t.inFlight
               else
                 && r.sent == [Sent(t.dataAddr, TunnelingRequest(t.channelId, t.sendSeq, t.outbox[0]))]
                 && r.tunnel.outbox == t.outbox[1..]
                 && r.tunnel.inFlight == Some(InFlight(t.sendSeq, r.sent[0].datagram, 1, now + REQUEST_TIMEOUT_MS))
                 && r.tunnel.sendSeq == t.sendSeq && r.tunnel.recvSeq == t.recvSeq
  {
    if t.inFlight.None? && t.outbox != [] {
      assert t.outbox[0] in t.outbox;
    }
  }

  lemma QueueKeepsOk(t: Tunnel, cemi: Octets, now: nat)
    requires TunnelOk(t) && Serializable(cemi)
    ensures TunnelOk(Queued(t, cemi, now).tunnel)
    ensures Queued(t, cemi, now).tunnel.channelId == t.channelId
  {
    PumpRestores(Enqueued(t, cemi), now);
  }

  lemma AckKeepsOk(t: Tunnel, sequence: nat, now: nat)
    requires TunnelOk(t)
    ensures TunnelOk(Acknowledged(t, sequence, now).tunnel)
    ensures Acknowledged(t, sequence, now).tunnel.channelId == t.channelId
  {
    if t.inFlight.Some? && t.inFlight.value.sequence == sequence {
      PumpRestores(t.(inFlight := None, sendSeq := (sequence + 1) % 256), now);
    }
  }

  lemma RetryKeepsOk(t: Tunnel, now: nat)
    requires TunnelOk(t)
    ensures TunnelOk(Retried(t, now).tunnel)
    ensures Retried(t, now).tunnel.channelId == t.channelId
  {
  }

  lemma ClearsLowestBit(b: bv8)
    ensures (b & 0xFE) & 0x01 == 0 && (b & 0xFE) | 0x01 == b | 0x01
  {
  }

  /** A confirmation is the request with its message code and its confirm flag changed, and nothing else. */
  lemma ConfirmationIsAFrame(f: Cemi.ValidFrame)
    requires f.data[0] == Cemi.L_DATA_REQ
    ensures ConfirmationOf(f).Some?
    ensures var c := ConfirmationOf(f).value;
            && Cemi.Parse(c) == Ok(Cemi.Frame(c, f.ctrlOffset))
            && c == f.data[0 := Cemi.L_DATA_CON][f.ctrlOffset := c[f.ctrlOffset]]
            && c[f.ctrlOffset] & 0x01 == 0 && c[f.ctrlOffset] | 0x01 == f.data[f.ctrlOffset] | 0x01
            && Serializable(c)
  {
    var c := ConfirmationOf(f).value;
    Cemi.FrameIsShort(f);
    Cemi.SameShape(f, c);
    ClearsLowestBit(f.data[f.ctrlOffset]);
  }

  /** What goes out to the clients is a frame again, and never a request. */
  lemma IndicationIsAFrame(f: Cemi.ValidFrame)
    ensures var c := AsIndication(f);
            && Cemi.Parse(c) == Ok(Cemi.Frame(c, f.ctrlOffset))
            && c[0] != Cemi.L_DATA_REQ && c[1..] == f.data[1..]
            && Serializable(c)
  {
    Cemi.FrameIsShort(f);
    Cemi.SameShape(f, AsIndication(f));
  }

  lemma AcceptKeepsOk(t: Tunnel, body: Octets, now: nat)
    requires TunnelOk(t)
    ensures TunnelOk(Accepted(t, body, now).tunnel)
    ensures Accepted(t, body, now).tunnel.channelId == t.channelId
  {
    var parsed := Cemi.Parse(body);
    if parsed.Ok? && parsed.value.data[0] == Cemi.L_DATA_REQ {
      ConfirmationIsAFrame(parsed.value);
      QueueKeepsOk(t.(recvSeq := (t.recvSeq + 1) % 256), ConfirmationOf(parsed.value).value, now);
    }
  }

  // ── The invariant of the server ─────────────────────────────────

  ghost predicate ServerOk(s: Server) {
    && |s.tunnels| <= MAX_TUNNELS
    && DistinctIds(s.tunnels)
    && (forall t :: t in s.tunnels ==> TunnelOk(t))
    && 0 < s.nextChannelId < 256
  }

  /** The id `k` steps after `id`. */
  function Later(id: nat, k: nat): nat {
    if k == 0 then id else NextId(Later(id, k - 1))
  }

  lemma {:induction false} LaterIs(id: nat, k: nat)
    requires 0 < id < 256 && k < 255
    ensures Later(id, k) == if id + k < 256 then id + k else id + k - 255
  {
    if k > 0 {
      LaterIs(id, k - 1);
    }
  }

  lemma {:induction false} LaterOfNext(id: nat, k: nat)
    ensures Later(NextId(id), k) == Later(id, k + 1)
  {
    if k > 0 {
      LaterOfNext(id, k - 1);
    }
  }

  /** `m` steps after `id` is the first free id, and the search that went `k` steps finds it. */
  ghost predicate Finds(used: set<nat>, id: nat, k: nat, m: nat) {
    && k <= m
    && FreeId(used, Later(id, k), k) == Some(Later(id, m))
    && Later(id, m) !in used
    && forall j :: k <= j < m ==> Later(id, j) in used
  }

  /** The search has met `u` in its first `k` steps. */
  ghost predicate Met(id: nat, k: nat, u: nat) {
    exists j :: 0 <= j < k && Later(id, j) == u
  }

  /** The search finds the first free id after at most as many further steps as ids remain to be met. */
  lemma {:induction false} SearchIsShort(used: set<nat>, remaining: set<nat>, id: nat, k: nat) returns (m: nat)
    requires 0 < id < 256 && k + |remaining| < 255
    requires forall u :: u in used ==> u in remaining || Met(id, k, u)
    ensures Finds(used, id, k, m) && m <= k + |remaining|
    decreases |remaining|
  {
    var here := Later(id, k);
    if here !in used {
      m := k;
    } else {
      LaterIs(id, k);
      forall j | 0 <= j < k ensures Later(id, j) != here {
        LaterIs(id, j);
      }
      assert here in remaining;
      var rest := remaining - {here};
      assert |rest| == |remaining| - 1;
      assert Met(id, k + 1, here);
      forall u | u in used ensures u in rest || Met(id, k + 1, u) {
        if Met(id, k, u) {
          var j :| 0 <= j < k && Later(id, j) == u;
          assert 0 <= j < k + 1 && Later(id, j) == u;
        }
      }
      m := SearchIsShort(used, rest, id, k + 1);
      assert Later(id, k) in used;
    }
  }

  lemma {:induction false} FewIds(tunnels: seq<Tunnel>)
    ensures |Ids(tunnels)| <= |tunnels|
  {
    if tunnels == [] {
      assert Ids(tunnels) == {};
    } else {
      var n := |tunnels| - 1;
      FewIds(tunnels[..n]);
      assert tunnels == tunnels[..n] + [tunnels[n]];
      assert Ids(tunnels) == Ids(tunnels[..n]) + {tunnels[n].channelId};
    }
  }

  /** With at most three tunnels the id search needs at most four probes, and never gives up. */
  lemma IdSearchEndsWithinFourProbes(s: Server) returns (m: nat)
    requires ServerOk(s) && |s.tunnels| < MAX_TUNNELS
    ensures m <= 3 && Finds(Ids(s.tunnels), s.nextChannelId, 0, m)
  {
    FewIds(s.tunnels);
    m := SearchIsShort(Ids(s.tunnels), Ids(s.tunnels), s.nextChannelId, 0);
  }

  /** Replacing one tunnel by a good one with the same id keeps the invariant. */
  lemma ReplaceKeepsOk(s: Server, k: nat, t: Tunnel)
    requires ServerOk(s) && k < |s.tunnels| && TunnelOk(t) && t.channelId == s.tunnels[k].channelId
    ensures ServerOk(s.(tunnels := s.tunnels[k := t]))
  {
    forall u | u in s.tunnels[k := t] ensures TunnelOk(u) {
      var i :| 0 <= i < |s.tunnels| && s.tunnels[k := t][i] == u;
      assert s.tunnels[i] in s.tunnels;
    }
  }

  /** Replacing every tunnel by a good one with the same id keeps the invariant. */
  lemma ReplaceAllKeepsOk(s: Server, tunnels: seq<Tunnel>)
    requires ServerOk(s) && |tunnels| == |s.tunnels|
    requires forall i :: 0 <= i < |tunnels| ==> TunnelOk(tunnels[i]) && tunnels[i].channelId == s.tunnels[i].channelId
    ensures ServerOk(s.(tunnels := tunnels))
  {
  }

  lemma {:induction false} KeepKeepsOk(tunnels: seq<Tunnel>, which: Tunnel -> bool)
    requires DistinctIds(tunnels)
    ensures DistinctIds(Keep(tunnels, which)) && |Keep(tunnels, which)| <= |tunnels|
  {
    if tunnels != [] {
      var n := |tunnels| - 1;
      KeepKeepsOk(tunnels[..n], which);
      KeptWereThere(tunnels[..n], which);
      var kept := Keep(tunnels[..n], which);
      forall i | 0 <= i < |kept| ensures kept[i].channelId != tunnels[n].channelId {
        assert kept[i] in kept;
        var j :| 0 <= j < n && tunnels[..n][j] == kept[i];
      }
    }
  }

  lemma KeepingSomeKeepsOk(s: Server, which: Tunnel -> bool)
    requires ServerOk(s)
    ensures ServerOk(s.(tunnels := Keep(s.tunnels, which)))
  {
    KeepKeepsOk(s.tunnels, which);
    KeptWereThere(s.tunnels, which);
  }

  lemma ConnectKeepsOk(s: Server, ctrlAddr: Endpoint, dataAddr: Endpoint, now: nat)
    requires ServerOk(s) && |s.tunnels| < MAX_TUNNELS
    ensures ServerOk(OnConnect(s, ctrlAddr, dataAddr, false, now).server)
    ensures |OnConnect(s, ctrlAddr, dataAddr, false, now).server.tunnels| == |s.tunnels| + 1
  {
    var m := IdSearchEndsWithinFourProbes(s);
    LaterIs(s.nextChannelId, m);
    var id := Later(s.nextChannelId, m);
    forall i | 0 <= i < |s.tunnels| ensures s.tunnels[i].channelId != id {
      assert s.tunnels[i] in s.tunnels;
    }
  }

  lemma RequestKeepsOk(s: Server, src: Endpoint, id: nat, sequence: nat, body: Octets, now: nat)
    requires ServerOk(s)
    ensures ServerOk(OnRequest(s, src, id, sequence, body, now).server)
  {
    var k := First(s.tunnels, HasId(id));
    if k < |s.tunnels| {
      AcceptKeepsOk(s.tunnels[k], body, now);
      ReplaceKeepsOk(s, k, Accepted(s.tunnels[k], body, now).tunnel);
    }
  }

  lemma AcknowledgementKeepsOk(s: Server, src: Endpoint, id: nat, sequence: nat, now: nat)
    requires ServerOk(s)
    ensures ServerOk(OnAck(s, src, id, sequence, now).server)
  {
    var k := First(s.tunnels, Matching(id, None, Some(src)));
    if k < |s.tunnels| {
      AckKeepsOk(s.tunnels[k], sequence, now);
      ReplaceKeepsOk(s, k, Acknowledged(s.tunnels[k], sequence, now).tunnel);
    }
  }

  lemma SendAllKeepsOk(s: Server, cemi: Octets, now: nat)
    requires ServerOk(s) && Serializable(cemi)
    ensures ServerOk(s.(tunnels := AllQueued(s.tunnels, cemi, now).0))
  {
    QueuedOneByOne(s.tunnels, cemi, now);
    var queued := AllQueued(s.tunnels, cemi, now).0;
    forall i | 0 <= i < |s.tunnels|
      ensures TunnelOk(queued[i]) && queued[i].channelId == s.tunnels[i].channelId
    {
      QueueKeepsOk(s.tunnels[i], cemi, now);
    }
    ReplaceAllKeepsOk(s, queued);
  }

  lemma SendToKeepsOk(s: Server, id: nat, frame: Cemi.ValidFrame, now: nat)
    requires ServerOk(s)
    ensures ServerOk(OnSendTo(s, id, frame, now).server)
  {
    var k := First(s.tunnels, HasId(id));
    if k < |s.tunnels| {
      IndicationIsAFrame(frame);
      QueueKeepsOk(s.tunnels[k], AsIndication(frame), now);
      ReplaceKeepsOk(s, k, Queued(s.tunnels[k], AsIndication(frame), now).tunnel);
    }
  }

  lemma HeartbeatKeepsOk(s: Server, src: Endpoint, id: nat, now: nat)
    requires ServerOk(s)
    ensures ServerOk(OnHeartbeat(s, src, id, now).server)
  {
    var k := First(s.tunnels, Matching(id, Some(src), None));
    if k < |s.tunnels| {
      assert s.tunnels[k] in s.tunnels;
      ReplaceKeepsOk(s, k, s.tunnels[k].(lastHeartbeat := now));
    }
  }

  /** Every handler keeps the server invariant. */
  lemma HandleKeepsOk(s: Server, e: Event, now: nat)
    requires ServerOk(s)
    ensures ServerOk(Handle(s, e, now).server)
  {
    match e
    case Connect(ctrlAddr, dataAddr, deviceManagement) =>
      if !deviceManagement && |s.tunnels| < MAX_TUNNELS {
        ConnectKeepsOk(s, ctrlAddr, dataAddr, now);
      }
    case Heartbeat(src, id) => HeartbeatKeepsOk(s, src, id, now);
    case Disconnect(src, id) => KeepingSomeKeepsOk(s, OtherId(id));
    case Request(src, id, sequence, body) => RequestKeepsOk(s, src, id, sequence, body, now);
    case Ack(src, id, sequence) => AcknowledgementKeepsOk(s, src, id, sequence, now);
    case SendAll(multicast, frame) =>
      IndicationIsAFrame(frame);
      SendAllKeepsOk(s, AsIndication(frame), now);
    case SendTo(id, frame) => SendToKeepsOk(s, id, frame, now);
    case Expire => ExpireKeepsOk(s, now);
    case CleanUp => KeepingSomeKeepsOk(s, Alive(now));
  }

  lemma ExpireKeepsOk(s: Server, now: nat)
    requires ServerOk(s)
    ensures ServerOk(OnExpire(s, now).server)
  {
    var retried := AllRetried(s.tunnels, now).0;
    RetriedOneByOne(s.tunnels, now);
    forall i | 0 <= i < |s.tunnels|
      ensures TunnelOk(retried[i]) && retried[i].channelId == s.tunnels[i].channelId
    {
      RetryKeepsOk(s.tunnels[i], now);
    }
    ReplaceAllKeepsOk(s, retried);
    KeepingSomeKeepsOk(s.(tunnels := retried), NotLost(now));
  }

  /** One event, at the time it is handled. */
  datatype Stamped = Stamped(now: nat, event: Event)

  function Run(s: Server, es: seq<Stamped>): Server {
    if es == [] then s
    else
      var last := es[|es| - 1];
      Handle(Run(s, es[..|es| - 1]), last.event, last.now).server
  }

  /** In every state of every run of a fresh server the invariant holds. */
  lemma {:induction false} EveryRunIsOk(es: seq<Stamped>)
    ensures ServerOk(Run(Server([], 1), es))
  {
    if es != [] {
      EveryRunIsOk(es[..|es| - 1]);
      HandleKeepsOk(Run(Server([], 1), es[..|es| - 1]), es[|es| - 1].event, es[|es| - 1].now);
    }
  }

  /** One datagram hands at most one frame to the application, and nothing else hands it any. */
  lemma AtMostOneEvent(s: Server, e: Event, now: nat)
    ensures |Handle(s, e, now).events| <= 1
    ensures !e.Request? ==> Handle(s, e, now).events == []
  {
  }
}
