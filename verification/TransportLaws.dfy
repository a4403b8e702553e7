/**
 What the transport layer achieves, as opposed to what it avoids: connections open, data arrives
 and is confirmed, requests that had to wait are sent, silence and errors close, and either end can
 always disconnect.
 */
module TransportLaws {
  import opened Basics
  import opened TransportLayer
  import Runs = TransportRuns

  datatype Payload = Payload(priority: Priority, apdu: Octets)

  // ── Closing ─────────────────────────────────────────────────────

  /** Closed, with both timers stopped, and everything else as it was. */
  predicate ClosedFrom(t: Layer, u: Layer) {
    && u.state == Closed && u.connectionDeadline.None? && u.ackDeadline.None?
    && u.peer == t.peer && u.seqSend == t.seqSend && u.seqRecv == t.seqRecv && u.repCount == t.repCount
    && u.saved == t.saved && u.buffered == t.buffered
  }

  /** A disconnect of the peer closes every connection and is indicated; nothing is sent. */
  lemma DisconnectCloses(t: Layer, now: nat)
    requires t.state != Closed
    ensures var s := Handle(t, DisconnectInd(t.peer), now);
            ClosedFrom(t, s.layer) && s.actions == [DisconnectIndication(t.peer)]
  {
  }

  /** A disconnect of anybody else, or without a connection, does nothing. */
  lemma OtherDisconnectIsIgnored(t: Layer, source: Address, now: nat)
    requires source != t.peer || t.state == Closed
    ensures Handle(t, DisconnectInd(source), now) == Step(t, [])
  {
  }

  /** The layer gave up: it told the peer and the application. */
  predicate GaveUp(t: Layer, s: Step) {
    ClosedFrom(t, s.layer) && s.actions == [SendControl(t.peer, Disconnect, 0), DisconnectIndication(t.peer)]
  }

  /** The application can end every connection; without one it is told so. */
  lemma RequestCloses(t: Layer, now: nat)
    ensures var s := Handle(t, DisconnectReq, now);
            if t.state == Closed then s == Step(t, [DisconnectIndication(t.peer)]) else GaveUp(t, s)
  {
  }

  /** A connection on which nothing kept it alive for 6 s is closed by the next poll. */
  lemma SilenceCloses(t: Layer, now: nat)
    requires Runs.Inv(t) && t.state != Closed && t.connectionDeadline.value <= now
    ensures GaveUp(t, Handle(t, Poll, now))
  {
  }

  /** What keeps a connection alive for another 6 s: data of the peer, and completing or repeating a send. */
  lemma KeptAlive(t: Layer, e: Event, now: nat)
    requires Runs.Inv(t) && t.state in {OpenIdle, OpenWait}
    requires match e
             case DataInd(source, _, _, _) => source == t.peer
             case AckInd(source, number) => source == t.peer && t.state == OpenWait && number == t.seqSend
             case NackInd(source, number) =>
               source == t.peer && t.state == OpenWait && number == t.seqSend && t.repCount < 3
             case DataReq(_, _) => t.state == OpenIdle
             case _ => false
    ensures Handle(t, e, now).layer.connectionDeadline == Some(now + 6000)
  {
  }

  /** Telegrams of the peer that contradict the state close the connection. */
  lemma ContradictionCloses(t: Layer, e: Event, now: nat)
    requires match e
             case AckInd(source, number) =>
               source == t.peer && (t.state == Connecting || (t.state == OpenWait && number != t.seqSend))
             case NackInd(source, number) =>
               source == t.peer && (t.state in {OpenIdle, Connecting}
                                    || (t.state == OpenWait && number == t.seqSend && t.repCount >= 3))
             case DataInd(source, number, _, _) =>
               source == t.peer && t.state == Connecting && number != (t.seqRecv + 15) % 16
             case ConnectReq(_) => t.state != Closed
             case _ => false
    ensures var s := Handle(t, e, now);
            && s.layer.state == Closed && s.layer.connectionDeadline.None? && s.layer.ackDeadline.None?
            && s.actions == [SendControl(t.peer, Disconnect, 0), DisconnectIndication(t.peer)]
  {
  }

  // ── Repeating ───────────────────────────────────────────────────

  /** The saved frame goes out once more, under its number. */
  predicate Repeats(t: Layer, s: Step, now: nat) {
    && t.saved.Some?
    && s.actions == [SendDataConnected(t.saved.value.destination, t.saved.value.seqNo, t.saved.value.priority, t.saved.value.apdu)]
    && s.layer.state == OpenWait && s.layer.repCount == t.repCount + 1 && s.layer.saved == t.saved
    && s.layer.seqSend == t.seqSend && s.layer.ackDeadline == Some(now + 3000)
  }

  /** A refusal and a timeout repeat the frame, as long as it was repeated less than three times. */
  lemma RepeatedUpToThreeTimes(t: Layer, now: nat)
    requires Runs.Inv(t) && t.state == OpenWait && t.repCount < 3
    ensures Repeats(t, Handle(t, NackInd(t.peer, t.seqSend), now), now)
    ensures t.ackDeadline.value <= now < t.connectionDeadline.value ==> Repeats(t, Handle(t, Poll, now), now)
  {
  }

  /** Before anything is due, polling an idle line does nothing. */
  lemma NothingDue(t: Layer, now: nat)
    requires t.connectionDeadline.Some? ==> now < t.connectionDeadline.value
    requires t.ackDeadline.Some? ==> now < t.ackDeadline.value
    requires t.state != OpenIdle || t.buffered.None?
    ensures Handle(t, Poll, now) == Step(t, [])
  {
  }

  // ── Answers to data ─────────────────────────────────────────────

  /** The answer to data of the peer: acknowledged and indicated, acknowledged again, or refused. */
  lemma DataIsAnswered(t: Layer, number: nat, priority: Priority, apdu: Octets, now: nat)
    requires Runs.Inv(t) && t.state in {OpenIdle, OpenWait}
    ensures var s := Handle(t, DataInd(t.peer, number, priority, apdu), now);
            && s.layer.state == t.state
            && s.layer.seqRecv == (if number == t.seqRecv then (t.seqRecv + 1) % 16 else t.seqRecv)
            && s.actions
               == if number == t.seqRecv then
                    [SendControl(t.peer, Ack, number), DataConnectedIndication(t.peer, priority, apdu)]
                  else if number == (t.seqRecv + 15) % 16 then [SendControl(t.peer, Ack, number)]
                  else [SendControl(t.peer, Nack, number)]
  {
  }

  /** Other devices are turned away when they call, and while this device is calling itself. */
  lemma OthersAreTurnedAway(t: Layer, source: Address, number: nat, priority: Priority, apdu: Octets, now: nat)
    requires t.state != Closed && source != t.peer
    ensures Handle(t, ConnectInd(source), now) == Step(t, [SendControl(source, Disconnect, 0)])
    ensures forall e :: e in {DataInd(source, number, priority, apdu), AckInd(source, number), NackInd(source, number)} ==>
              Handle(t, e, now) == Step(t, if t.state == Connecting then [SendControl(source, Disconnect, 0)] else [])
  {
  }

  // ── Opening ─────────────────────────────────────────────────────

  /** Layer `a` at address `x` and layer `b` at address `y` are connected, and idle, from `a` to `b` in step. */
  ghost predicate Connected(a: Layer, x: Address, b: Layer, y: Address) {
    && Runs.Inv(a) && Runs.Inv(b)
    && a.state == OpenIdle && a.peer == y && b.state == OpenIdle && b.peer == x
    && a.seqSend == b.seqRecv && b.seqSend == a.seqRecv
  }

  /** A call that is confirmed by the bus and heard by the other end connects both. */
  lemma CallConnects(a: Layer, x: Address, b: Layer, y: Address, now: nat)
    requires Runs.Inv(a) && Runs.Inv(b) && a.state == Closed && b.state == Closed
    ensures var calling := Handle(a, ConnectReq(y), now);
            var called := Handle(b, ConnectInd(x), now);
            var confirmed := Handle(calling.layer, ConnectCon(true), now);
            && calling.actions == [SendControl(y, Connect, 0)] && called.actions == [ConnectIndication(x)]
            && confirmed.actions == [ConnectConfirm(y)]
            && Connected(confirmed.layer, x, called.layer, y)
  {
  }

  /** A call that fails leaves the layer closed, and the application is told. */
  lemma CallFails(a: Layer, y: Address, now: nat)
    requires a.state == Closed
    ensures var calling := Handle(a, ConnectReq(y), now).layer;
            var failed := Handle(calling, ConnectCon(false), now);
            ClosedFrom(calling, failed.layer) && failed.actions == [DisconnectIndication(y)]
  {
  }

  // ── Data arrives ────────────────────────────────────────────────

  /** Both layers after one exchange without loss, what `b` indicated, and how many sends `a` confirmed. */
  datatype Exchange = Exchange(a: Layer, b: Layer, indicated: seq<Payload>, confirmed: nat)

  function IndicationsIn(actions: seq<Action>): seq<Payload> {
    if actions == [] then []
    else (if actions[0].DataConnectedIndication? then [Payload(actions[0].priority, actions[0].apdu)] else [])
         + IndicationsIn(actions[1..])
  }

  /** `a` is asked to send; what it sends is handed to `b`, and the acknowledgement of `b` to `a`. */
  function Exchanged(a: Layer, x: Address, b: Layer, y: Address, p: Payload, now: nat): Exchange {
    var sending := Handle(a, DataReq(p.priority, p.apdu), now);
    var hearing :=
      if |sending.actions| == 1 && sending.actions[0].SendDataConnected? && sending.actions[0].destination == y then
        Handle(b, DataInd(x, sending.actions[0].seqNo, sending.actions[0].priority, sending.actions[0].apdu), now)
      else Step(b, []);
    var answered :=
      if hearing.actions != [] && hearing.actions[0].SendControl? && hearing.actions[0].control == Ack
         && hearing.actions[0].destination == x then
        Handle(sending.layer, AckInd(y, hearing.actions[0].seqNo), now)
      else Step(sending.layer, []);
    Exchange(answered.layer, hearing.layer, IndicationsIn(hearing.actions),
             if answered.actions == [DataConnectedConfirm] then 1 else 0)
  }

  function ExchangedAll(a: Layer, x: Address, b: Layer, y: Address, data: seq<Payload>, now: nat): Exchange
    decreases |data|
  {
    if data == [] then Exchange(a, b, [], 0)
    else
      var one := Exchanged(a, x, b, y, data[0], now);
      var rest := ExchangedAll(one.a, x, one.b, y, data[1..], now);
      Exchange(rest.a, rest.b, one.indicated + rest.indicated, one.confirmed + rest.confirmed)
  }

  lemma OneArrives(a: Layer, x: Address, b: Layer, y: Address, p: Payload, now: nat)
    requires Connected(a, x, b, y)
    ensures var e := Exchanged(a, x, b, y, p, now);
            Connected(e.a, x, e.b, y) && e.indicated == [p] && e.confirmed == 1 && e.a.buffered == a.buffered
  {
    var sending := Handle(a, DataReq(p.priority, p.apdu), now);
    var hearing := Handle(b, DataInd(x, a.seqSend, p.priority, p.apdu), now);
    var answered := Handle(sending.layer, AckInd(y, a.seqSend), now);
    assert sending.actions == [SendDataConnected(y, a.seqSend, p.priority, p.apdu)];
    DataIsAnswered(b, a.seqSend, p.priority, p.apdu, now);
    OneIndicated(SendControl(x, Ack, a.seqSend), x, p);
    assert answered.actions == [DataConnectedConfirm];
    assert Exchanged(a, x, b, y, p, now) == Exchange(answered.layer, hearing.layer, IndicationsIn(hearing.actions), 1);
  }

  lemma OneIndicated(ack: Action, x: Address, p: Payload)
    requires !ack.DataConnectedIndication?
    ensures IndicationsIn([ack, DataConnectedIndication(x, p.priority, p.apdu)]) == [p]
  {
    var actions := [ack, DataConnectedIndication(x, p.priority, p.apdu)];
    assert actions[1..] == [actions[1]] && actions[1..][1..] == [];
    assert IndicationsIn(actions[1..]) == [p] + IndicationsIn([]);
  }

  /** Over a line without loss everything that is sent is indicated, in order, and everything is confirmed. */
  lemma {:induction false} EverythingArrives(a: Layer, x: Address, b: Layer, y: Address, data: seq<Payload>, now: nat)
    requires Connected(a, x, b, y)
    ensures var e := ExchangedAll(a, x, b, y, data, now);
            Connected(e.a, x, e.b, y) && e.indicated == data && e.confirmed == |data|
    decreases |data|
  {
    if data != [] {
      var one := Exchanged(a, x, b, y, data[0], now);
      OneArrives(a, x, b, y, data[0], now);
      EverythingArrives(one.a, x, one.b, y, data[1..], now);
      assert data == [data[0]] + data[1..];
    }
  }

  /** A request that had to wait goes out with the next number once the acknowledgement came; the newest one counts. */
  lemma WaitingRequestIsSent(t: Layer, older: Payload, p: Payload, now: nat)
    requires Runs.Inv(t) && t.state == OpenWait
    ensures var busy := Handle(Handle(t, DataReq(older.priority, older.apdu), now).layer, DataReq(p.priority, p.apdu), now);
            var free := Handle(busy.layer, AckInd(t.peer, t.seqSend), now);
            var sent := Handle(free.layer, Poll, now);
            && busy.actions == [] && free.actions == [DataConnectedConfirm]
            && sent.actions == [SendDataConnected(t.peer, (t.seqSend + 1) % 16, p.priority, p.apdu)]
            && sent.layer.state == OpenWait && sent.layer.buffered.None?
  {
  }

  /** Without a connection a request is dropped. */
  lemma ClosedDropsRequests(t: Layer, p: Payload, now: nat)
    requires t.state == Closed
    ensures Handle(t, DataReq(p.priority, p.apdu), now) == Step(t, [])
  {
  }
}
