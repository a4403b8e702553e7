/**
 Two transport layers, one connection, and a bus between them that may lose and repeat
 frames but keeps their order. Data flows in both directions at once, and either end may
 at any time be asked to send, be polled, give up, or hear from any third device.

 The main result, `ConnectedDataIsExactlyOnce`: in every reachable state the data an end
 indicated to its application is a prefix of the distinct frames the other end sent, and
 whatever an end confirmed to its application the other end has indicated, although
 sequence numbers have four bits only.
 */
module TransportPair {
  import opened Basics
  import opened StopAndWait
  import opened TransportLayer
  import Runs = TransportRuns
  import TransportLaws

  datatype Payload = Payload(priority: Priority, apdu: Octets)

  /** Control telegrams other than acknowledgements. */
  datatype ControlSignal = ControlSignal(control: Control, seqNo: nat)

  type Tpdu = Message<Payload, ControlSignal>

  /** A frame on the bus. */
  type Frame = Packet<Payload, ControlSignal>

  /**
   One device: its layer, the frames on their way to it, and its history in this connection:
   the distinct frames it sent, the data it indicated, how many of its sends it confirmed, and
   whether it has taken part in the connection yet.
   */
  datatype End = End(
    address: Address,
    layer: Layer,
    inbox: seq<Frame>,
    joined: bool,
    sent: seq<Payload>,
    indicated: seq<Payload>,
    confirmed: nat)

  datatype Pair = Pair(left: End, right: End)

  /** What may happen at an end: something local or from a third device, or to a frame under way to it. */
  datatype Happening =
    | Local(event: Event)
    | Receive(keepCopy: bool)
    | Lose(position: nat)

  datatype Turn = Turn(atLeft: bool, now: nat, what: Happening)

  // ── What the layer's actions mean for the connection ────────────

  function Packets(actions: seq<Action>, to: Address, dataIndex: nat, ackIndex: nat): (r: seq<Frame>)
    ensures forall p :: p in r && p.message.Numbered? ==>
      && p.index == dataIndex
      && SendDataConnected(to, p.message.seqNo, p.message.payload.priority, p.message.payload.apdu) in actions
    ensures forall p :: p in r && p.message.Acknowledged? ==>
      p.index == ackIndex && SendControl(to, Ack, p.message.seqNo) in actions
    ensures forall p :: p in r && p.message.Signal? ==>
      && p.message.signal.control != Ack
      && SendControl(to, p.message.signal.control, p.message.signal.seqNo) in actions
  {
    if actions == [] then []
    else
      var rest := Packets(actions[1..], to, dataIndex, ackIndex);
      match actions[0]
      case SendControl(destination, control, seqNo) =>
        var message := if control == Ack then Acknowledged(seqNo) else Signal(ControlSignal(control, seqNo));
        if destination == to then [Packet(message, ackIndex)] + rest else rest
      case SendDataConnected(destination, seqNo, priority, apdu) =>
        if destination == to then [Packet(Numbered(seqNo, Payload(priority, apdu)), dataIndex)] + rest else rest
      case _ => rest
  }

  function Indications(actions: seq<Action>): seq<Payload> {
    if actions == [] then []
    else if actions[0].DataConnectedIndication? then
      [Payload(actions[0].priority, actions[0].apdu)] + Indications(actions[1..])
    else Indications(actions[1..])
  }

  function Confirmations(actions: seq<Action>): nat {
    if actions == [] then 0
    else (if actions[0].DataConnectedConfirm? then 1 else 0) + Confirmations(actions[1..])
  }

  lemma {:induction false} NoneIndicated(actions: seq<Action>)
    requires forall a :: a in actions ==> !a.DataConnectedIndication?
    ensures Indications(actions) == []
  {
    if actions != [] {
      NoneIndicated(actions[1..]);
    }
  }

  lemma {:induction false} NoneConfirmed(actions: seq<Action>)
    requires forall a :: a in actions ==> !a.DataConnectedConfirm?
    ensures Confirmations(actions) == 0
  {
    if actions != [] {
      NoneConfirmed(actions[1..]);
    }
  }

  /** The new frame a step sent for the first time, if it did. */
  function NewlySent(before: Layer, after: Layer): seq<Payload> {
    if before.state != OpenWait && after.state == OpenWait && after.saved.Some? then
      [Payload(after.saved.value.priority, after.saved.value.apdu)]
    else []
  }

  function EventOf(tpdu: Tpdu, source: Address): Event {
    match tpdu
    case Numbered(seqNo, payload) => DataInd(source, seqNo, payload.priority, payload.apdu)
    case Acknowledged(seqNo) => AckInd(source, seqNo)
    case Signal(ControlSignal(Ack, seqNo)) => AckInd(source, seqNo)
    case Signal(ControlSignal(Nack, seqNo)) => NackInd(source, seqNo)
    case Signal(ControlSignal(Connect, _)) => ConnectInd(source)
    case Signal(ControlSignal(Disconnect, _)) => DisconnectInd(source)
  }

  // ── Steps ───────────────────────────────────────────────────────

  /** Whether the event makes a layer enter a connection. */
  predicate EntersConnection(t: Layer, e: Event) {
    t.state == Closed && (e.ConnectInd? || e.ConnectReq?)
  }

  /** An entry that belongs to the connection under study: the first one of this end, with the other end. */
  predicate JoinsThisConnection(x: End, y: End, e: Event) {
    !x.joined && (e == ConnectInd(y.address) || e == ConnectReq(y.address))
  }

  /** The event stays within one connection: it enters no other one. */
  predicate WithinConnection(x: End, y: End, e: Event) {
    EntersConnection(x.layer, e) ==> JoinsThisConnection(x, y, e)
  }

  /** A local event is a request, a poll, a confirmation of the bus, or a frame of a third device. */
  predicate Enabled(x: End, y: End, h: Happening) {
    match h
    case Local(e) =>
      && WithinConnection(x, y, e)
      && (Runs.Foreign(e, y.address)
          || e.ConnectCon? || e.DataReq? || e.ConnectReq? || e.DisconnectReq? || e.Poll?)
    case Receive(_) => x.inbox != [] && WithinConnection(x, y, EventOf(x.inbox[0].message, y.address))
    case Lose(k) => k < |x.inbox|
  }

  /** The frames a step puts on the bus. */
  function Outgoing(x: End, y: End, s: Step): seq<Frame> {
    var sent := x.sent + NewlySent(x.layer, s.layer);
    var indicated := x.indicated + Indications(s.actions);
    Packets(s.actions, y.address,
            if sent == [] then 0 else |sent| - 1,
            if indicated == [] then 0 else |indicated| - 1)
  }

  /** End `x` took the step `s`; its frames join those on the way to `y`. */
  function Acted(x: End, y: End, s: Step, entering: bool): (End, End) {
    (x.(layer := s.layer,
        joined := x.joined || entering,
        sent := x.sent + NewlySent(x.layer, s.layer),
        indicated := x.indicated + Indications(s.actions),
        confirmed := x.confirmed + Confirmations(s.actions)),
     y.(inbox := y.inbox + Outgoing(x, y, s)))
  }

  /** End `x` handles `e`. */
  function Act(x: End, y: End, e: Event, now: nat): (End, End) {
    Acted(x, y, Handle(x.layer, e, now), EntersConnection(x.layer, e))
  }

  function Happen(x: End, y: End, h: Happening, now: nat): (End, End)
    requires Enabled(x, y, h)
  {
    match h
    case Local(e) => Act(x, y, e, now)
    case Receive(keepCopy) =>
      Act(x.(inbox := if keepCopy then x.inbox else x.inbox[1..]), y, EventOf(x.inbox[0].message, y.address), now)
    case Lose(k) => (x.(inbox := Without(x.inbox, k)), y)
  }

  ghost predicate Start(p: Pair) {
    && p.left.address != p.right.address
    && forall x :: x in {p.left, p.right} ==>
         && Runs.Inv(x.layer) && x.layer.state == Closed
         && x.inbox == [] && !x.joined && x.sent == [] && x.indicated == [] && x.confirmed == 0
  }

  ghost predicate Next(p: Pair, turn: Turn, q: Pair) {
    if turn.atLeft then
      && Enabled(p.left, p.right, turn.what)
      && (q.left, q.right) == Happen(p.left, p.right, turn.what, turn.now)
    else
      && Enabled(p.right, p.left, turn.what)
      && (q.right, q.left) == Happen(p.right, p.left, turn.what, turn.now)
  }

  /** A run of one connection. */
  ghost predicate IsRun(states: seq<Pair>, turns: seq<Turn>) {
    && |states| == |turns| + 1
    && Start(states[0])
    && forall i :: 0 <= i < |turns| ==> Next(states[i], turns[i], states[i + 1])
  }

  /** No control telegram under way asks for a repetition. */
  ghost predicate NoNack(inbox: seq<Frame>) {
    forall i :: 0 <= i < |inbox| && inbox[i].message.Signal? ==> inbox[i].message.signal.control !in {Ack, Nack}
  }

  lemma NoNackAppended(inbox: seq<Frame>, added: seq<Frame>)
    requires NoNack(inbox)
    requires forall p :: p in added && p.message.Signal? ==> p.message.signal.control !in {Ack, Nack}
    ensures NoNack(inbox + added)
  {
    var all := inbox + added;
    forall i | 0 <= i < |all| && all[i].message.Signal?
      ensures all[i].message.signal.control !in {Ack, Nack}
    {
      assert all[i] == if i < |inbox| then inbox[i] else added[i - |inbox|];
    }
  }

  // ── The invariant ───────────────────────────────────────────────

  /** An end's own state: its layer's counters agree with its history. */
  ghost predicate EndOk(x: End, y: End) {
    && Runs.Inv(x.layer)
    && x.address != y.address
    && (x.layer.state != Closed ==> x.joined && x.layer.peer == y.address)
    && (!x.joined ==> x.sent == [] && x.indicated == [])
    && x.confirmed <= |x.sent| <= x.confirmed + 1
    && (x.layer.state != Closed ==>
          && x.layer.seqSend == x.confirmed % SEQ_MODULUS
          && x.layer.seqRecv == |x.indicated| % SEQ_MODULUS
          && |x.sent| == x.confirmed + (if x.layer.state == OpenWait then 1 else 0))
    && (x.layer.state == OpenWait ==>
          x.sent[|x.sent| - 1] == Payload(x.layer.saved.value.priority, x.layer.saved.value.apdu))
    && (x.layer.state == Connecting ==> x.sent == [] && x.indicated == [])
  }

  /** One direction: `x` sends data to `y`, and `y` acknowledges. */
  ghost predicate LinkOk(x: End, y: End) {
    && y.indicated <= x.sent
    && x.confirmed <= |y.indicated|
    && DataInOrder(y.inbox, x.sent, |y.indicated|, SEQ_MODULUS)
    && AcksInOrder(x.inbox, |y.indicated|, x.confirmed, SEQ_MODULUS)
    && NoNack(x.inbox)
  }

  ghost predicate PairOk(x: End, y: End) {
    EndOk(x, y) && EndOk(y, x) && LinkOk(x, y) && LinkOk(y, x)
  }

  // ── One layer step, seen from the connection ────────────────────

  /** A layer that is not handed data acknowledges nothing and indicates nothing. */
  lemma WithoutData(t: Layer, e: Event, now: nat)
    requires Runs.Inv(t) && (e.DataInd? ==> e.source != t.peer || t.state == Closed)
    ensures var s := Handle(t, e, now);
            && Indications(s.actions) == []
            && (forall a :: a in s.actions && a.SendControl? ==> a.control != Ack && a.control != Nack)
            && (!EntersConnection(t, e) ==> s.layer.seqRecv == t.seqRecv)
  {
    NoneIndicated(Handle(t, e, now).actions);
  }

  /** A layer sends data only while it waits, and then only the frame it saved. */
  lemma SendsSavedFrame(t: Layer, e: Event, now: nat)
    requires Runs.Inv(t)
    ensures var s := Handle(t, e, now);
            forall a :: a in s.actions && a.SendDataConnected? ==>
              s.layer.state == OpenWait && s.layer.saved.Some? && a == Runs.FrameOf(s.layer)
  {
    match e
    case NackInd(_, _) =>
    case DataReq(_, _) =>
    case Poll =>
    case _ =>
  }

  /** How a step changes what the layer has outstanding, unless an acknowledgement completes it. */
  lemma OutstandingFrame(t: Layer, e: Event, now: nat)
    requires Runs.Inv(t) && !EntersConnection(t, e)
    requires !(e.AckInd? && e.source == t.peer && t.state == OpenWait && e.seqNo == t.seqSend)
    ensures var s := Handle(t, e, now);
            && Confirmations(s.actions) == 0
            && (s.layer.state != Closed ==> s.layer.seqSend == t.seqSend && s.layer.peer == t.peer && t.state != Closed)
            && (t.state == OpenWait && s.layer.state == OpenWait ==> s.layer.saved == t.saved)
            && (t.state == OpenWait ==> s.layer.state in {OpenWait, Closed})
            && (s.layer.state == Connecting ==> t.state == Connecting)
            && (s.layer.state == OpenIdle ==> t.state in {OpenIdle, Connecting})
  {
    NoneConfirmed(Handle(t, e, now).actions);
    match e
    case DataInd(_, _, _, _) =>
    case NackInd(_, _) =>
    case Poll =>
    case _ =>
  }

  // ── Every step keeps the invariant ──────────────────────────────

  lemma LoseKeepsPairOk(x: End, y: End, k: nat)
    requires PairOk(x, y) && k < |x.inbox|
    ensures PairOk(x.(inbox := Without(x.inbox, k)), y)
  {
    FewerInOrder(x.inbox, k, y.sent, |x.indicated|, |y.indicated|, x.confirmed, SEQ_MODULUS);
  }

  /** What a step of end `x` may put on the bus: the frame it saved, and acknowledgements of the last indicated one. */
  ghost predicate SendsOnlyNewest(x: End, s: Step) {
    && (forall a :: a in s.actions && a.SendDataConnected? ==>
          s.layer.state == OpenWait && s.layer.saved.Some? && a == Runs.FrameOf(s.layer))
    && (forall a :: a in s.actions && a.SendControl? ==>
          && a.control != Nack
          && (a.control == Ack ==>
                var n := |x.indicated + Indications(s.actions)|; 0 < n && a.seqNo == (n - 1) % SEQ_MODULUS))
  }

  lemma OutgoingDataIsNewest(x: End, y: End, s: Step, entering: bool)
    requires EndOk(Acted(x, y, s, entering).0, y) && SendsOnlyNewest(x, s)
    ensures var sent := Acted(x, y, s, entering).0.sent;
            forall p :: p in Outgoing(x, y, s) && p.message.Numbered? ==>
              && sent != [] && p.index == |sent| - 1
              && p.message == Numbered(p.index % SEQ_MODULUS, sent[p.index])
  {
  }

  lemma OutgoingAcksAreNewest(x: End, y: End, s: Step)
    requires SendsOnlyNewest(x, s)
    ensures var n := |x.indicated + Indications(s.actions)|;
            forall p :: p in Outgoing(x, y, s) ==>
              && (p.message.Signal? ==> p.message.signal.control !in {Ack, Nack})
              && (p.message.Acknowledged? ==> 0 < n && p.index == n - 1 && p.message.seqNo == p.index % SEQ_MODULUS)
  {
  }

  /** The frames a step puts on the bus keep what is under way to the other end in order. */
  lemma OutgoingInOrder(x: End, y: End, s: Step, entering: bool)
    requires DataInOrder(y.inbox, x.sent, |y.indicated|, SEQ_MODULUS) && y.indicated <= x.sent
    requires AcksInOrder(y.inbox, |x.indicated|, y.confirmed, SEQ_MODULUS) && y.confirmed <= |x.indicated|
    requires NoNack(y.inbox)
    requires EndOk(Acted(x, y, s, entering).0, y)
    requires SendsOnlyNewest(x, s)
    ensures var (x', y') := Acted(x, y, s, entering);
            && DataInOrder(y'.inbox, x'.sent, |y.indicated|, SEQ_MODULUS)
            && AcksInOrder(y'.inbox, |x'.indicated|, y.confirmed, SEQ_MODULUS)
            && NoNack(y'.inbox)
  {
    var (x', y') := Acted(x, y, s, entering);
    var added := Outgoing(x, y, s);
    assert y'.inbox == y.inbox + added;
    OutgoingDataIsNewest(x, y, s, entering);
    OutgoingAcksAreNewest(x, y, s);
    DataStaysInOrder(y.inbox, added, x.sent, x'.sent, |y.indicated|, SEQ_MODULUS);
    AcksStayInOrder(y.inbox, added, |x.indicated|, |x'.indicated|, y.confirmed, SEQ_MODULUS);
    NoNackAppended(y.inbox, added);
  }

  /** The invariant after a step, from what the step did to the acting end. */
  lemma PairOkAfter(x: End, y: End, s: Step, entering: bool)
    requires EndOk(x, y) && EndOk(y, x) && LinkOk(y, x)
    requires DataInOrder(y.inbox, x.sent, |y.indicated|, SEQ_MODULUS) && y.indicated <= x.sent && NoNack(x.inbox)
    requires var x' := Acted(x, y, s, entering).0;
             && EndOk(x', y)
             && x'.indicated <= y.sent && DataInOrder(x.inbox, y.sent, |x'.indicated|, SEQ_MODULUS)
             && x'.confirmed <= |y.indicated| && AcksInOrder(x.inbox, |y.indicated|, x'.confirmed, SEQ_MODULUS)
    requires SendsOnlyNewest(x, s)
    ensures PairOk(Acted(x, y, s, entering).0, Acted(x, y, s, entering).1)
  {
    var (x', y') := Acted(x, y, s, entering);
    OutgoingInOrder(x, y, s, entering);
    assert x'.inbox == x.inbox;
    assert EndOk(y', x');
    assert LinkOk(x', y');
    assert LinkOk(y', x');
  }

  // What a step makes of the acting end alone.

  /** An event that carries neither data nor an awaited acknowledgement, and enters no connection. */
  predicate Quiet(t: Layer, e: Event) {
    && !EntersConnection(t, e)
    && (e.DataInd? ==> e.source != t.peer || t.state == Closed)
    && !(e.AckInd? && e.source == t.peer && t.state == OpenWait && e.seqNo == t.seqSend)
  }

  lemma QuietAtEnd(x: End, y: End, e: Event, now: nat)
    requires EndOk(x, y) && Quiet(x.layer, e)
    ensures var s := Handle(x.layer, e, now);
            var x' := Acted(x, y, s, false).0;
            && EndOk(x', y) && SendsOnlyNewest(x, s)
            && x'.indicated == x.indicated && x'.confirmed == x.confirmed
  {
    WithoutData(x.layer, e, now);
    OutstandingFrame(x.layer, e, now);
    SendsSavedFrame(x.layer, e, now);
    Runs.StepKeepsInv(x.layer, e, now);
  }

  lemma JoiningAtEnd(x: End, y: End, e: Event, now: nat)
    requires EndOk(x, y) && EntersConnection(x.layer, e) && JoinsThisConnection(x, y, e)
    ensures var s := Handle(x.layer, e, now);
            var x' := Acted(x, y, s, true).0;
            && EndOk(x', y) && SendsOnlyNewest(x, s)
            && x'.indicated == x.indicated && x'.confirmed == x.confirmed
  {
    Runs.StepKeepsInv(x.layer, e, now);
    NoneIndicated(Handle(x.layer, e, now).actions);
    NoneConfirmed(Handle(x.layer, e, now).actions);
  }

  /** What a layer that received `n` frames does with frame number `k`, which is the next or the last one. */
  lemma NextOrRepeatedData(t: Layer, k: nat, n: nat, data: Payload, now: nat)
    requires Runs.Inv(t) && t.state != Closed && t.seqRecv == n % SEQ_MODULUS
    requires k <= n <= k + 1 && (t.state == Connecting ==> n == 0)
    ensures var s := Handle(t, DataInd(t.peer, k % SEQ_MODULUS, data.priority, data.apdu), now);
            var alive := t.(connectionDeadline := Some(now + CONNECTION_TIMEOUT_MS));
            if t.state == Connecting then
              s == ActivelyClosed(t)
            else if k == n then
              s == Step(alive.(seqRecv := (n + 1) % SEQ_MODULUS),
                        [SendControl(t.peer, Ack, n % SEQ_MODULUS),
                         DataConnectedIndication(t.peer, data.priority, data.apdu)])
            else
              s == Step(alive, [SendControl(t.peer, Ack, k % SEQ_MODULUS)])
  {
    NeighboursDiffer(k, n, SEQ_MODULUS);
    assert k + 1 == n ==> k % SEQ_MODULUS == PrevSeq(n % SEQ_MODULUS);
  }

  lemma IndicatedOnce(a: Action, b: Action)
    requires !a.DataConnectedIndication? && b.DataConnectedIndication?
    ensures Indications([a, b]) == [Payload(b.priority, b.apdu)]
  {
    assert [a, b][1..] == [b] && [b][1..] == [];
    assert Indications([b]) == [Payload(b.priority, b.apdu)];
  }

  /** The receiving end gets the next data frame, or a copy of the last one. */
  lemma DataAtEnd(x: End, y: End, p: Frame, now: nat)
    requires EndOk(x, y) && x.layer.state != Closed
    requires p.message.Numbered? && p.message.seqNo == p.index % SEQ_MODULUS
    requires p.index <= |x.indicated| <= p.index + 1
    ensures var s := Handle(x.layer, EventOf(p.message, y.address), now);
            var x' := Acted(x, y, s, false).0;
            && EndOk(x', y) && SendsOnlyNewest(x, s)
            && x'.confirmed == x.confirmed
            && (x'.indicated == x.indicated
                || (p.index == |x.indicated| && x'.indicated == x.indicated + [p.message.payload]))
  {
    var e := EventOf(p.message, y.address);
    var s := Handle(x.layer, e, now);
    NextOrRepeatedData(x.layer, p.index, |x.indicated|, p.message.payload, now);
    NoneConfirmed(s.actions);
    if x.layer.state != Connecting && p.index == |x.indicated| {
      IndicatedOnce(s.actions[0], s.actions[1]);
      assert s.actions == [s.actions[0], s.actions[1]];
    } else {
      NoneIndicated(s.actions);
    }
  }

  /** The sending end gets the acknowledgement it waits for. */
  lemma AckAtEnd(x: End, y: End, now: nat)
    requires EndOk(x, y) && x.layer.state == OpenWait
    ensures var s := Handle(x.layer, AckInd(y.address, x.layer.seqSend), now);
            var x' := Acted(x, y, s, false).0;
            && EndOk(x', y) && SendsOnlyNewest(x, s)
            && x'.indicated == x.indicated && x'.confirmed == x.confirmed + 1
  {
    var s := Handle(x.layer, AckInd(y.address, x.layer.seqSend), now);
    Runs.StepKeepsInv(x.layer, AckInd(y.address, x.layer.seqSend), now);
    assert s.actions == [DataConnectedConfirm] && s.actions[1..] == [];
    NoneIndicated(s.actions);
  }

  // What a step makes of both ends.

  lemma QuietKeepsPairOk(x: End, y: End, e: Event, now: nat)
    requires PairOk(x, y) && Quiet(x.layer, e)
    ensures PairOk(Act(x, y, e, now).0, Act(x, y, e, now).1)
  {
    QuietAtEnd(x, y, e, now);
    PairOkAfter(x, y, Handle(x.layer, e, now), false);
  }

  lemma JoiningKeepsPairOk(x: End, y: End, e: Event, now: nat)
    requires PairOk(x, y) && EntersConnection(x.layer, e) && JoinsThisConnection(x, y, e)
    ensures PairOk(Act(x, y, e, now).0, Act(x, y, e, now).1)
  {
    JoiningAtEnd(x, y, e, now);
    PairOkAfter(x, y, Handle(x.layer, e, now), true);
  }

  lemma DataKeepsPairOk(x: End, y: End, p: Frame, now: nat)
    requires PairOk(x, y) && x.layer.state != Closed
    requires p.message.Numbered? && p.index < |y.sent|
    requires p.message == Numbered(p.index % SEQ_MODULUS, y.sent[p.index])
    requires p.index <= |x.indicated| <= p.index + 1
    requires DataInOrder(x.inbox, y.sent, p.index + 1, SEQ_MODULUS)
    ensures var r := Act(x, y, EventOf(p.message, y.address), now); PairOk(r.0, r.1)
  {
    DataAtEnd(x, y, p, now);
    PairOkAfter(x, y, Handle(x.layer, EventOf(p.message, y.address), now), false);
  }

  lemma AckKeepsPairOk(x: End, y: End, now: nat)
    requires PairOk(x, y) && x.layer.state == OpenWait
    requires x.confirmed < |y.indicated| && AcksInOrder(x.inbox, |y.indicated|, x.confirmed + 1, SEQ_MODULUS)
    ensures var r := Act(x, y, AckInd(y.address, x.layer.seqSend), now); PairOk(r.0, r.1)
  {
    AckAtEnd(x, y, now);
    PairOkAfter(x, y, Handle(x.layer, AckInd(y.address, x.layer.seqSend), now), false);
  }

  /** The first frame under way to `x` is data: the next frame, or a copy of the last one. */
  lemma FirstIsData(x: End, y: End, rest: seq<Frame>)
    requires PairOk(x, y) && Rest(x.inbox, rest) && x.inbox[0].message.Numbered?
    ensures var p := x.inbox[0];
            && p.index < |y.sent| && p.message == Numbered(p.index % SEQ_MODULUS, y.sent[p.index])
            && p.index <= |x.indicated| <= p.index + 1
            && DataInOrder(rest, y.sent, p.index + 1, SEQ_MODULUS)
  {
    DataFloorRises(x.inbox, rest, y.sent, |x.indicated|, SEQ_MODULUS);
  }

  /** The first frame under way to `x` is the awaited acknowledgement: the frame was indicated. */
  lemma FirstIsAck(x: End, y: End, rest: seq<Frame>)
    requires PairOk(x, y) && Rest(x.inbox, rest) && x.inbox[0].message.Acknowledged?
    requires x.layer.state == OpenWait && x.inbox[0].message.seqNo == x.layer.seqSend
    ensures x.confirmed < |y.indicated| && AcksInOrder(rest, |y.indicated|, x.confirmed + 1, SEQ_MODULUS)
  {
    var p := x.inbox[0];
    assert p.index + 1 >= x.confirmed && p.index < |y.indicated| <= |x.sent| == x.confirmed + 1;
    NeighboursDiffer(p.index, x.confirmed, SEQ_MODULUS);
    AckFloorRises(x.inbox, rest, |y.indicated|, x.confirmed, SEQ_MODULUS);
  }

  lemma HappenKeepsPairOk(x: End, y: End, h: Happening, now: nat)
    requires PairOk(x, y) && Enabled(x, y, h)
    ensures PairOk(Happen(x, y, h, now).0, Happen(x, y, h, now).1)
  {
    match h
    case Lose(k) => LoseKeepsPairOk(x, y, k);
    case Local(e) =>
      if EntersConnection(x.layer, e) {
        JoiningKeepsPairOk(x, y, e, now);
      } else {
        QuietKeepsPairOk(x, y, e, now);
      }
    case Receive(keepCopy) => ReceiveKeepsPairOk(x, y, keepCopy, now);
  }

  lemma ReceiveKeepsPairOk(x: End, y: End, keepCopy: bool, now: nat)
    requires PairOk(x, y) && Enabled(x, y, Receive(keepCopy))
    ensures PairOk(Happen(x, y, Receive(keepCopy), now).0, Happen(x, y, Receive(keepCopy), now).1)
  {
    var p := x.inbox[0];
    var z := x.(inbox := if keepCopy then x.inbox else x.inbox[1..]);
    assert PairOk(z, y) by {
      LoseKeepsPairOk(x, y, 0);
      assert Without(x.inbox, 0) == x.inbox[1..];
    }
    if p.message.Numbered? && x.layer.state != Closed {
      FirstIsData(x, y, z.inbox);
      DataKeepsPairOk(z, y, p, now);
    } else if p.message.Acknowledged? && x.layer.state == OpenWait && p.message.seqNo == x.layer.seqSend {
      FirstIsAck(x, y, z.inbox);
      AckKeepsPairOk(z, y, now);
    } else {
      OtherKeepsPairOk(z, y, p, now);
    }
  }

  lemma OtherKeepsPairOk(x: End, y: End, p: Frame, now: nat)
    requires PairOk(x, y) && WithinConnection(x, y, EventOf(p.message, y.address))
    requires p.message.Numbered? ==> x.layer.state == Closed
    requires p.message.Signal? ==> p.message.signal.control !in {Ack, Nack}
    requires !(p.message.Acknowledged? && x.layer.state == OpenWait && p.message.seqNo == x.layer.seqSend)
    ensures var r := Act(x, y, EventOf(p.message, y.address), now); PairOk(r.0, r.1)
  {
    var e := EventOf(p.message, y.address);
    if EntersConnection(x.layer, e) {
      JoiningKeepsPairOk(x, y, e, now);
    } else {
      QuietKeepsPairOk(x, y, e, now);
    }
  }

  lemma NextKeepsPairOk(p: Pair, turn: Turn, q: Pair)
    requires PairOk(p.left, p.right) && Next(p, turn, q)
    ensures PairOk(q.left, q.right)
  {
    if turn.atLeft {
      HappenKeepsPairOk(p.left, p.right, turn.what, turn.now);
    } else {
      HappenKeepsPairOk(p.right, p.left, turn.what, turn.now);
    }
  }

  lemma {:induction false} RunKeepsPairOk(states: seq<Pair>, turns: seq<Turn>, k: nat)
    requires IsRun(states, turns) && k < |states|
    ensures PairOk(states[k].left, states[k].right)
  {
    if k == 0 {
      assert states[0].left in {states[0].left, states[0].right};
      assert states[0].right in {states[0].left, states[0].right};
    } else {
      RunKeepsPairOk(states, turns, k - 1);
      NextKeepsPairOk(states[k - 1], turns[k - 1], states[k]);
    }
  }

  // ── Safety of the connection ────────────────────────────────────

  /**
   In every state of every run of a connection, in both directions: what was indicated is a
   prefix of what was sent, each frame once and in order; what was confirmed was indicated;
   the receiver is at most one frame ahead of the confirmations.
   */
  lemma ConnectedDataIsExactlyOnce(states: seq<Pair>, turns: seq<Turn>, k: nat)
    requires IsRun(states, turns) && k < |states|
    ensures var p := states[k];
            && p.right.indicated <= p.left.sent && p.left.indicated <= p.right.sent
            && p.left.confirmed <= |p.right.indicated| <= p.left.confirmed + 1
            && p.right.confirmed <= |p.left.indicated| <= p.right.confirmed + 1
  {
    RunKeepsPairOk(states, turns, k);
  }

  /** Within a connection no layer ever finds a wrong sequence number: no refusal is ever under way. */
  lemma NothingIsRefused(states: seq<Pair>, turns: seq<Turn>, k: nat)
    requires IsRun(states, turns) && k < |states|
    ensures NoNack(states[k].left.inbox) && NoNack(states[k].right.inbox)
  {
    RunKeepsPairOk(states, turns, k);
  }

  // ── Either end can end the connection ───────────────────────────

  /** An end that takes a disconnect of the other one is closed, and indicates that. */
  lemma DisconnectIsTaken(x: End, y: End, keepCopy: bool, now: nat)
    requires PairOk(x, y) && x.inbox != [] && x.inbox[0].message.Signal?
    requires x.inbox[0].message.signal.control == Disconnect
    ensures Enabled(x, y, Receive(keepCopy))
    ensures var (x', y') := Happen(x, y, Receive(keepCopy), now);
            && x'.layer.state == Closed && x'.layer.connectionDeadline.None? && x'.layer.ackDeadline.None?
            && x'.sent == x.sent && x'.indicated == x.indicated && y' == y
  {
    var s := Handle(x.layer, DisconnectInd(y.address), now);
    if x.layer.state != Closed {
      TransportLaws.DisconnectCloses(x.layer, now);
    } else {
      TransportLaws.OtherDisconnectIsIgnored(x.layer, y.address, now);
    }
    NothingGoesOut(s.actions, y.address);
  }

  lemma NothingGoesOut(actions: seq<Action>, to: Address)
    requires actions == [] || (|actions| == 1 && actions[0].DisconnectIndication?)
    ensures forall d, a :: Packets(actions, to, d, a) == []
    ensures Indications(actions) == [] && Confirmations(actions) == 0
  {
    if actions != [] {
      assert actions[1..] == [];
    }
  }

  /** An end that is asked to disconnect closes, and a disconnect is on its way to the other end. */
  lemma DisconnectIsSent(x: End, y: End, now: nat)
    requires PairOk(x, y) && x.layer.state != Closed
    ensures Enabled(x, y, Local(DisconnectReq))
    ensures var (x', y') := Happen(x, y, Local(DisconnectReq), now);
            && x'.layer.state == Closed
            && y'.inbox == y.inbox + [y'.inbox[|y.inbox|]]
            && y'.inbox[|y.inbox|].message == Signal(ControlSignal(Disconnect, 0))
  {
    var s := Handle(x.layer, DisconnectReq, now);
    TransportLaws.RequestCloses(x.layer, now);
    OneDisconnect(s.actions, y.address);
  }

  lemma OneDisconnect(actions: seq<Action>, to: Address)
    requires actions == [SendControl(to, Disconnect, 0), DisconnectIndication(to)]
    ensures forall d, a :: Packets(actions, to, d, a) == [Packet(Signal(ControlSignal(Disconnect, 0)), a)]
  {
    assert actions[1..] == [DisconnectIndication(to)] && actions[1..][1..] == [];
    forall d, a ensures Packets(actions, to, d, a) == [Packet(Signal(ControlSignal(Disconnect, 0)), a)] {
      assert Packets(actions[1..], to, d, a) == Packets([], to, d, a);
      assert Packets([], to, d, a) == [];
    }
  }

  // ── Why the result is about one connection ──────────────────────

  /**
   Where the result stops. End `b` left a connection that `a` still holds open, because the
   disconnect was lost, connects again and sends data. The connect changes nothing at `a`, so
   the new numbering of `b` meets the old one of `a`: the data is indicated exactly if `a` had
   indicated a multiple of sixteen frames, and `b` gets a confirmation for data that was never
   indicated exactly if `a` had indicated one frame more than that.
   */
  lemma ReconnectingToAnOpenEnd(a: Layer, b: Layer, addressOfA: Address, data: Payload, now: nat)
    requires Runs.Inv(a) && a.state == OpenIdle
    requires Runs.Inv(b) && b.state == Closed
    ensures var connecting := Handle(b, ConnectReq(addressOfA), now).layer;
            var held := Handle(a, ConnectInd(a.peer), now);
            var ready := Handle(connecting, ConnectCon(true), now).layer;
            var sending := Handle(ready, DataReq(data.priority, data.apdu), now);
            var heard := Handle(held.layer, DataInd(a.peer, 0, data.priority, data.apdu), now);
            var answered := Handle(sending.layer, AckInd(addressOfA, 0), now);
            && held == Step(a, [])
            && sending.actions == [SendDataConnected(addressOfA, 0, data.priority, data.apdu)]
            && (DataConnectedIndication(a.peer, data.priority, data.apdu) in heard.actions <==> a.seqRecv == 0)
            && (SendControl(a.peer, Ack, 0) in heard.actions <==> a.seqRecv in {0, 1})
            && answered.actions == [DataConnectedConfirm]
  {
    var connecting := Handle(b, ConnectReq(addressOfA), now).layer;
    var ready := Handle(connecting, ConnectCon(true), now).layer;
    assert ready.state == OpenIdle && ready.seqSend == 0 && ready.peer == addressOfA;
    assert PrevSeq(a.seqRecv) == 0 <==> a.seqRecv == 1;
  }

  /**
   The same from the other side. A repeated connect of `b` that was on its way since before reopens
   end `a`, which had closed, while `b` goes on with the old numbers: its next data is indicated
   exactly if it has number 0, and acknowledged without being indicated exactly if it has number 15.
   */
  lemma StaleConnectReopens(a: Layer, b: Layer, addressOfB: Address, data: Payload, now: nat)
    requires Runs.Inv(a) && a.state == Closed
    requires Runs.Inv(b) && b.state == OpenIdle
    ensures var reopened := Handle(a, ConnectInd(addressOfB), now).layer;
            var sending := Handle(b, DataReq(data.priority, data.apdu), now);
            var heard := Handle(reopened, DataInd(addressOfB, b.seqSend, data.priority, data.apdu), now);
            var answered := Handle(sending.layer, AckInd(b.peer, b.seqSend), now);
            && reopened.state == OpenIdle && reopened.peer == addressOfB
            && sending.actions == [SendDataConnected(b.peer, b.seqSend, data.priority, data.apdu)]
            && (DataConnectedIndication(addressOfB, data.priority, data.apdu) in heard.actions <==> b.seqSend == 0)
            && (SendControl(addressOfB, Ack, b.seqSend) in heard.actions <==> b.seqSend in {0, 15})
            && answered.actions == [DataConnectedConfirm]
  {
    var reopened := Handle(a, ConnectInd(addressOfB), now).layer;
    assert reopened.seqRecv == 0 && PrevSeq(0) == 15;
  }
}
