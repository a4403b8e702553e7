/**
 One tunnel server and one tunnel client, joined by channels that may lose and repeat datagrams
 but keep their order. Frames go both ways at once, numbered with eight bits.

 From server to client the result holds in every reachable state: what the client accepted is a
 prefix of what the server put in flight. From client to server it holds until a send fails: the
 client then uses the number of the failed frame again for the next one.
 */
module TunnelPair {
  import opened Basics
  import opened StopAndWait
  import opened TunnelServer
  import opened TunnelServerRuns
  import opened TunnelAccounts
  import Cemi
  import Ts = TunnelState

  const MODULUS: nat := 256

  /** Datagrams that carry neither a frame nor a good acknowledgement. */
  datatype Notice = UnknownChannel(sequence: nat) | Goodbye

  type P = Packet<Octets, Notice>

  /** One direction: the distinct frames sent, how many the sender knows to be received, and those received. */
  datatype Direction = Direction(sent: seq<Octets>, confirmed: nat, received: seq<Octets>)

  /** `failed` once a send of the client ended without its acknowledgement. */
  datatype Pair = Pair(
    id: nat,
    server: Option<Tunnel>,
    client: Ts.Client,
    down: Direction,
    up: Direction,
    failed: bool,
    toClient: seq<P>,
    toServer: seq<P>)

  datatype Step =
    | AtServer(event: ClientEvent, now: nat)
    | ServerReceives(keepCopy: bool, now: nat)
    | ClientStarts(cemi: Octets)
    | ClientExpires
    | ClientReceives(keepCopy: bool)
    | ClientHears(datagram: Option<Datagram>)
    | LoseToClient(position: nat)
    | LoseToServer(position: nat)

  function ToDatagram(id: nat, m: Message<Octets, Notice>): Datagram {
    match m
    case Numbered(sequence, cemi) => TunnelingRequest(id, sequence, cemi)
    case Acknowledged(sequence) => TunnelingAck(id, sequence, E_NO_ERROR)
    case Signal(UnknownChannel(sequence)) => TunnelingAck(id, sequence, E_CONNECTION_ID)
    case Signal(Goodbye) => DisconnectResponse(id, E_NO_ERROR)
  }

  function FromDatagram(d: Datagram, dataIndex: nat, ackIndex: nat): P {
    match d
    case TunnelingRequest(_, sequence, cemi) => Packet(Numbered(sequence, cemi), dataIndex)
    case TunnelingAck(_, sequence, _) => Packet(Acknowledged(sequence), ackIndex)
    case _ => Packet(Signal(Goodbye), 0)
  }

  function Packets(sent: seq<Datagram>, dataIndex: nat, ackIndex: nat): seq<P> {
    seq(|sent|, i requires 0 <= i < |sent| => FromDatagram(sent[i], dataIndex, ackIndex))
  }

  function Datagrams(sent: seq<Sent>): seq<Datagram> {
    seq(|sent|, i requires 0 <= i < |sent| => sent[i].datagram)
  }

  function Newest(frames: seq<Octets>): nat {
    if frames == [] then 0 else |frames| - 1
  }

  // ── Steps ───────────────────────────────────────────────────────

  /** The frame a step of the client began to send. */
  function Begun(c: Ts.Client, h: Ts.ClientStep): seq<Octets> {
    if c.waiting.None? && h.client.waiting.Some? then [h.client.waiting.value.cemi] else []
  }

  /** The step completed a send: its acknowledgement came. */
  predicate Completes(c: Ts.Client, h: Ts.ClientStep) {
    c.waiting.Some? && h.verdict.Some? && h.verdict.value in {Ts.Acked, Ts.PeerLeft}
  }

  predicate Fails(h: Ts.ClientStep) {
    h.verdict.Some? && (h.verdict.value.GaveUp? || h.verdict.value.Refused?)
  }

  function Sends(d: Direction, more: seq<Octets>): Direction {
    d.(sent := d.sent + more)
  }

  function Confirms(d: Direction, one: bool): Direction {
    if one then d.(confirmed := d.confirmed + 1) else d
  }

  function Receives(d: Direction, more: seq<Octets>): Direction {
    d.(received := d.received + more)
  }

  /** The client took step `h`; its acknowledgements are for data number `ackIndex`. */
  function ClientActed(p: Pair, h: Ts.ClientStep, ackIndex: nat): Pair {
    var up := Sends(Confirms(p.up, Completes(p.client, h)), Begun(p.client, h));
    p.(client := h.client,
       up := up,
       down := Receives(p.down, h.accepted),
       failed := p.failed || Fails(h),
       toServer := p.toServer + Packets(h.sent, Newest(up.sent), ackIndex))
  }

  predicate Acknowledges(t: Tunnel, e: ClientEvent) {
    e.AckNumber? && t.inFlight.Some? && t.inFlight.value.sequence == e.sequence
  }

  /** The server handled `e` for this client with outcome `o`, after it replied `reply`. */
  function ServerActed(p: Pair, t: Tunnel, e: ClientEvent, o: Outcome, reply: seq<P>): Pair {
    var down := Sends(Confirms(p.down, Acknowledges(t, e)), FirstTransmissions(o));
    p.(server := o.tunnel,
       down := down,
       up := if e.Take? then Receives(p.up, [e.body]) else p.up,
       toClient := p.toClient + reply + Packets(Datagrams(o.sent), Newest(down.sent), 0))
  }

  function ServerGets(p: Pair, x: P, now: nat): Pair {
    match p.server
    case None =>
      if x.message.Numbered? then
        p.(toClient := p.toClient + [Packet(Signal(UnknownChannel(x.message.seqNo)), 0)])
      else p
    case Some(t) =>
      match x.message
      case Numbered(sequence, cemi) =>
        var e := if sequence == t.recvSeq then Take(cemi) else Nothing;
        ServerActed(p, t, e, Alone(t, e, now), [Packet(Acknowledged(sequence), x.index)])
      case Acknowledged(sequence) => ServerActed(p, t, AckNumber(sequence), Alone(t, AckNumber(sequence), now), [])
      case Signal(_) => p
  }

  /** Whether a step is possible: events that come over the channel do so only there. */
  predicate Enabled(p: Pair, step: Step) {
    match step
    case AtServer(e, _) =>
      p.server.Some? && !e.Take? && !e.AckNumber? && (e.Queue? ==> Serializable(e.cemi))
    case ServerReceives(_, _) => p.toServer != []
    case ClientStarts(_) => p.client.waiting.None?
    case ClientExpires => p.client.waiting.Some?
    case ClientReceives(_) => p.toClient != []
    case ClientHears(d) =>
      d.Some? ==> !((d.value.TunnelingRequest? || d.value.TunnelingAck?) && d.value.channelId == p.id)
    case LoseToClient(k) => k < |p.toClient|
    case LoseToServer(k) => k < |p.toServer|
  }

  function Do(p: Pair, step: Step): Pair
    requires Enabled(p, step)
  {
    match step
    case AtServer(e, now) => ServerActed(p, p.server.value, e, Alone(p.server.value, e, now), [])
    case ServerReceives(keepCopy, now) =>
      ServerGets(p.(toServer := if keepCopy then p.toServer else p.toServer[1..]), p.toServer[0], now)
    case ClientStarts(cemi) => ClientActed(p, Ts.Handle(p.client, Ts.Start(cemi)), 0)
    case ClientExpires => ClientActed(p, Ts.Handle(p.client, Ts.Expire), 0)
    case ClientReceives(keepCopy) =>
      ClientActed(p.(toClient := if keepCopy then p.toClient else p.toClient[1..]),
                  Ts.Handle(p.client, Ts.Arrive(Some(ToDatagram(p.id, p.toClient[0].message)))), p.toClient[0].index)
    case ClientHears(d) => ClientActed(p, Ts.Handle(p.client, Ts.Arrive(d)), 0)
    case LoseToClient(k) => p.(toClient := Without(p.toClient, k))
    case LoseToServer(k) => p.(toServer := Without(p.toServer, k))
  }

  /** A tunnel that was just connected. */
  ghost predicate Start(p: Pair) {
    && 0 < p.id < 256
    && (exists ctrlAddr, dataAddr, now :: p.server == Some(NewTunnel(p.id, ctrlAddr, dataAddr, now)))
    && p.client == Ts.Client(p.id, 0, 0, None)
    && p.down == Direction([], 0, []) && p.up == Direction([], 0, []) && !p.failed
    && p.toClient == [] && p.toServer == []
  }

  ghost predicate IsRun(states: seq<Pair>, steps: seq<Step>) {
    && |states| == |steps| + 1
    && Start(states[0])
    && forall i :: 0 <= i < |steps| ==> Enabled(states[i], steps[i]) && states[i + 1] == Do(states[i], steps[i])
  }

  // ── The invariant ───────────────────────────────────────────────

  ghost predicate ServerEndOk(server: Option<Tunnel>, id: nat, down: Direction, up: Direction) {
    match server
    case None => true
    case Some(t) =>
      && TunnelOk(t) && t.channelId == id
      && t.sendSeq == down.confirmed % MODULUS
      && t.recvSeq == |up.received| % MODULUS
      && |down.sent| == down.confirmed + (if t.inFlight.Some? then 1 else 0)
      && (t.inFlight.Some? ==> t.inFlight.value.datagram.cemi == down.sent[|down.sent| - 1])
  }

  ghost predicate ClientEndOk(c: Ts.Client, id: nat, down: Direction, up: Direction, failed: bool) {
    && c.channelId == id
    && c.recvSeq == |down.received| % MODULUS
    && (c.waiting.Some? ==> forall d :: d in c.waiting.value.buffered ==> !d.TunnelingRequest?)
    && (!failed ==>
          && c.sendSeq == up.confirmed % MODULUS
          && |up.sent| == up.confirmed + (if c.waiting.Some? then 1 else 0)
          && (c.waiting.Some? ==> c.waiting.value.cemi == up.sent[|up.sent| - 1]))
  }

  /** Data of the direction travels on `data`, its acknowledgements come back on `acks`. */
  ghost predicate LinkOk(d: Direction, data: seq<P>, acks: seq<P>) {
    && d.received <= d.sent
    && d.confirmed <= |d.received|
    && |d.sent| <= d.confirmed + 1
    && DataInOrder(data, d.sent, |d.received|, MODULUS)
    && AcksInOrder(acks, |d.received|, d.confirmed, MODULUS)
  }

  ghost predicate PairOk(p: Pair) {
    && ServerEndOk(p.server, p.id, p.down, p.up)
    && ClientEndOk(p.client, p.id, p.down, p.up, p.failed)
    && LinkOk(p.down, p.toClient, p.toServer)
    && (!p.failed ==> LinkOk(p.up, p.toServer, p.toClient))
  }

  lemma StartIsOk(p: Pair)
    requires Start(p)
    ensures PairOk(p)
  {
  }

  // ── What may happen to a link ───────────────────────────────────

  /** All frames an end adds to a channel are copies of its newest one. */
  ghost predicate DataIsNewest(added: seq<P>, sent: seq<Octets>) {
    forall x :: x in added && x.message.Numbered? ==>
      && sent != [] && x.index == |sent| - 1
      && x.message == Numbered(x.index % MODULUS, sent[x.index])
  }

  /** All acknowledgements an end adds to a channel are for the newest frame it received. */
  ghost predicate AcksAreNewest(added: seq<P>, received: seq<Octets>) {
    forall x :: x in added && x.message.Acknowledged? ==>
      received != [] && x.index == |received| - 1 && x.message.seqNo == x.index % MODULUS
  }

  lemma DataAdded(d: Direction, more: seq<Octets>, data: seq<P>, acks: seq<P>, added: seq<P>)
    requires LinkOk(d, data, acks) && |d.sent + more| <= d.confirmed + 1
    requires DataIsNewest(added, d.sent + more)
    ensures LinkOk(Sends(d, more), data + added, acks)
  {
    DataStaysInOrder(data, added, d.sent, d.sent + more, |d.received|, MODULUS);
  }

  lemma AcksAdded(d: Direction, data: seq<P>, acks: seq<P>, added: seq<P>)
    requires LinkOk(d, data, acks) && AcksAreNewest(added, d.received)
    ensures LinkOk(d, data, acks + added)
  {
    AcksStayInOrder(acks, added, |d.received|, |d.received|, d.confirmed, MODULUS);
  }

  lemma FewerUnderWay(d: Direction, data: seq<P>, acks: seq<P>, k: nat)
    requires LinkOk(d, data, acks)
    ensures k < |data| ==> LinkOk(d, Without(data, k), acks)
    ensures k < |acks| ==> LinkOk(d, data, Without(acks, k))
  {
    if k < |data| {
      FewerInOrder(data, k, d.sent, |d.received|, 0, 0, MODULUS);
    }
    if k < |acks| {
      FewerInOrder(acks, k, [], 0, |d.received|, d.confirmed, MODULUS);
    }
  }

  lemma RestIsOk(d: Direction, data: seq<P>, acks: seq<P>, rest: seq<P>)
    requires LinkOk(d, data, acks)
    ensures Rest(data, rest) ==> LinkOk(d, rest, acks)
    ensures Rest(acks, rest) ==> LinkOk(d, data, rest)
  {
    FewerUnderWay(d, data, acks, 0);
    assert data != [] ==> Without(data, 0) == data[1..];
    assert acks != [] ==> Without(acks, 0) == acks[1..];
  }

  /** The first data under way: the next frame, or a copy of the last one received. */
  lemma DataTaken(d: Direction, data: seq<P>, acks: seq<P>, rest: seq<P>)
    requires LinkOk(d, data, acks) && Rest(data, rest) && data[0].message.Numbered?
    ensures var x := data[0];
            var n := |d.received|;
            && x.index < |d.sent| && x.message == Numbered(x.index % MODULUS, d.sent[x.index])
            && x.index <= n <= x.index + 1
            && (x.message.seqNo == n % MODULUS <==> x.index == n)
            && (x.index == n ==> LinkOk(Receives(d, [x.message.payload]), rest, acks))
            && LinkOk(d, rest, acks)
  {
    var x := data[0];
    RestIsOk(d, data, acks, rest);
    DataFloorRises(data, rest, d.sent, |d.received|, MODULUS);
    NeighboursDiffer(x.index, |d.received|, MODULUS);
    if x.index == |d.received| {
      assert d.received + [x.message.payload] <= d.sent;
    }
  }

  /** The awaited acknowledgement of frame number `d.confirmed` is first: that frame was received. */
  lemma AckTaken(d: Direction, data: seq<P>, acks: seq<P>, rest: seq<P>)
    requires LinkOk(d, data, acks) && Rest(acks, rest) && acks[0].message.Acknowledged?
    requires |d.sent| == d.confirmed + 1 && acks[0].message.seqNo == d.confirmed % MODULUS
    ensures LinkOk(Confirms(d, true), data, rest)
  {
    var x := acks[0];
    assert x.index + 1 >= d.confirmed && x.index < |d.received| <= |d.sent|;
    NeighboursDiffer(x.index, d.confirmed, MODULUS);
    AckFloorRises(acks, rest, |d.received|, d.confirmed, MODULUS);
  }

  // ── The client's steps ──────────────────────────────────────────

  /** What is left to show once a step of the client is known to keep the client's end in order. */
  lemma ClientActedOk(p: Pair, h: Ts.ClientStep, ackIndex: nat, q: Pair, added: seq<P>)
    requires q == ClientActed(p, h, ackIndex) && added == Packets(h.sent, Newest(q.up.sent), ackIndex)
    requires ServerEndOk(p.server, p.id, p.down, p.up)
    requires ClientEndOk(q.client, q.id, q.down, q.up, q.failed)
    requires LinkOk(q.down, p.toClient, p.toServer) && AcksAreNewest(added, q.down.received)
    requires !q.failed ==>
               && LinkOk(Confirms(p.up, Completes(p.client, h)), p.toServer, p.toClient)
               && |q.up.sent| <= q.up.confirmed + 1
               && DataIsNewest(added, q.up.sent)
    ensures PairOk(q)
  {
    AcksAdded(q.down, p.toClient, p.toServer, added);
    if !q.failed {
      DataAdded(Confirms(p.up, Completes(p.client, h)), Begun(p.client, h), p.toServer, p.toClient, added);
    }
  }

  /** A step that neither takes a request of this tunnel nor completes a send. */
  predicate Quiet(c: Ts.Client, s: Ts.Step) {
    s.Arrive? && s.datagram.Some? ==>
      && !(s.datagram.value.TunnelingRequest? && s.datagram.value.channelId == c.channelId)
      && !(c.waiting.Some? && Ts.AwaitedAck(c.channelId, c.sendSeq, s.datagram.value)
           && s.datagram.value.status == E_NO_ERROR)
  }

  /** What a quiet step does to the client: it sends at most the frame it waits with, and acknowledges nothing. */
  lemma QuietStep(c: Ts.Client, s: Ts.Step)
    requires Quiet(c, s) && (s.Start? ==> c.waiting.None?)
    requires c.waiting.Some? ==> forall d :: d in c.waiting.value.buffered ==> !d.TunnelingRequest?
    ensures var h := Ts.Handle(c, s);
            && h.accepted == [] && !Completes(c, h)
            && h.client.(waiting := c.waiting) == c
            && (forall d :: d in h.sent ==>
                  || d.DisconnectResponse?
                  || (h.client.waiting.Some? && d == TunnelingRequest(c.channelId, c.sendSeq, h.client.waiting.value.cemi)))
            && (c.waiting.Some? && !Fails(h) ==>
                  h.client.waiting.Some? && h.client.waiting.value.cemi == c.waiting.value.cemi)
            && (h.client.waiting.Some? ==> forall d :: d in h.client.waiting.value.buffered ==> !d.TunnelingRequest?)
  {
  }

  /** A quiet step leaves the client's end in order, and its packets are copies of the frame it waits with. */
  lemma QuietEnd(p: Pair, h: Ts.ClientStep, ackIndex: nat, q: Pair)
    requires ClientEndOk(p.client, p.id, p.down, p.up, p.failed)
    requires q == ClientActed(p, h, ackIndex)
    requires h.accepted == [] && !Completes(p.client, h) && h.client.(waiting := p.client.waiting) == p.client
    requires forall d :: d in h.sent ==>
               || d.DisconnectResponse?
               || (h.client.waiting.Some?
                   && d == TunnelingRequest(p.id, p.client.sendSeq, h.client.waiting.value.cemi))
    requires p.client.waiting.Some? && !Fails(h) ==>
               h.client.waiting.Some? && h.client.waiting.value.cemi == p.client.waiting.value.cemi
    requires h.client.waiting.Some? ==> forall d :: d in h.client.waiting.value.buffered ==> !d.TunnelingRequest?
    ensures ClientEndOk(q.client, q.id, q.down, q.up, q.failed) && q.down == p.down
    ensures var added := Packets(h.sent, Newest(q.up.sent), ackIndex);
            && (!q.failed ==> DataIsNewest(added, q.up.sent))
            && AcksAreNewest(added, p.down.received)
  {
    EmptyIsUnit(p.down.received);
    EmptyIsUnit(p.up.sent);
    forall x | x in Packets(h.sent, Newest(q.up.sent), ackIndex)
      ensures !x.message.Acknowledged?
      ensures !q.failed && x.message.Numbered? ==>
        && q.up.sent != [] && x.index == |q.up.sent| - 1
        && x.message == Numbered(x.index % MODULUS, q.up.sent[x.index])
    {
      var i :| 0 <= i < |h.sent| && x == FromDatagram(h.sent[i], Newest(q.up.sent), ackIndex);
      assert h.sent[i] in h.sent;
    }
  }

  lemma QuietIsOk(p: Pair, s: Ts.Step, ackIndex: nat)
    requires PairOk(p) && Quiet(p.client, s) && (s.Start? ==> p.client.waiting.None?)
    ensures PairOk(ClientActed(p, Ts.Handle(p.client, s), ackIndex))
  {
    var h := Ts.Handle(p.client, s);
    var q := ClientActed(p, h, ackIndex);
    QuietStep(p.client, s);
    QuietEnd(p, h, ackIndex, q);
    ClientActedOk(p, h, ackIndex, q, Packets(h.sent, Newest(q.up.sent), ackIndex));
  }

  /** A send that is acknowledged: nothing but answers to disconnects goes out. */
  lemma CompletingStep(c: Ts.Client, d: Datagram)
    requires c.waiting.Some? && Ts.AwaitedAck(c.channelId, c.sendSeq, d) && d.status == E_NO_ERROR
    requires forall x :: x in c.waiting.value.buffered ==> !x.TunnelingRequest?
    ensures var h := Ts.Handle(c, Ts.Arrive(Some(d)));
            && h.accepted == [] && Completes(c, h)
            && h.client == c.(sendSeq := (c.sendSeq + 1) % 256, waiting := None)
            && (forall x :: x in h.sent ==> x.DisconnectResponse?)
  {
    var acked := Ts.ClientStep(c.(sendSeq := (c.sendSeq + 1) % 256, waiting := None), [], [], None);
    Ts.ReprocessingSends(acked, c.waiting.value.buffered);
  }

  /** The acknowledgement a send of the client waits for comes first; `p` is without it. */
  lemma CompletingIsOk(p: Pair, before: Pair, x: P)
    requires PairOk(before) && before.toClient != [] && x == before.toClient[0]
    requires Rest(before.toClient, p.toClient) && before == p.(toClient := before.toClient)
    requires x.message.Acknowledged? && p.client.waiting.Some? && x.message.seqNo == p.client.sendSeq
    ensures PairOk(ClientActed(p, Ts.Handle(p.client, Ts.Arrive(Some(ToDatagram(p.id, x.message)))), x.index))
  {
    var h := Ts.Handle(p.client, Ts.Arrive(Some(ToDatagram(p.id, x.message))));
    var q := ClientActed(p, h, x.index);
    CompletingStep(p.client, ToDatagram(p.id, x.message));
    EmptyIsUnit(p.down.received);
    EmptyIsUnit(p.up.sent);
    RestIsOk(p.down, before.toClient, p.toServer, p.toClient);
    if !p.failed {
      AckTaken(p.up, p.toServer, before.toClient, p.toClient);
    }
    forall y | y in Packets(h.sent, Newest(q.up.sent), x.index) ensures y.message.Signal? {
      var i :| 0 <= i < |h.sent| && y == FromDatagram(h.sent[i], Newest(q.up.sent), x.index);
      assert h.sent[i] in h.sent;
    }
    CompletedCount(p.up.confirmed);
    ClientActedOk(p, h, x.index, q, Packets(h.sent, Newest(q.up.sent), x.index));
  }

  lemma CompletedCount(k: nat)
    ensures (k % MODULUS + 1) % 256 == (k + 1) % MODULUS
  {
    NeighboursDiffer(k, k, MODULUS);
  }

  /** The client's end takes the next frame, or a copy of the last one. */
  lemma RequestEnd(p: Pair, x: P, h: Ts.ClientStep, q: Pair)
    requires ClientEndOk(p.client, p.id, p.down, p.up, p.failed) && x.message.Numbered?
    requires h == Ts.Requested(p.client, p.id, x.message.seqNo, x.message.payload) && q == ClientActed(p, h, x.index)
    requires x.message.seqNo == x.index % MODULUS && x.index <= |p.down.received| <= x.index + 1
    requires x.message.seqNo == |p.down.received| % MODULUS <==> x.index == |p.down.received|
    ensures ClientEndOk(q.client, q.id, q.down, q.up, q.failed) && q.up == p.up && !Completes(p.client, h)
    ensures q.down == if x.index == |p.down.received| then Receives(p.down, [x.message.payload]) else p.down
    ensures var added := Packets(h.sent, Newest(q.up.sent), x.index);
            && added == [Packet(Acknowledged(x.message.seqNo), x.index)]
            && AcksAreNewest(added, q.down.received)
  {
    CompletedCount(|p.down.received|);
    EmptyIsUnit(p.down.received);
    EmptyIsUnit(p.up.sent);
    assert h.sent == [TunnelingAck(p.id, x.message.seqNo, E_NO_ERROR)];
  }

  /** A request of this tunnel comes first; `p` is without it. */
  lemma RequestIsOk(p: Pair, before: Pair, x: P)
    requires PairOk(before) && before.toClient != [] && x == before.toClient[0]
    requires Rest(before.toClient, p.toClient) && before == p.(toClient := before.toClient)
    requires x.message.Numbered?
    ensures PairOk(ClientActed(p, Ts.Handle(p.client, Ts.Arrive(Some(ToDatagram(p.id, x.message)))), x.index))
  {
    var h := Ts.Requested(p.client, p.id, x.message.seqNo, x.message.payload);
    assert h == Ts.Handle(p.client, Ts.Arrive(Some(ToDatagram(p.id, x.message))));
    var q := ClientActed(p, h, x.index);
    DataTaken(p.down, before.toClient, p.toServer, p.toClient);
    RequestEnd(p, x, h, q);
    if !p.failed {
      RestIsOk(p.up, p.toServer, before.toClient, p.toClient);
    }
    ClientActedOk(p, h, x.index, q, Packets(h.sent, Newest(q.up.sent), x.index));
  }

  lemma ClientReceiveIsOk(p: Pair, keepCopy: bool)
    requires PairOk(p) && Enabled(p, ClientReceives(keepCopy))
    ensures PairOk(Do(p, ClientReceives(keepCopy)))
  {
    var x := p.toClient[0];
    var rest := p.(toClient := if keepCopy then p.toClient else p.toClient[1..]);
    if x.message.Numbered? {
      RequestIsOk(rest, p, x);
    } else if x.message.Acknowledged? && p.client.waiting.Some? && x.message.seqNo == p.client.sendSeq {
      CompletingIsOk(rest, p, x);
    } else {
      RestIsOk(p.down, p.toClient, p.toServer, rest.toClient);
      if !p.failed {
        RestIsOk(p.up, p.toServer, p.toClient, rest.toClient);
      }
      QuietIsOk(rest, Ts.Arrive(Some(ToDatagram(p.id, x.message))), x.index);
    }
  }

  // ── The server's steps ──────────────────────────────────────────

  /** What is left to show once a step of the server is known to keep the server's end in order. */
  lemma ServerActedOk(p: Pair, t: Tunnel, e: ClientEvent, o: Outcome, reply: seq<P>, q: Pair, added: seq<P>)
    requires q == ServerActed(p, t, e, o, reply)
    requires added == reply + Packets(Datagrams(o.sent), Newest(q.down.sent), 0)
    requires ClientEndOk(p.client, p.id, p.down, p.up, p.failed)
    requires ServerEndOk(q.server, q.id, q.down, q.up)
    requires && LinkOk(Confirms(p.down, Acknowledges(t, e)), p.toClient, p.toServer)
             && |q.down.sent| <= q.down.confirmed + 1
             && DataIsNewest(added, q.down.sent)
    requires !p.failed ==> LinkOk(q.up, p.toServer, p.toClient) && AcksAreNewest(added, q.up.received)
    ensures PairOk(q)
  {
    Associative(p.toClient, reply, Packets(Datagrams(o.sent), Newest(q.down.sent), 0));
    DataAdded(Confirms(p.down, Acknowledges(t, e)), FirstTransmissions(o), p.toClient, p.toServer, added);
    if !p.failed {
      AcksAdded(q.up, p.toServer, p.toClient, added);
    }
  }

  /** What an event makes of the server's tunnel, as far as sequence numbers are concerned. */
  ghost predicate TunnelMoves(t: Tunnel, e: ClientEvent, o: Outcome) {
    match o.tunnel
    case None => o.sent == [] && !Acknowledges(t, e) && FirstTransmissions(o) == [] && !e.Take?
    case Some(u) =>
      && TunnelOk(u) && u.channelId == t.channelId
      && u.sendSeq == (if Acknowledges(t, e) then (t.sendSeq + 1) % 256 else t.sendSeq)
      && u.recvSeq == (if e.Take? then (t.recvSeq + 1) % 256 else t.recvSeq)
      && (forall x :: x in o.sent ==> u.inFlight.Some? && x.datagram == u.inFlight.value.datagram)
      && (if t.inFlight.Some? && !Acknowledges(t, e) then
            && FirstTransmissions(o) == []
            && u.inFlight.Some? && u.inFlight.value.datagram == t.inFlight.value.datagram
          else
            FirstTransmissions(o) == if u.inFlight.Some? then [u.inFlight.value.datagram.cemi] else [])
  }

  lemma AckMoves(t: Tunnel, sequence: nat, now: nat)
    requires TunnelOk(t)
    ensures TunnelMoves(t, AckNumber(sequence), Alone(t, AckNumber(sequence), now))
  {
    if t.inFlight.Some? && t.inFlight.value.sequence == sequence {
      PumpRestores(t.(inFlight := None, sendSeq := (sequence + 1) % 256), now);
    }
  }

  lemma QueueMoves(t: Tunnel, u: Tunnel, cemi: Octets, e: ClientEvent, now: nat, o: Outcome)
    requires TunnelOk(t) && TunnelOk(u) && Serializable(cemi)
    requires u == t.(recvSeq := if e.Take? then (t.recvSeq + 1) % 256 else t.recvSeq) && !e.AckNumber?
    requires var r := Queued(u, cemi, now); o == Outcome(Some(r.tunnel), r.sent)
    ensures TunnelMoves(t, e, o)
  {
    PumpRestores(Enqueued(u, cemi), now);
  }

  lemma TakeMoves(t: Tunnel, body: Octets, now: nat)
    requires TunnelOk(t)
    ensures TunnelMoves(t, Take(body), Alone(t, Take(body), now))
  {
    var u := t.(recvSeq := (t.recvSeq + 1) % 256);
    var parsed := Cemi.Parse(body);
    if parsed.Ok? && ConfirmationOf(parsed.value).Some? {
      ConfirmationIsAFrame(parsed.value);
      QueueMoves(t, u, ConfirmationOf(parsed.value).value, Take(body), now, Alone(t, Take(body), now));
    }
  }

  lemma EventMoves(t: Tunnel, e: ClientEvent, now: nat)
    requires TunnelOk(t) && (e.Queue? ==> Serializable(e.cemi))
    ensures TunnelMoves(t, e, Alone(t, e, now))
  {
    match e
    case Queue(cemi) => QueueMoves(t, t, cemi, e, now, Alone(t, e, now));
    case Take(body) => TakeMoves(t, body, now);
    case AckNumber(sequence) => AckMoves(t, sequence, now);
    case Timeout => RetryKeepsOk(t, now);
    case _ =>
  }

  /** A step of the server keeps its end in order. */
  lemma ServerEndMoves(p: Pair, t: Tunnel, e: ClientEvent, o: Outcome, reply: seq<P>, q: Pair)
    requires p.server == Some(t) && ServerEndOk(p.server, p.id, p.down, p.up)
    requires q == ServerActed(p, t, e, o, reply) && TunnelMoves(t, e, o)
    ensures ServerEndOk(q.server, q.id, q.down, q.up) && |q.down.sent| <= q.down.confirmed + 1
  {
    EmptyIsUnit(p.down.sent);
    if o.tunnel.Some? {
      TunnelFollows(t, o.tunnel.value, p.id, p.down, q.down, p.up, q.up, Acknowledges(t, e), e.Take?);
    }
  }

  /** A tunnel and its counts go on together. */
  lemma TunnelFollows(t: Tunnel, u: Tunnel, id: nat, down: Direction, down': Direction, up: Direction, up': Direction,
                      acknowledged: bool, taken: bool)
    requires ServerEndOk(Some(t), id, down, up) && TunnelOk(u) && u.channelId == id
    requires u.sendSeq == (if acknowledged then (t.sendSeq + 1) % 256 else t.sendSeq)
    requires u.recvSeq == (if taken then (t.recvSeq + 1) % 256 else t.recvSeq)
    requires down'.confirmed == down.confirmed + (if acknowledged then 1 else 0)
    requires |up'.received| == |up.received| + (if taken then 1 else 0)
    requires |down'.sent| == down'.confirmed + (if u.inFlight.Some? then 1 else 0)
    requires u.inFlight.Some? ==> u.inFlight.value.datagram.cemi == down'.sent[|down'.sent| - 1]
    ensures ServerEndOk(Some(u), id, down', up')
  {
    CompletedCount(down.confirmed);
    CompletedCount(|up.received|);
  }

  /** What a server whose end is in order sends are copies of its newest frame, and the given replies. */
  lemma ServerPackets(server: Option<Tunnel>, id: nat, down: Direction, up: Direction, sent: seq<Sent>, reply: seq<P>)
    requires ServerEndOk(server, id, down, up)
    requires forall x :: x in sent ==>
               server.Some? && server.value.inFlight.Some? && x.datagram == server.value.inFlight.value.datagram
    requires forall x :: x in reply ==> x.message.Acknowledged?
    ensures var added := reply + Packets(Datagrams(sent), Newest(down.sent), 0);
            && DataIsNewest(added, down.sent)
            && forall x :: x in added && x.message.Acknowledged? ==> x in reply
  {
    var datagrams := Datagrams(sent);
    forall x | x in Packets(datagrams, Newest(down.sent), 0)
      ensures x.message.Numbered?
      ensures down.sent != [] && x.index == |down.sent| - 1
      ensures x.message == Numbered(x.index % MODULUS, down.sent[x.index])
    {
      var i :| 0 <= i < |datagrams| && x == FromDatagram(datagrams[i], Newest(down.sent), 0);
      assert sent[i] in sent;
    }
  }

  lemma ServerEnd(p: Pair, t: Tunnel, e: ClientEvent, o: Outcome, reply: seq<P>, q: Pair)
    requires p.server == Some(t) && ServerEndOk(p.server, p.id, p.down, p.up)
    requires q == ServerActed(p, t, e, o, reply) && TunnelMoves(t, e, o)
    requires forall x :: x in reply ==> x.message.Acknowledged?
    ensures ServerEndOk(q.server, q.id, q.down, q.up) && |q.down.sent| <= q.down.confirmed + 1
    ensures var added := reply + Packets(Datagrams(o.sent), Newest(q.down.sent), 0);
            && DataIsNewest(added, q.down.sent)
            && forall x :: x in added && x.message.Acknowledged? ==> x in reply
  {
    ServerEndMoves(p, t, e, o, reply, q);
    ServerPackets(q.server, q.id, q.down, q.up, o.sent, reply);
  }

  /** A step of the server that takes nothing from the client. */
  lemma LocalIsOk(p: Pair, e: ClientEvent, now: nat)
    requires PairOk(p) && Enabled(p, AtServer(e, now))
    ensures PairOk(Do(p, AtServer(e, now)))
  {
    var t := p.server.value;
    var o := Alone(t, e, now);
    var q := ServerActed(p, t, e, o, []);
    EventMoves(t, e, now);
    ServerEnd(p, t, e, o, [], q);
    ServerActedOk(p, t, e, o, [], q, [] + Packets(Datagrams(o.sent), Newest(q.down.sent), 0));
  }

  /** The client's acknowledgement comes first; `p` is without it. */
  lemma AckIsOk(p: Pair, before: Pair, x: P, t: Tunnel, now: nat)
    requires PairOk(before) && before.toServer != [] && x == before.toServer[0]
    requires Rest(before.toServer, p.toServer) && before == p.(toServer := before.toServer)
    requires x.message.Acknowledged? && p.server == Some(t)
    ensures var e := AckNumber(x.message.seqNo); PairOk(ServerActed(p, t, e, Alone(t, e, now), []))
  {
    var e := AckNumber(x.message.seqNo);
    var o := Alone(t, e, now);
    var q := ServerActed(p, t, e, o, []);
    AckMoves(t, x.message.seqNo, now);
    ServerEnd(p, t, e, o, [], q);
    if Acknowledges(t, e) {
      AckTaken(p.down, p.toClient, before.toServer, p.toServer);
    } else {
      RestIsOk(p.down, p.toClient, before.toServer, p.toServer);
    }
    if !p.failed {
      RestIsOk(p.up, before.toServer, p.toClient, p.toServer);
    }
    ServerActedOk(p, t, e, o, [], q, [] + Packets(Datagrams(o.sent), Newest(q.down.sent), 0));
  }

  /** The client's frame comes first; `p` is without it. */
  lemma FrameIsOk(p: Pair, before: Pair, x: P, t: Tunnel, e: ClientEvent, now: nat)
    requires PairOk(before) && before.toServer != [] && x == before.toServer[0]
    requires Rest(before.toServer, p.toServer) && before == p.(toServer := before.toServer)
    requires x.message.Numbered? && p.server == Some(t)
    requires e == if x.message.seqNo == t.recvSeq then Take(x.message.payload) else Nothing
    ensures PairOk(ServerActed(p, t, e, Alone(t, e, now), [Packet(Acknowledged(x.message.seqNo), x.index)]))
  {
    var o := Alone(t, e, now);
    var reply := [Packet(Acknowledged(x.message.seqNo), x.index)];
    var q := ServerActed(p, t, e, o, reply);
    EventMoves(t, e, now);
    ServerEnd(p, t, e, o, reply, q);
    RestIsOk(p.down, p.toClient, before.toServer, p.toServer);
    if !p.failed {
      DataTaken(p.up, before.toServer, p.toClient, p.toServer);
    }
    ServerActedOk(p, t, e, o, reply, q, reply + Packets(Datagrams(o.sent), Newest(q.down.sent), 0));
  }

  lemma ServerReceiveIsOk(p: Pair, keepCopy: bool, now: nat)
    requires PairOk(p) && Enabled(p, ServerReceives(keepCopy, now))
    ensures PairOk(Do(p, ServerReceives(keepCopy, now)))
  {
    var x := p.toServer[0];
    var rest := p.(toServer := if keepCopy then p.toServer else p.toServer[1..]);
    if p.server.Some? && x.message.Numbered? {
      var t := p.server.value;
      FrameIsOk(rest, p, x, t, if x.message.seqNo == t.recvSeq then Take(x.message.payload) else Nothing, now);
    } else if p.server.Some? && x.message.Acknowledged? {
      AckIsOk(rest, p, x, p.server.value, now);
    } else {
      NoticeIsOk(rest, p, x, now);
    }
  }

  /** A notice, or anything that reaches a server that dropped the tunnel. */
  lemma NoticeIsOk(p: Pair, before: Pair, x: P, now: nat)
    requires PairOk(before) && before.toServer != [] && x == before.toServer[0]
    requires Rest(before.toServer, p.toServer) && before == p.(toServer := before.toServer)
    requires x.message.Signal? || p.server.None?
    ensures PairOk(ServerGets(p, x, now))
  {
    RestIsOk(p.down, p.toClient, before.toServer, p.toServer);
    if !p.failed {
      RestIsOk(p.up, before.toServer, p.toClient, p.toServer);
    }
    if x.message.Numbered? {
      var added: seq<P> := [Packet(Signal(UnknownChannel(x.message.seqNo)), 0)];
      EmptyIsUnit(p.down.sent);
      DataAdded(p.down, [], p.toClient, p.toServer, added);
      if !p.failed {
        AcksAdded(p.up, p.toServer, p.toClient, added);
      }
    }
  }

  // ── Every run ───────────────────────────────────────────────────

  lemma StepIsOk(p: Pair, step: Step)
    requires PairOk(p) && Enabled(p, step)
    ensures PairOk(Do(p, step))
  {
    match step
    case AtServer(e, now) => LocalIsOk(p, e, now);
    case ServerReceives(keepCopy, now) => ServerReceiveIsOk(p, keepCopy, now);
    case ClientStarts(cemi) => QuietIsOk(p, Ts.Start(cemi), 0);
    case ClientExpires => QuietIsOk(p, Ts.Expire, 0);
    case ClientReceives(keepCopy) => ClientReceiveIsOk(p, keepCopy);
    case ClientHears(d) => QuietIsOk(p, Ts.Arrive(d), 0);
    case LoseToClient(k) => LossIsOk(p, k, true);
    case LoseToServer(k) => LossIsOk(p, k, false);
  }

  lemma LossIsOk(p: Pair, k: nat, toClient: bool)
    requires PairOk(p) && k < if toClient then |p.toClient| else |p.toServer|
    ensures PairOk(if toClient then p.(toClient := Without(p.toClient, k)) else p.(toServer := Without(p.toServer, k)))
  {
    FewerUnderWay(p.down, p.toClient, p.toServer, k);
    if !p.failed {
      FewerUnderWay(p.up, p.toServer, p.toClient, k);
    }
  }

  lemma {:induction false} RunIsOk(states: seq<Pair>, steps: seq<Step>, k: nat)
    requires IsRun(states, steps) && k < |states|
    ensures PairOk(states[k])
  {
    if k == 0 {
      StartIsOk(states[0]);
    } else {
      RunIsOk(states, steps, k - 1);
      StepIsOk(states[k - 1], steps[k - 1]);
    }
  }

  /**
   In every state of every run, despite eight-bit numbers: what the client accepted is a prefix of
   what the server put in flight, each frame once and in order, at most one frame ahead of what the
   server knows to be acknowledged, which the client has accepted.
   */
  lemma ServerToClientIsExactlyOnce(states: seq<Pair>, steps: seq<Step>, k: nat)
    requires IsRun(states, steps) && k < |states|
    ensures var d := states[k].down;
            d.received <= d.sent && d.confirmed <= |d.received| <= d.confirmed + 1
  {
    RunIsOk(states, steps, k);
  }

  /** The same from client to server, as long as no send of the client has failed. */
  lemma ClientToServerIsExactlyOnce(states: seq<Pair>, steps: seq<Step>, k: nat)
    requires IsRun(states, steps) && k < |states| && !states[k].failed
    ensures var d := states[k].up;
            d.received <= d.sent && d.confirmed <= |d.received| <= d.confirmed + 1
  {
    RunIsOk(states, steps, k);
  }

  /**
   The pair's server is the real one: whatever other clients it has, a request of this client is
   answered with a good acknowledgement and taken as the pair says, and the frame in it, if it has the
   expected number and is one, goes to the application; a client that the server does not know gets
   an error.
   */
  lemma ServerAnswersAsInPair(s: Server, t: Tunnel, sequence: nat, body: Octets, now: nat)
    requires ServerOk(s)
    ensures var step := Handle(s, Request(t.dataAddr, t.channelId, sequence, body), now);
            var e := if sequence == t.recvSeq then Take(body) else Nothing;
            && (t in s.tunnels ==>
                  && AsIfAlone(t, Alone(t, e, now), step)
                  && step.sent == [Sent(t.dataAddr, TunnelingAck(t.channelId, sequence, E_NO_ERROR))]
                                  + Alone(t, e, now).sent
                  && step.events == if sequence == t.recvSeq then Ts.FrameIn(body) else [])
            && ((forall u :: u in s.tunnels ==> u.channelId != t.channelId) ==>
                  && step.server == s
                  && step.sent == [Sent(t.dataAddr, TunnelingAck(t.channelId, sequence, E_CONNECTION_ID))]
                  && step.events == [])
  {
    if t in s.tunnels {
      RequestAsIfAlone(s, t.dataAddr, t.channelId, sequence, body, now, t);
      FirstOrOther(s, t, t.channelId, None, None);
    }
  }

  /**
   Why only until then. The last attempt of a send ends without its acknowledgement; the next frame
   goes out under the same number. The server acknowledges it and the client counts it as sent, but
   the server takes it exactly if it had not taken the failed one.
   */
  lemma NextAfterFailedSend(c: Ts.Client, t: Tunnel, cemi: Octets, now: nat)
    requires TunnelOk(t) && c.channelId == t.channelId && c.sendSeq < 256 && Serializable(cemi)
    requires c.waiting.Some? && c.waiting.value.attempt == MAX_RETRIES
    requires t.recvSeq in {c.sendSeq, (c.sendSeq + 1) % 256}
    ensures var gaveUp := Ts.Handle(c, Ts.Expire);
            var next := Ts.Handle(gaveUp.client, Ts.Start(cemi));
            var s := Server([t], 1);
            var served := OnRequest(s, t.dataAddr, t.channelId, c.sendSeq, cemi, now);
            var heard := Ts.Handle(next.client, Ts.Arrive(Some(TunnelingAck(t.channelId, c.sendSeq, E_NO_ERROR))));
            && gaveUp.verdict == Some(Ts.GaveUp)
            && next.sent == [TunnelingRequest(t.channelId, c.sendSeq, cemi)]
            && served.sent != [] && served.sent[0] == Sent(t.dataAddr, TunnelingAck(t.channelId, c.sendSeq, E_NO_ERROR))
            && heard.verdict == Some(Ts.Acked)
            && (served.server.tunnels[0].recvSeq != t.recvSeq <==> t.recvSeq == c.sendSeq)
  {
    var served := OnRequest(Server([t], 1), t.dataAddr, t.channelId, c.sendSeq, cemi, now);
    assert First([t], HasId(t.channelId)) == 0;
    if t.recvSeq == c.sendSeq {
      TakeMoves(t, cemi, now);
    }
  }
}
