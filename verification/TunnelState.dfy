/**
 The client side of KNXnet/IP tunnelling: it acknowledges every request on its channel, delivers
 the expected one, and sends its own frames with up to three attempts of one second each.

 `Client` is the state between two datagrams, also while a send waits for its acknowledgement.
 The class `TunnelState` sends, waits and receives in loops that update its counters; the datagrams
 that reach it during an attempt are a parameter. It is proved to do what the single steps of
 `Client` do one after the other.
 */
module TunnelState {
  import opened Basics
  import Cemi
  import opened TunnelServer

  /** A send that waits: the frame, the number of the attempt, and what else arrived during it. */
  datatype Waiting = Waiting(cemi: Octets, attempt: nat, buffered: seq<Datagram>)

  datatype Client = Client(channelId: nat, sendSeq: nat, recvSeq: nat, waiting: Option<Waiting>)

  /** How a send ended; `PeerLeft` is also what a client that sends nothing makes of a disconnect. */
  datatype Verdict =
    | Acked
    | GaveUp
    | Refused(status: nat)
    | PeerLeft
    | TooLong

  /** What a step sent, the bodies of requests it accepted, and how a send ended in it, if one did. */
  datatype ClientStep = ClientStep(client: Client, sent: seq<Datagram>, accepted: seq<Octets>, verdict: Option<Verdict>)

  datatype Step =
    | Start(cemi: Octets)
    | Arrive(datagram: Option<Datagram>)
    | Expire

  // ── Single steps ────────────────────────────────────────────────

  /** A tunnelling request: acknowledged on the own channel, accepted when it has the expected number. */
  function Requested(c: Client, id: nat, sequence: nat, cemi: Octets): ClientStep {
    if id != c.channelId then ClientStep(c, [], [], None)
    else
      var ack := [TunnelingAck(id, sequence, E_NO_ERROR)];
      if sequence != c.recvSeq then ClientStep(c, ack, [], None)
      else ClientStep(c.(recvSeq := (c.recvSeq + 1) % 256), ack, [cemi], None)
  }

  /** A datagram that no send waits for; `None` is one that cannot be parsed. */
  function Incoming(c: Client, d: Option<Datagram>): ClientStep {
    match d
    case Some(TunnelingRequest(id, sequence, cemi)) => Requested(c, id, sequence, cemi)
    case Some(DisconnectRequest(_)) =>
      ClientStep(c, [DisconnectResponse(c.channelId, E_NO_ERROR)], [], Some(PeerLeft))
    case _ => ClientStep(c, [], [], None)
  }

  /** The datagrams kept while a send waited are handled after `s`, up to a disconnect. */
  function Reprocessed(s: ClientStep, buffered: seq<Datagram>): ClientStep
    decreases |buffered|
  {
    if s.verdict.Some? || buffered == [] then s
    else
      Reprocessed(Then(s, Incoming(s.client, Some(buffered[0]))), buffered[1..])
  }

  function Then(s: ClientStep, h: ClientStep): ClientStep {
    ClientStep(h.client, s.sent + h.sent, s.accepted + h.accepted, h.verdict)
  }

  /** The awaited acknowledgement came. */
  function Completed(c: Client, buffered: seq<Datagram>): ClientStep {
    var acked := ClientStep(c.(sendSeq := (c.sendSeq + 1) % 256, waiting := None), [], [], None);
    Concluded(Reprocessed(acked, buffered))
  }

  /** Unless something else ended it, the send succeeded. */
  function Concluded(s: ClientStep): ClientStep {
    if s.verdict.None? then s.(verdict := Some(Acked)) else s
  }

  predicate AwaitedAck(id: nat, sequence: nat, d: Datagram) {
    d.TunnelingAck? && d.channelId == id && d.sequence == sequence
  }

  /** A datagram that arrives while a send waits. */
  function WhileWaiting(c: Client, w: Waiting, d: Datagram): ClientStep {
    if AwaitedAck(c.channelId, c.sendSeq, d) then
      if d.status != E_NO_ERROR then ClientStep(c.(waiting := None), [], [], Some(Refused(d.status)))
      else Completed(c, w.buffered)
    else if d.TunnelingRequest? then Requested(c, d.channelId, d.sequence, d.cemi)
    else ClientStep(c.(waiting := Some(w.(buffered := w.buffered + [d]))), [], [], None)
  }

  function Handle(c: Client, s: Step): ClientStep {
    match s
    case Start(cemi) =>
      if c.waiting.Some? then ClientStep(c, [], [], None)
      else if !Serializable(cemi) then ClientStep(c, [], [], Some(TooLong))
      else ClientStep(c.(waiting := Some(Waiting(cemi, 1, []))), [TunnelingRequest(c.channelId, c.sendSeq, cemi)], [], None)
    case Arrive(d) =>
      if c.waiting.None? then Incoming(c, d)
      else if d.None? then ClientStep(c, [], [], None)
      else WhileWaiting(c, c.waiting.value, d.value)
    case Expire =>
      match c.waiting
      case None => ClientStep(c, [], [], None)
      case Some(w) =>
        if w.attempt < MAX_RETRIES then
          ClientStep(c.(waiting := Some(Waiting(w.cemi, w.attempt + 1, []))),
                     [TunnelingRequest(c.channelId, c.sendSeq, w.cemi)], [], None)
        else
          ClientStep(c.(waiting := None), [], [], Some(GaveUp))
  }

  // ── Runs ────────────────────────────────────────────────────────

  function Frames(bodies: seq<Octets>): seq<Cemi.ValidFrame> {
    if bodies == [] then []
    else
      var n := |bodies| - 1;
      Frames(bodies[..n]) + FrameIn(bodies[n])
  }

  function FrameIn(body: Octets): seq<Cemi.ValidFrame> {
    match Cemi.Parse(body) case Ok(f) => [f] case Err(_) => []
  }

  /** The client with everything it sent and delivered, and the verdict once there is one. */
  datatype Ran = Ran(client: Client, wire: seq<Datagram>, delivered: seq<Cemi.ValidFrame>, verdict: Option<Verdict>)

  function Logged(r: Ran, h: ClientStep): Ran {
    Ran(h.client, r.wire + h.sent, r.delivered + Frames(h.accepted), h.verdict)
  }

  /** One more step, unless the send has ended. */
  function After(r: Ran, s: Step): Ran {
    if r.verdict.Some? then r else Logged(r, Handle(r.client, s))
  }

  function AfterArrivals(r: Ran, arrivals: seq<Option<Datagram>>): Ran
    decreases |arrivals|
  {
    if arrivals == [] then r else AfterArrivals(After(r, Arrive(arrivals[0])), arrivals[1..])
  }

  /** Attempts one after the other, each with what arrives before its second is over. */
  function AfterAttempts(r: Ran, attempts: seq<seq<Option<Datagram>>>): Ran
    decreases |attempts|
  {
    if attempts == [] then r
    else AfterAttempts(After(AfterArrivals(r, attempts[0]), Expire), attempts[1..])
  }

  /** A whole send. */
  function Sending(c: Client, wire: seq<Datagram>, delivered: seq<Cemi.ValidFrame>,
                   cemi: Octets, attempts: seq<seq<Option<Datagram>>>): Ran
  {
    AfterAttempts(After(Ran(c, wire, delivered, None), Start(cemi)), attempts)
  }

  lemma {:induction false} EndedStaysEnded(r: Ran, arrivals: seq<Option<Datagram>>)
    requires r.verdict.Some?
    ensures AfterArrivals(r, arrivals) == r
    decreases |arrivals|
  {
    if arrivals != [] {
      EndedStaysEnded(r, arrivals[1..]);
    }
  }

  lemma {:induction false} EndedAttemptsStayEnded(r: Ran, attempts: seq<seq<Option<Datagram>>>)
    requires r.verdict.Some?
    ensures AfterAttempts(r, attempts) == r
    decreases |attempts|
  {
    if attempts != [] {
      EndedStaysEnded(r, attempts[0]);
      EndedAttemptsStayEnded(r, attempts[1..]);
    }
  }

  lemma OneAttempt(r: Ran, attempts: seq<seq<Option<Datagram>>>, k: nat)
    requires k < |attempts|
    ensures AfterAttempts(r, attempts[k..])
         == AfterAttempts(After(AfterArrivals(r, attempts[k]), Expire), attempts[k + 1..])
  {
    assert attempts[k..][0] == attempts[k] && attempts[k..][1..] == attempts[k + 1..];
  }

  /** The request with `cemi` went out. */
  function Repeated(r: Ran, cemi: Octets): Ran {
    r.(wire := r.wire + [TunnelingRequest(r.client.channelId, r.client.sendSeq, cemi)])
  }

  lemma Started(r: Ran, cemi: Octets)
    requires r.verdict.None? && r.client.waiting.None?
    ensures After(r, Start(cemi))
         == if Serializable(cemi) then
              Repeated(Ran(r.client.(waiting := Some(Waiting(cemi, 1, []))), r.wire, r.delivered, None), cemi)
            else Ran(r.client, r.wire, r.delivered, Some(TooLong))
  {
    EmptyIsUnit(r.delivered);
    EmptyIsUnit(r.wire);
  }

  /** An attempt that was not acknowledged: the frame is repeated, or the send is given up. */
  lemma AttemptOver(r: Ran, w: Waiting)
    requires r.verdict.None? && r.client.waiting == Some(w)
    ensures After(r, Expire)
         == if w.attempt < MAX_RETRIES then
              Repeated(Ran(r.client.(waiting := Some(Waiting(w.cemi, w.attempt + 1, []))), r.wire, r.delivered, None), w.cemi)
            else Ran(r.client.(waiting := None), r.wire, r.delivered, Some(GaveUp))
  {
    EmptyIsUnit(r.delivered);
    EmptyIsUnit(r.wire);
  }

  // ── How a send ends ─────────────────────────────────────────────

  /** None of the datagrams is the acknowledgement of number `sequence` on channel `id`. */
  predicate Silent(id: nat, sequence: nat, arrivals: seq<Option<Datagram>>) {
    forall a :: a in arrivals && a.Some? ==> !AwaitedAck(id, sequence, a.value)
  }

  predicate DisconnectBefore(arrivals: seq<Option<Datagram>>, i: nat)
    requires i <= |arrivals|
  {
    exists j :: 0 <= j < i && arrivals[j].Some? && arrivals[j].value.DisconnectRequest?
  }

  /** What the acknowledgement at position `i` of an attempt means for the send. */
  function AckVerdict(arrivals: seq<Option<Datagram>>, i: nat): Verdict
    requires i < |arrivals| && arrivals[i].Some? && arrivals[i].value.TunnelingAck?
  {
    if arrivals[i].value.status != E_NO_ERROR then Refused(arrivals[i].value.status)
    else if DisconnectBefore(arrivals, i) then PeerLeft
    else Acked
  }

  /** What a waiting send keeps for later: everything but requests and what cannot be parsed. */
  function Kept(arrivals: seq<Option<Datagram>>): seq<Datagram> {
    if arrivals == [] then [] else KeptOne(arrivals[0]) + Kept(arrivals[1..])
  }

  function KeptOne(a: Option<Datagram>): seq<Datagram> {
    if a.Some? && !a.value.TunnelingRequest? then [a.value] else []
  }

  /** How many of the datagrams are tunnelling requests. */
  function Transmissions(wire: seq<Datagram>): nat {
    if wire == [] then 0
    else Transmissions(wire[..|wire| - 1]) + (if wire[|wire| - 1].TunnelingRequest? then 1 else 0)
  }

  lemma {:induction false} TransmissionsConcat(a: seq<Datagram>, b: seq<Datagram>)
    ensures Transmissions(a + b) == Transmissions(a) + Transmissions(b)
  {
    if b == [] {
      assert a + b == a;
    } else {
      TransmissionsConcat(a, b[..|b| - 1]);
      assert (a + b)[..|a + b| - 1] == a + b[..|b| - 1];
    }
  }

  /** One datagram that is not the awaited acknowledgement. */
  lemma OneGoesOn(r: Ran, w: Waiting, a: Option<Datagram>)
    requires r.verdict.None? && r.client.waiting == Some(w) && (a.Some? ==> !AwaitedAck(r.client.channelId, r.client.sendSeq, a.value))
    ensures var s := After(r, Arrive(a));
            && s.verdict.None? && s.client.channelId == r.client.channelId && s.client.sendSeq == r.client.sendSeq
            && s.client.waiting == Some(w.(buffered := w.buffered + KeptOne(a)))
            && Transmissions(s.wire) == Transmissions(r.wire)
  {
    EmptyIsUnit(w.buffered);
    TransmissionsConcat(r.wire, Handle(r.client, Arrive(a)).sent);
  }

  /** Without its acknowledgement a send goes on waiting, and keeps what else arrived. */
  lemma {:induction false} SilenceGoesOn(r: Ran, w: Waiting, arrivals: seq<Option<Datagram>>)
    requires r.verdict.None? && r.client.waiting == Some(w) && Silent(r.client.channelId, r.client.sendSeq, arrivals)
    ensures var s := AfterArrivals(r, arrivals);
            && s.verdict.None? && s.client.channelId == r.client.channelId && s.client.sendSeq == r.client.sendSeq
            && s.client.waiting == Some(w.(buffered := w.buffered + Kept(arrivals)))
            && Transmissions(s.wire) == Transmissions(r.wire)
    decreases |arrivals|
  {
    if arrivals == [] {
      EmptyIsUnit(w.buffered);
    } else {
      assert arrivals[0] in arrivals;
      OneGoesOn(r, w, arrivals[0]);
      SilenceGoesOn(After(r, Arrive(arrivals[0])), w.(buffered := w.buffered + KeptOne(arrivals[0])), arrivals[1..]);
      Associative(w.buffered, KeptOne(arrivals[0]), Kept(arrivals[1..]));
    }
  }

  /** Of what was kept, only a disconnect changes how an acknowledged send ends. */
  lemma {:induction false} ReprocessingEnds(s: ClientStep, buffered: seq<Datagram>)
    requires s.verdict.None? && forall d :: d in buffered ==> !d.TunnelingRequest?
    ensures var r := Reprocessed(s, buffered);
            && r.verdict == (if exists d :: d in buffered && d.DisconnectRequest? then Some(PeerLeft) else None)
            && r.client == s.client && Transmissions(r.sent) == Transmissions(s.sent)
    decreases |buffered|
  {
    if buffered != [] {
      assert buffered[0] in buffered;
      var h := Incoming(s.client, Some(buffered[0]));
      TransmissionsConcat(s.sent, h.sent);
      if h.verdict.None? {
        ReprocessingEnds(Then(s, h), buffered[1..]);
      }
      assert forall d :: d in buffered <==> d == buffered[0] || d in buffered[1..];
    }
  }

  /** Nothing kept is accepted as data, and only disconnects are answered. */
  lemma {:induction false} ReprocessingSends(s: ClientStep, buffered: seq<Datagram>)
    requires s.verdict.None? && s.accepted == [] && forall d :: d in buffered ==> !d.TunnelingRequest?
    requires forall d :: d in s.sent ==> d.DisconnectResponse?
    ensures var r := Reprocessed(s, buffered);
            && r.client == s.client && r.accepted == []
            && (r.verdict.None? || r.verdict == Some(PeerLeft))
            && (forall d :: d in r.sent ==> d.DisconnectResponse?)
    decreases |buffered|
  {
    if buffered != [] {
      assert buffered[0] in buffered;
      var next := Then(s, Incoming(s.client, Some(buffered[0])));
      if next.verdict.None? {
        ReprocessingSends(next, buffered[1..]);
      }
    }
  }

  lemma {:induction false} KeptIsWhatArrived(arrivals: seq<Option<Datagram>>)
    ensures forall d :: d in Kept(arrivals) <==> Some(d) in arrivals && !d.TunnelingRequest?
  {
    if arrivals != [] {
      KeptIsWhatArrived(arrivals[1..]);
      assert forall a :: a in arrivals <==> a == arrivals[0] || a in arrivals[1..];
    }
  }

  lemma {:induction false} ArrivalsSplit(r: Ran, arrivals: seq<Option<Datagram>>, i: nat)
    requires i < |arrivals|
    ensures AfterArrivals(r, arrivals)
         == AfterArrivals(After(AfterArrivals(r, arrivals[..i]), Arrive(arrivals[i])), arrivals[i + 1..])
    decreases i
  {
    if i > 0 {
      ArrivalsSplit(After(r, Arrive(arrivals[0])), arrivals[1..], i - 1);
      assert arrivals[1..][..i - 1] == arrivals[..i][1..] && arrivals[1..][i..] == arrivals[i + 1..];
    }
  }

  /** The acknowledgement ends a send that kept `kept`. */
  lemma AckEnds(r: Ran, kept: seq<Datagram>, d: Datagram)
    requires r.verdict.None? && r.client.waiting.Some? && r.client.waiting.value.buffered == kept
    requires AwaitedAck(r.client.channelId, r.client.sendSeq, d) && forall x :: x in kept ==> !x.TunnelingRequest?
    ensures var s := After(r, Arrive(Some(d)));
            && s.verdict == Some(if d.status != E_NO_ERROR then Refused(d.status)
                                 else if exists x :: x in kept && x.DisconnectRequest? then PeerLeft
                                 else Acked)
            && s.client.waiting.None?
            && s.client.sendSeq == (if d.status != E_NO_ERROR then r.client.sendSeq else (r.client.sendSeq + 1) % 256)
            && Transmissions(s.wire) == Transmissions(r.wire)
  {
    var acked := ClientStep(r.client.(sendSeq := (r.client.sendSeq + 1) % 256, waiting := None), [], [], None);
    ReprocessingEnds(acked, kept);
    TransmissionsConcat(r.wire, Handle(r.client, Arrive(Some(d))).sent);
  }

  /** What an attempt kept before position `i`. */
  lemma SilenceFromStart(r: Ran, w: Waiting, arrivals: seq<Option<Datagram>>, i: nat)
    requires r.verdict.None? && r.client.waiting == Some(w) && w.buffered == [] && i <= |arrivals|
    requires Silent(r.client.channelId, r.client.sendSeq, arrivals[..i])
    ensures var s := AfterArrivals(r, arrivals[..i]);
            && s.verdict.None? && s.client.channelId == r.client.channelId && s.client.sendSeq == r.client.sendSeq
            && Transmissions(s.wire) == Transmissions(r.wire)
            && s.client.waiting.Some?
            && var kept := s.client.waiting.value.buffered;
               && (forall x :: x in kept ==> !x.TunnelingRequest?)
               && ((exists x :: x in kept && x.DisconnectRequest?) <==> DisconnectBefore(arrivals, i))
  {
    SilenceGoesOn(r, w, arrivals[..i]);
    EmptyIsUnit(Kept(arrivals[..i]));
    KeptIsWhatArrived(arrivals[..i]);
    DisconnectWasKept(arrivals, i);
  }

  /** An attempt in which the acknowledgement comes at position `i`, after no other. */
  lemma AnsweredAttempt(r: Ran, w: Waiting, arrivals: seq<Option<Datagram>>, i: nat)
    requires r.verdict.None? && r.client.waiting == Some(w) && w.buffered == []
    requires i < |arrivals| && Silent(r.client.channelId, r.client.sendSeq, arrivals[..i])
    requires arrivals[i].Some? && AwaitedAck(r.client.channelId, r.client.sendSeq, arrivals[i].value)
    ensures var s := AfterArrivals(r, arrivals);
            && s.verdict == Some(AckVerdict(arrivals, i))
            && s.client.waiting.None?
            && s.client.sendSeq == (if s.verdict.value.Refused? then r.client.sendSeq else (r.client.sendSeq + 1) % 256)
            && Transmissions(s.wire) == Transmissions(r.wire)
  {
    var before := AfterArrivals(r, arrivals[..i]);
    SilenceFromStart(r, w, arrivals, i);
    AckEnds(before, before.client.waiting.value.buffered, arrivals[i].value);
    ArrivalsSplit(r, arrivals, i);
    EndedStaysEnded(After(before, Arrive(arrivals[i])), arrivals[i + 1..]);
  }

  lemma DisconnectWasKept(arrivals: seq<Option<Datagram>>, i: nat)
    requires i <= |arrivals|
    ensures (exists x :: x in Kept(arrivals[..i]) && x.DisconnectRequest?) <==> DisconnectBefore(arrivals, i)
  {
    KeptIsWhatArrived(arrivals[..i]);
    if DisconnectBefore(arrivals, i) {
      var j :| 0 <= j < i && arrivals[j].Some? && arrivals[j].value.DisconnectRequest?;
      assert arrivals[..i][j] == Some(arrivals[j].value);
    }
  }

  /**
   The first awaited acknowledgement comes at position `i` of attempt `k`, or, with `k` the number
   of attempts left, not at all.
   */
  predicate FirstAckAt(id: nat, sequence: nat, attempts: seq<seq<Option<Datagram>>>, k: nat, i: nat) {
    && k <= |attempts|
    && (forall j :: 0 <= j < k ==> Silent(id, sequence, attempts[j]))
    && (k < |attempts| ==>
          && i < |attempts[k]| && Silent(id, sequence, attempts[k][..i])
          && attempts[k][i].Some? && AwaitedAck(id, sequence, attempts[k][i].value))
  }

  lemma FirstAckLater(id: nat, sequence: nat, attempts: seq<seq<Option<Datagram>>>, k: nat, i: nat)
    requires 0 < k && FirstAckAt(id, sequence, attempts, k, i)
    ensures FirstAckAt(id, sequence, attempts[1..], k - 1, i)
    ensures k < |attempts| ==> attempts[1..][k - 1] == attempts[k]
  {
  }

  /** How `s` ends a send that was begun in `r`: the verdict, the next sequence number, and the retransmissions. */
  predicate EndsBy(r: Ran, s: Ran, attempts: seq<seq<Option<Datagram>>>, k: nat, i: nat) {
    && (if k < |attempts| then
          && i < |attempts[k]| && attempts[k][i].Some? && attempts[k][i].value.TunnelingAck?
          && s.verdict == Some(AckVerdict(attempts[k], i))
        else s.verdict == Some(GaveUp))
    && s.client.sendSeq == (if s.verdict.value == Acked || s.verdict.value == PeerLeft then (r.client.sendSeq + 1) % 256
                            else r.client.sendSeq)
    && Transmissions(s.wire) == Transmissions(r.wire) + (if k < |attempts| then k else |attempts| - 1)
  }

  lemma {:induction false} AttemptsEnd(r: Ran, cemi: Octets, attempts: seq<seq<Option<Datagram>>>, k: nat, i: nat)
    requires 1 <= |attempts| <= MAX_RETRIES && r.verdict.None?
    requires r.client.waiting == Some(Waiting(cemi, MAX_RETRIES + 1 - |attempts|, []))
    requires FirstAckAt(r.client.channelId, r.client.sendSeq, attempts, k, i)
    ensures EndsBy(r, AfterAttempts(r, attempts), attempts, k, i)
    decreases |attempts|
  {
    if k == 0 {
      AnsweredEnds(r, attempts, i);
    } else {
      var over := After(AfterArrivals(r, attempts[0]), Expire);
      FirstIsSilent(r, attempts, k, i);
      SilentAttempt(r, r.client.waiting.value, attempts[0]);
      if |attempts| == 1 {
        GivenUp(r, over, attempts, k, i);
      } else {
        FirstAckLater(r.client.channelId, r.client.sendSeq, attempts, k, i);
        AttemptsEnd(over, cemi, attempts[1..], k - 1, i);
        EndsByLater(r, over, attempts, k, i);
      }
    }
  }

  lemma AnsweredEnds(r: Ran, attempts: seq<seq<Option<Datagram>>>, i: nat)
    requires attempts != [] && r.verdict.None? && r.client.waiting.Some? && r.client.waiting.value.buffered == []
    requires FirstAckAt(r.client.channelId, r.client.sendSeq, attempts, 0, i)
    ensures EndsBy(r, AfterAttempts(r, attempts), attempts, 0, i)
  {
    AnsweredAtOnce(r, attempts, i);
  }

  lemma FirstIsSilent(r: Ran, attempts: seq<seq<Option<Datagram>>>, k: nat, i: nat)
    requires 0 < k && FirstAckAt(r.client.channelId, r.client.sendSeq, attempts, k, i)
    ensures attempts != [] && Silent(r.client.channelId, r.client.sendSeq, attempts[0])
  {
  }

  lemma GivenUp(r: Ran, over: Ran, attempts: seq<seq<Option<Datagram>>>, k: nat, i: nat)
    requires |attempts| == 1 <= k && over.verdict == Some(GaveUp)
    requires over == After(AfterArrivals(r, attempts[0]), Expire)
    requires over.client.sendSeq == r.client.sendSeq && Transmissions(over.wire) == Transmissions(r.wire)
    ensures EndsBy(r, AfterAttempts(r, attempts), attempts, k, i)
  {
    assert AfterAttempts(over, attempts[1..]) == over;
  }

  lemma EndsByLater(r: Ran, over: Ran, attempts: seq<seq<Option<Datagram>>>, k: nat, i: nat)
    requires |attempts| > 1 && 0 < k && EndsBy(over, AfterAttempts(over, attempts[1..]), attempts[1..], k - 1, i)
    requires over == After(AfterArrivals(r, attempts[0]), Expire)
    requires over.client.sendSeq == r.client.sendSeq && Transmissions(over.wire) == Transmissions(r.wire) + 1
    ensures EndsBy(r, AfterAttempts(r, attempts), attempts, k, i)
  {
    FirstAttempt(r, attempts);
    OneAttemptMore(r, over, AfterAttempts(over, attempts[1..]), attempts, k, i);
  }

  lemma FirstAttempt(r: Ran, attempts: seq<seq<Option<Datagram>>>)
    requires attempts != []
    ensures AfterAttempts(r, attempts) == AfterAttempts(After(AfterArrivals(r, attempts[0]), Expire), attempts[1..])
  {
  }

  lemma OneAttemptMore(r: Ran, over: Ran, s: Ran, attempts: seq<seq<Option<Datagram>>>, k: nat, i: nat)
    requires |attempts| > 1 && 0 < k && EndsBy(over, s, attempts[1..], k - 1, i)
    requires over.client.sendSeq == r.client.sendSeq && Transmissions(over.wire) == Transmissions(r.wire) + 1
    ensures EndsBy(r, s, attempts, k, i)
  {
  }

  lemma AnsweredAtOnce(r: Ran, attempts: seq<seq<Option<Datagram>>>, i: nat)
    requires attempts != [] && r.verdict.None? && r.client.waiting.Some? && r.client.waiting.value.buffered == []
    requires FirstAckAt(r.client.channelId, r.client.sendSeq, attempts, 0, i)
    ensures var s := AfterAttempts(r, attempts);
            && s.verdict == Some(AckVerdict(attempts[0], i))
            && s.client.sendSeq == (if s.verdict.value.Refused? then r.client.sendSeq else (r.client.sendSeq + 1) % 256)
            && Transmissions(s.wire) == Transmissions(r.wire)
  {
    AnsweredAttempt(r, r.client.waiting.value, attempts[0], i);
    EndedAttemptsStayEnded(AfterArrivals(r, attempts[0]), attempts[1..]);
  }

  /** An attempt without its acknowledgement: one more transmission, or the end. */
  lemma SilentAttempt(r: Ran, w: Waiting, arrivals: seq<Option<Datagram>>)
    requires r.verdict.None? && r.client.waiting == Some(w) && Silent(r.client.channelId, r.client.sendSeq, arrivals)
    ensures var s := After(AfterArrivals(r, arrivals), Expire);
            && s.client.channelId == r.client.channelId && s.client.sendSeq == r.client.sendSeq
            && if w.attempt < MAX_RETRIES then
                 && s.verdict.None? && s.client.waiting == Some(Waiting(w.cemi, w.attempt + 1, []))
                 && Transmissions(s.wire) == Transmissions(r.wire) + 1
               else
                 s.verdict == Some(GaveUp) && Transmissions(s.wire) == Transmissions(r.wire)
  {
    var heard := AfterArrivals(r, arrivals);
    SilenceGoesOn(r, w, arrivals);
    AttemptOver(heard, heard.client.waiting.value);
    TransmissionsConcat(heard.wire, [TunnelingRequest(heard.client.channelId, heard.client.sendSeq, w.cemi)]);
    OneTransmission(heard.client.channelId, heard.client.sendSeq, w.cemi);
  }

  lemma OneTransmission(id: nat, sequence: nat, cemi: Octets)
    ensures Transmissions([TunnelingRequest(id, sequence, cemi)]) == 1
  {
    assert [TunnelingRequest(id, sequence, cemi)][..0] == [];
  }

  /**
   A send ends by its first awaited acknowledgement alone: it succeeds exactly if that one reports
   no error and no disconnect came before it in its own attempt; a disconnect in an attempt that
   timed out is forgotten. Without one it is given up after three transmissions and the sequence
   number stays.
   */
  lemma SendEndsByFirstAck(c: Client, wire: seq<Datagram>, delivered: seq<Cemi.ValidFrame>, cemi: Octets,
                           attempts: seq<seq<Option<Datagram>>>, k: nat, i: nat)
    requires |attempts| == MAX_RETRIES && c.waiting.None? && Serializable(cemi) && FirstAckAt(c.channelId, c.sendSeq, attempts, k, i)
    ensures var s := Sending(c, wire, delivered, cemi, attempts);
            && s.verdict == Some(if k < MAX_RETRIES then AckVerdict(attempts[k], i) else GaveUp)
            && s.client.sendSeq == (if s.verdict.value in {Acked, PeerLeft} then (c.sendSeq + 1) % 256 else c.sendSeq)
            && Transmissions(s.wire) == Transmissions(wire) + (if k < MAX_RETRIES then k + 1 else MAX_RETRIES)
  {
    var r := Ran(c, wire, delivered, None);
    Started(r, cemi);
    TransmissionsConcat(wire, [TunnelingRequest(c.channelId, c.sendSeq, cemi)]);
    OneTransmission(c.channelId, c.sendSeq, cemi);
    AttemptsEnd(After(r, Start(cemi)), cemi, attempts, k, i);
  }

  // ── The client's own form ───────────────────────────────────────

  lemma ReprocessOne(s: ClientStep, buffered: seq<Datagram>, i: nat)
    requires i < |buffered| && s.verdict.None?
    ensures Reprocessed(s, buffered[i..])
         == Reprocessed(Then(s, Incoming(s.client, Some(buffered[i]))), buffered[i + 1..])
  {
    assert buffered[i..][0] == buffered[i] && buffered[i..][1..] == buffered[i + 1..];
  }

  lemma {:induction false} FramesConcat(a: seq<Octets>, b: seq<Octets>)
    ensures Frames(a + b) == Frames(a) + Frames(b)
    decreases |b|
  {
    if b == [] {
      assert a + b == a;
    } else {
      var n := |b| - 1;
      FramesConcat(a, b[..n]);
      Associative(Frames(a), Frames(b[..n]), FrameIn(b[n]));
      LastApart(a, b);
      OneMoreFrame(a + b[..n], b[n]);
    }
  }

  lemma OneMoreFrame(bodies: seq<Octets>, body: Octets)
    ensures Frames(bodies + [body]) == Frames(bodies) + FrameIn(body)
  {
    assert (bodies + [body])[..|bodies|] == bodies;
  }

  lemma OneFrame(body: Octets)
    ensures Frames([body]) == FrameIn(body)
  {
    assert [body][..0] == [];
  }

  lemma LoggedThen(r: Ran, s: ClientStep, h: ClientStep)
    ensures Logged(Logged(r, s), h) == Logged(r, Then(s, h))
  {
    FramesConcat(s.accepted, h.accepted);
    Associative(r.delivered, Frames(s.accepted), Frames(h.accepted));
    Associative(r.wire, s.sent, h.sent);
  }

  /** How the wait of one attempt ended. */
  datatype Wait = AckCame(buffered: seq<Datagram>) | Rejected(status: nat) | TimedOut

  class TunnelState {
    const channelId: nat
    var sendSeq: nat
    var recvSeq: nat
    var wire: seq<Datagram>
    var delivered: seq<Cemi.ValidFrame>

    function Model(waiting: Option<Waiting>): Client
      reads this
    {
      Client(channelId, sendSeq, recvSeq, waiting)
    }

    /** The client and its history, while a send waits or between sends. */
    function Now(waiting: Option<Waiting>, verdict: Option<Verdict>): Ran
      reads this
    {
      Ran(Model(waiting), wire, delivered, verdict)
    }

    constructor (channelId: nat)
      ensures Model(None) == Client(channelId, 0, 0, None) && wire == [] && delivered == []
      ensures this.channelId == channelId
    {
      this.channelId := channelId;
      sendSeq, recvSeq := 0, 0;
      wire, delivered := [], [];
    }

    method HandleTunnelingRequest(id: nat, sequence: nat, cemi: Octets, ghost waiting: Option<Waiting>)
      modifies `recvSeq, `wire, `delivered
      ensures Now(waiting, None) == Logged(old(Now(waiting, None)), Requested(old(Model(waiting)), id, sequence, cemi))
    {
      if id != channelId {
        return;
      }
      wire := wire + [TunnelingAck(id, sequence, E_NO_ERROR)];
      if sequence != recvSeq {
        return;
      }
      recvSeq := (recvSeq + 1) % 256;
      var parsed := Cemi.Parse(cemi);
      if parsed.Ok? {
        delivered := delivered + [parsed.value];
      }
      OneFrame(cemi);
    }

    /** Whether the tunnel is still open afterwards. */
    method HandleIncoming(d: Option<Datagram>) returns (open: bool)
      modifies `recvSeq, `wire, `delivered
      ensures Now(None, if open then None else Some(PeerLeft))
           == Logged(old(Now(None, None)), Incoming(old(Model(None)), d))
    {
      match d
      case Some(TunnelingRequest(id, sequence, cemi)) =>
        HandleTunnelingRequest(id, sequence, cemi, None);
        open := true;
      case Some(DisconnectRequest(_)) =>
        wire := wire + [DisconnectResponse(channelId, E_NO_ERROR)];
        open := false;
      case _ =>
        open := true;
    }

    /** Wait for the acknowledgement of attempt `w` while `arrivals` come in. */
    method WaitForAck(arrivals: seq<Option<Datagram>>, ghost w: Waiting) returns (end: Wait)
      requires w.buffered == []
      modifies `recvSeq, `wire, `delivered
      ensures var r := AfterArrivals(old(Now(Some(w), None)), arrivals);
              match end
              case AckCame(buffered) =>
                && r.verdict.Some?
                && var here := Now(Some(w.(buffered := buffered)), None);
                   r == Logged(here, Completed(here.client, buffered))
              case Rejected(status) => status != E_NO_ERROR && r == Now(None, Some(Refused(status)))
              case TimedOut => r.verdict.None? && r.client.waiting.Some? && r == Now(Some(w.(buffered := r.client.waiting.value.buffered)), None)
    {
      var buffered: seq<Datagram> := [];
      var i := 0;
      ghost var start := Now(Some(w), None);
      assert w.(buffered := []) == w;
      assert arrivals[0..] == arrivals;
      while i < |arrivals|
        invariant 0 <= i <= |arrivals|
        invariant AfterArrivals(start, arrivals)
               == AfterArrivals(Now(Some(w.(buffered := buffered)), None), arrivals[i..])
      {
        var arrival := arrivals[i];
        ghost var here := Now(Some(w.(buffered := buffered)), None);
        assert arrivals[i..][0] == arrival && arrivals[i..][1..] == arrivals[i + 1..];
        i := i + 1;
        if arrival.Some? {
          var d := arrival.value;
          if AwaitedAck(channelId, sendSeq, d) {
            EndedStaysEnded(After(here, Arrive(arrival)), arrivals[i..]);
            if d.status != E_NO_ERROR {
              return Rejected(d.status);
            }
            return AckCame(buffered);
          }
          if d.TunnelingRequest? {
            HandleTunnelingRequest(d.channelId, d.sequence, d.cemi, Some(w.(buffered := buffered)));
          } else {
            buffered := buffered + [d];
            assert w.(buffered := buffered) == here.client.waiting.value.(buffered := buffered);
            assert here.wire + [] == here.wire && here.delivered + [] == here.delivered;
          }
        } else {
          assert here.wire + [] == here.wire && here.delivered + [] == here.delivered;
        }
        assert Now(Some(w.(buffered := buffered)), None) == After(here, Arrive(arrival));
      }
      end := TimedOut;
    }

    /** Handle what was kept while a send waited; a disconnect ends it. */
    method Reprocess(buffered: seq<Datagram>) returns (verdict: Verdict)
      modifies `recvSeq, `wire, `delivered
      ensures Now(None, Some(verdict))
           == Logged(old(Now(None, None)), Concluded(Reprocessed(ClientStep(old(Model(None)), [], [], None), buffered)))
    {
      ghost var s := ClientStep(Model(None), [], [], None);
      assert buffered[0..] == buffered;
      var i := 0;
      while i < |buffered|
        invariant 0 <= i <= |buffered|
        invariant s.verdict.None? && Now(None, None) == Logged(old(Now(None, None)), s)
        invariant Reprocessed(ClientStep(old(Model(None)), [], [], None), buffered) == Reprocessed(s, buffered[i..])
      {
        ghost var h := Incoming(Model(None), Some(buffered[i]));
        ReprocessOne(s, buffered, i);
        var open := HandleIncoming(Some(buffered[i]));
        LoggedThen(old(Now(None, None)), s, h);
        s := Then(s, h);
        i := i + 1;
        if !open {
          return PeerLeft;
        }
      }
      verdict := Acked;
    }

    /** One attempt, after its request went out: `None` if its second passed without an answer. */
    method Attempt(ghost w: Waiting, arrivals: seq<Option<Datagram>>) returns (verdict: Option<Verdict>)
      requires w.buffered == []
      modifies `sendSeq, `recvSeq, `wire, `delivered
      ensures var heard := AfterArrivals(old(Now(Some(w), None)), arrivals);
              if verdict.Some? then heard == Now(None, verdict)
              else && heard.verdict.None? && heard.client.waiting.Some?
                   && heard == Now(Some(w.(buffered := heard.client.waiting.value.buffered)), None)
    {
      var end := WaitForAck(arrivals, w);
      match end
      case AckCame(buffered) =>
        sendSeq := (sendSeq + 1) % 256;
        var v := Reprocess(buffered);
        verdict := Some(v);
      case Rejected(status) =>
        verdict := Some(Refused(status));
      case TimedOut =>
        verdict := None;
    }

    /** Send one frame, with up to `MAX_RETRIES` attempts. */
    method SendWithRetry(cemi: Octets, attempts: seq<seq<Option<Datagram>>>) returns (verdict: Verdict)
      requires |attempts| == MAX_RETRIES
      modifies `sendSeq, `recvSeq, `wire, `delivered
      ensures Now(None, Some(verdict)) == Sending(old(Model(None)), old(wire), old(delivered), cemi, attempts)
    {
      ghost var start := After(Now(None, None), Start(cemi));
      Started(Now(None, None), cemi);
      if !Serializable(cemi) {
        EndedAttemptsStayEnded(start, attempts);
        return TooLong;
      }
      ghost var here := start;
      assert attempts[0..] == attempts;
      for attempt := 0 to MAX_RETRIES
        invariant AfterAttempts(start, attempts) == AfterAttempts(here, attempts[attempt..])
        invariant here == if attempt < MAX_RETRIES then Repeated(Now(Some(Waiting(cemi, attempt + 1, [])), None), cemi)
                          else Now(None, Some(GaveUp))
      {
        wire := wire + [TunnelingRequest(channelId, sendSeq, cemi)];
        OneAttempt(here, attempts, attempt);
        ghost var heard := AfterArrivals(here, attempts[attempt]);
        var end := Attempt(Waiting(cemi, attempt + 1, []), attempts[attempt]);
        if end.Some? {
          EndedAttemptsStayEnded(heard, attempts[attempt + 1..]);
          return end.value;
        }
        AttemptOver(heard, heard.client.waiting.value);
        here := After(heard, Expire);
      }
      verdict := GaveUp;
    }
  }
}
