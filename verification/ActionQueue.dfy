/**
 Draining the queue of transport layer actions: frames go to the outbox, received requests are
 served, and what serving them queues is drained as well. What a service does is a parameter.
 */
module ActionQueue {
  import opened Basics
  import opened TransportLayer

  datatype OutFrame =
    | ControlFrame(destination: Address, control: Control, seqNo: nat)
    | DataFrame(destination: Address, seqNo: nat, priority: Priority, apdu: Octets)
    | IndividualFrame(destination: Address, priority: Priority, payload: Octets)
    | GroupFrame(group: nat, priority: Priority, payload: Octets)

  /** What a service can do to the transport layer and the outbox; a broadcast goes to group 0. */
  datatype Effect =
    | SendTo(destination: Address, priority: Priority, payload: Octets)
    | SendToGroup(group: nat, priority: Priority, payload: Octets)
    | DropConnection

  /** The effects of the n-th request of a run, by its source and its octets; none if they cannot be parsed. */
  type Services = (nat, Address, Octets) -> seq<Effect>

  datatype World = World(layer: Layer, queue: seq<Action>, outbox: seq<OutFrame>, served: nat)

  // ── One action ──────────────────────────────────────────────────

  function Took(w: World, s: Step): World {
    w.(layer := s.layer, queue := w.queue + s.actions)
  }

  function Put(w: World, f: OutFrame): World {
    w.(outbox := w.outbox + [f])
  }

  /** An answer to the connected peer goes through the transport layer, everything else to the outbox. */
  function Apply(w: World, source: Address, e: Effect, now: nat): World {
    match e
    case SendTo(destination, priority, payload) =>
      if destination == source then Took(w, Handle(w.layer, DataReq(priority, payload), now))
      else Put(w, IndividualFrame(destination, priority, payload))
    case SendToGroup(group, priority, payload) => Put(w, GroupFrame(group, priority, payload))
    case DropConnection => Took(w, Handle(w.layer, DisconnectReq, now))
  }

  function ApplyAll(w: World, source: Address, es: seq<Effect>, now: nat): World
    decreases |es|
  {
    if es == [] then w else ApplyAll(Apply(w, source, es[0], now), source, es[1..], now)
  }

  function Act(w: World, a: Action, services: Services, now: nat): World {
    match a
    case SendControl(destination, control, seqNo) => Put(w, ControlFrame(destination, control, seqNo))
    case SendDataConnected(destination, seqNo, priority, apdu) => Put(w, DataFrame(destination, seqNo, priority, apdu))
    case DataConnectedIndication(source, _, apdu) =>
      ApplyAll(w, source, services(w.served, source, apdu), now).(served := w.served + 1)
    case _ => w
  }

  function ActAll(w: World, actions: seq<Action>, services: Services, now: nat): World
    decreases |actions|
  {
    if actions == [] then w else ActAll(Act(w, actions[0], services, now), actions[1..], services, now)
  }

  /** Take all actions from the queue and carry them out. */
  function Pass(w: World, services: Services, now: nat): World {
    ActAll(w.(queue := []), w.queue, services, now)
  }

  // ── How long it takes ───────────────────────────────────────────

  predicate IsRequest(a: Action) {
    a.DataConnectedIndication?
  }

  predicate NoRequests(actions: seq<Action>) {
    forall i :: 0 <= i < |actions| ==> !IsRequest(actions[i])
  }

  function Rank(queue: seq<Action>): nat {
    if queue == [] then 0 else if NoRequests(queue) then 1 else 2
  }

  /** No effect of a service queues a request. */
  lemma ApplyQueuesNoRequest(w: World, source: Address, e: Effect, now: nat)
    requires NoRequests(w.queue)
    ensures NoRequests(Apply(w, source, e, now).queue)
  {
  }

  lemma {:induction false} ApplyAllQueuesNoRequest(w: World, source: Address, es: seq<Effect>, now: nat)
    requires NoRequests(w.queue)
    ensures NoRequests(ApplyAll(w, source, es, now).queue)
    decreases |es|
  {
    if es != [] {
      ApplyQueuesNoRequest(w, source, es[0], now);
      ApplyAllQueuesNoRequest(Apply(w, source, es[0], now), source, es[1..], now);
    }
  }

  lemma {:induction false} ActAllQueuesNoRequest(w: World, actions: seq<Action>, services: Services, now: nat)
    requires NoRequests(w.queue)
    ensures NoRequests(ActAll(w, actions, services, now).queue)
    ensures NoRequests(actions) ==> ActAll(w, actions, services, now).queue == w.queue
    decreases |actions|
  {
    if actions != [] {
      var a := actions[0];
      if IsRequest(a) {
        ApplyAllQueuesNoRequest(w, a.source, services(w.served, a.source, a.apdu), now);
      }
      ActAllQueuesNoRequest(Act(w, a, services, now), actions[1..], services, now);
    }
  }

  /** A pass brings the queue closer to its end. */
  lemma PassComesCloser(w: World, services: Services, now: nat)
    requires w.queue != []
    ensures Rank(Pass(w, services, now).queue) < Rank(w.queue)
  {
    ActAllQueuesNoRequest(w.(queue := []), w.queue, services, now);
  }

  /** Pass after pass until the queue is empty. */
  function Drained(w: World, services: Services, now: nat): World
    decreases Rank(w.queue)
  {
    if w.queue == [] then w
    else
      PassComesCloser(w, services, now);
      Drained(Pass(w, services, now), services, now)
  }

  /** Draining ends, from every queue, after at most two passes that find something. */
  lemma TwoPassesDrain(w: World, services: Services, now: nat)
    ensures Drained(w, services, now) == Pass(Pass(w, services, now), services, now)
    ensures Drained(w, services, now).queue == []
  {
    var first := Pass(w, services, now);
    ActAllQueuesNoRequest(w.(queue := []), w.queue, services, now);
    var second := Pass(first, services, now);
    ActAllQueuesNoRequest(first.(queue := []), first.queue, services, now);
    assert Drained(second, services, now) == second;
  }

  // ── The loop ────────────────────────────────────────────────────

  method ApplyEffects(transport: TransportLayer, outbox: seq<OutFrame>, source: Address,
                      effects: seq<Effect>, now: nat, served: nat) returns (out: seq<OutFrame>)
    modifies transport
    ensures World(transport.Model(), transport.actions, out, served)
         == ApplyAll(World(old(transport.Model()), old(transport.actions), outbox, served), source, effects, now)
  {
    out := outbox;
    ghost var start := World(transport.Model(), transport.actions, outbox, served);
    assert effects[0..] == effects;
    for i := 0 to |effects|
      invariant ApplyAll(World(transport.Model(), transport.actions, out, served), source, effects[i..], now)
             == ApplyAll(start, source, effects, now)
    {
      assert effects[i..][0] == effects[i] && effects[i..][1..] == effects[i + 1..];
      match effects[i] {
        case SendTo(destination, priority, payload) =>
          if destination == source {
            transport.RequestData(priority, payload, now);
          } else {
            out := out + [IndividualFrame(destination, priority, payload)];
          }
        case SendToGroup(group, priority, payload) =>
          out := out + [GroupFrame(group, priority, payload)];
        case DropConnection =>
          transport.RequestDisconnect();
      }
    }
  }

  method DrainTransportActions(transport: TransportLayer, outbox: seq<OutFrame>, services: Services,
                               now: nat, served: nat) returns (out: seq<OutFrame>, after: nat)
    modifies transport
    ensures World(transport.Model(), transport.actions, out, after)
         == Drained(World(old(transport.Model()), old(transport.actions), outbox, served), services, now)
    ensures transport.actions == []
  {
    out, after := outbox, served;
    ghost var start := World(transport.Model(), transport.actions, outbox, served);
    while true
      invariant Drained(World(transport.Model(), transport.actions, out, after), services, now)
             == Drained(start, services, now)
      decreases Rank(transport.actions)
    {
      ghost var before := World(transport.Model(), transport.actions, out, after);
      var actions := transport.TakeActions();
      if actions == [] {
        return;
      }
      PassComesCloser(before, services, now);
      out, after := CarryOut(transport, out, actions, services, now, after);
    }
  }

  /** One pass over the actions that were taken. */
  method CarryOut(transport: TransportLayer, outbox: seq<OutFrame>, actions: seq<Action>,
                  services: Services, now: nat, served: nat) returns (out: seq<OutFrame>, after: nat)
    modifies transport
    ensures World(transport.Model(), transport.actions, out, after)
         == ActAll(World(old(transport.Model()), old(transport.actions), outbox, served), actions, services, now)
  {
    out, after := outbox, served;
    ghost var start := World(transport.Model(), transport.actions, outbox, served);
    assert actions[0..] == actions;
    for i := 0 to |actions|
      invariant ActAll(World(transport.Model(), transport.actions, out, after), actions[i..], services, now)
             == ActAll(start, actions, services, now)
    {
      assert actions[i..][0] == actions[i] && actions[i..][1..] == actions[i + 1..];
      match actions[i] {
        case SendControl(destination, control, seqNo) =>
          out := out + [ControlFrame(destination, control, seqNo)];
        case SendDataConnected(destination, seqNo, priority, apdu) =>
          out := out + [DataFrame(destination, seqNo, priority, apdu)];
        case DataConnectedIndication(source, _, apdu) =>
          out := ApplyEffects(transport, out, source, services(after, source, apdu), now, after);
          after := after + 1;
        case _ =>
      }
    }
  }

  // ── Acknowledgements come before answers ────────────────────────

  function FrameFor(a: Action): seq<OutFrame> {
    match a
    case SendControl(destination, control, seqNo) => [ControlFrame(destination, control, seqNo)]
    case SendDataConnected(destination, seqNo, priority, apdu) => [DataFrame(destination, seqNo, priority, apdu)]
    case _ => []
  }

  function FramesFor(actions: seq<Action>): seq<OutFrame> {
    if actions == [] then [] else FrameFor(actions[0]) + FramesFor(actions[1..])
  }

  lemma {:induction false} QuietActions(w: World, actions: seq<Action>, services: Services, now: nat)
    requires NoRequests(actions)
    ensures ActAll(w, actions, services, now) == w.(outbox := w.outbox + FramesFor(actions))
    decreases |actions|
  {
    if actions == [] {
      EmptyIsUnit(w.outbox);
    } else {
      var a := actions[0];
      QuietAction(w, a, services, now);
      QuietActions(Act(w, a, services, now), actions[1..], services, now);
      Associative(w.outbox, FrameFor(a), FramesFor(actions[1..]));
    }
  }

  lemma QuietAction(w: World, a: Action, services: Services, now: nat)
    requires !IsRequest(a)
    ensures Act(w, a, services, now) == w.(outbox := w.outbox + FrameFor(a))
  {
    EmptyIsUnit(w.outbox);
  }

  lemma {:induction false} ApplyAllKeepsOutbox(w: World, source: Address, es: seq<Effect>, now: nat)
    ensures w.outbox <= ApplyAll(w, source, es, now).outbox
    decreases |es|
  {
    if es != [] {
      ApplyAllKeepsOutbox(Apply(w, source, es[0], now), source, es[1..], now);
    }
  }

  lemma ActKeepsOutbox(w: World, a: Action, services: Services, now: nat)
    ensures w.outbox <= Act(w, a, services, now).outbox
  {
    if a.DataConnectedIndication? {
      ApplyAllKeepsOutbox(w, a.source, services(w.served, a.source, a.apdu), now);
    }
  }

  lemma {:induction false} ActAllKeepsOutbox(w: World, actions: seq<Action>, services: Services, now: nat)
    ensures w.outbox <= ActAll(w, actions, services, now).outbox
    decreases |actions|
  {
    if actions != [] {
      ActKeepsOutbox(w, actions[0], services, now);
      ActAllKeepsOutbox(Act(w, actions[0], services, now), actions[1..], services, now);
    }
  }

  /** Where the frame of a control action is put. */
  lemma {:induction false} ControlIsPut(w: World, actions: seq<Action>, i: nat, services: Services, now: nat) returns (k: nat)
    requires i < |actions| && actions[i].SendControl?
    ensures |w.outbox| <= k < |ActAll(w, actions, services, now).outbox|
    ensures [ActAll(w, actions, services, now).outbox[k]] == FrameFor(actions[i])
    decreases |actions|
  {
    var next := Act(w, actions[0], services, now);
    ActKeepsOutbox(w, actions[0], services, now);
    if i == 0 {
      k := |w.outbox|;
      ActAllKeepsOutbox(next, actions[1..], services, now);
    } else {
      k := ControlIsPut(next, actions[1..], i - 1, services, now);
    }
  }

  /** What the services queue in the first pass is sent in the second one, behind everything else. */
  lemma AnswersComeLast(w: World, services: Services, now: nat)
    ensures Drained(w, services, now).outbox
         == Pass(w, services, now).outbox + FramesFor(Pass(w, services, now).queue)
  {
    var first := Pass(w, services, now);
    TwoPassesDrain(w, services, now);
    ActAllQueuesNoRequest(w.(queue := []), w.queue, services, now);
    QuietActions(first.(queue := []), first.queue, services, now);
  }

  /**
   The acknowledgement of a request precedes its answer: a control frame that was queued when the
   draining began stands at a position `k` of the outbox that is before all frames that serving the
   requests has queued.
   */
  lemma AcknowledgedBeforeAnswered(w: World, i: nat, services: Services, now: nat) returns (k: nat)
    requires i < |w.queue| && w.queue[i].SendControl?
    ensures var first := Pass(w, services, now);
            && |w.outbox| <= k < |first.outbox|
            && Drained(w, services, now).outbox == first.outbox + FramesFor(first.queue)
            && [Drained(w, services, now).outbox[k]] == FrameFor(w.queue[i])
  {
    k := ControlIsPut(w.(queue := []), w.queue, i, services, now);
    AnswersComeLast(w, services, now);
  }

  /**
   A request with one answer, from the frame received to the outbox: the acknowledgement, and then
   the answer with the next sequence number if nothing awaits an acknowledgement; else the answer
   is kept for later.
   */
  lemma RequestIsAnswered(t: Layer, priority: Priority, apdu: Octets, outbox: seq<OutFrame>, served: nat,
                          services: Services, answer: Octets, now: nat)
    requires t.state == OpenIdle || t.state == OpenWait
    requires services(served, t.peer, apdu) == [SendTo(t.peer, System, answer)]
    ensures var s := Handle(t, DataInd(t.peer, t.seqRecv, priority, apdu), now);
            var after := Drained(World(s.layer, s.actions, outbox, served), services, now);
            var acknowledged := outbox + [ControlFrame(t.peer, Ack, t.seqRecv)];
            if t.state == OpenIdle then
              && after.outbox == acknowledged + [DataFrame(t.peer, t.seqSend, System, answer)]
              && after.layer.state == OpenWait && after.layer.saved == Some(SavedFrame(t.peer, t.seqSend, System, answer))
            else
              && after.outbox == acknowledged
              && after.layer.state == OpenWait && after.layer.buffered == Some(BufferedRequest(System, answer))
  {
    var s := Handle(t, DataInd(t.peer, t.seqRecv, priority, apdu), now);
    var w := World(s.layer, s.actions, outbox, served);
    TwoActions(w, SendControl(t.peer, Ack, t.seqRecv), DataConnectedIndication(t.peer, priority, apdu), services, now);
    var asked := Put(w.(queue := []), ControlFrame(t.peer, Ack, t.seqRecv));
    OneEffect(asked, t.peer, SendTo(t.peer, System, answer), now);
    var first := Pass(w, services, now);
    TwoPassesDrain(w, services, now);
    ActAllQueuesNoRequest(w.(queue := []), w.queue, services, now);
    QuietActions(first.(queue := []), first.queue, services, now);
    if t.state == OpenIdle {
      OneFrame(SendDataConnected(t.peer, t.seqSend, System, answer));
    } else {
      EmptyIsUnit(first.outbox);
    }
  }

  lemma OneFrame(a: Action)
    ensures FramesFor([a]) == FrameFor(a)
  {
    EmptyIsUnit(FrameFor(a));
  }

  lemma OneEffect(w: World, source: Address, e: Effect, now: nat)
    ensures ApplyAll(w, source, [e], now) == Apply(w, source, e, now)
  {
    assert ApplyAll(Apply(w, source, e, now), source, [], now) == Apply(w, source, e, now);
  }

  lemma TwoActions(w: World, a: Action, b: Action, services: Services, now: nat)
    requires w.queue == [a, b]
    ensures Pass(w, services, now) == Act(Act(w.(queue := []), a, services, now), b, services, now)
  {
    var start := w.(queue := []);
    var middle := Act(start, a, services, now);
    assert [a, b][1..] == [b] && [b][1..] == [];
    assert ActAll(start, [a, b], services, now) == ActAll(middle, [b], services, now);
    assert ActAll(middle, [b], services, now) == ActAll(Act(middle, b, services, now), [], services, now);
  }
}
