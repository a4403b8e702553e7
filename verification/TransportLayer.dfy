/**
 The connection-oriented transport layer (KNX 3/3/4) of one device.

 `Handle` gives the state machine as a function; the class `TransportLayer` keeps the
 same state in fields, as the device does, and every method is proved to take the
 step that `Handle` describes.
 */
module TransportLayer {
  import opened Basics

  const CONNECTION_TIMEOUT_MS: nat := 6000
  const ACK_TIMEOUT_MS: nat := 3000
  const MAX_REP_COUNT: nat := 3
  const SEQ_MODULUS: nat := 16

  datatype State = Closed | OpenIdle | OpenWait | Connecting

  datatype Control = Ack | Nack | Connect | Disconnect

  datatype Action =
    | SendControl(destination: Address, control: Control, seqNo: nat)
    | SendDataConnected(destination: Address, seqNo: nat, priority: Priority, apdu: Octets)
    | ConnectIndication(source: Address)
    | ConnectConfirm(destination: Address)
    | DisconnectIndication(address: Address)
    | DataConnectedIndication(source: Address, priority: Priority, apdu: Octets)
    | DataConnectedConfirm

  /** The frame kept for retransmission. */
  datatype SavedFrame = SavedFrame(destination: Address, seqNo: nat, priority: Priority, apdu: Octets)

  /** The one data request that waits while a connection is busy. */
  datatype BufferedRequest = BufferedRequest(priority: Priority, apdu: Octets)

  /** Everything that can happen to the layer, apart from the passing of time. */
  datatype Event =
    | ConnectInd(source: Address)
    | DisconnectInd(source: Address)
    | DataInd(source: Address, seqNo: nat, priority: Priority, apdu: Octets)
    | AckInd(source: Address, seqNo: nat)
    | NackInd(source: Address, seqNo: nat)
    | ConnectCon(success: bool)
    | DataReq(priority: Priority, apdu: Octets)
    | ConnectReq(destination: Address)
    | DisconnectReq
    | Poll

  datatype Layer = Layer(
    state: State,
    peer: Address,
    seqSend: nat,
    seqRecv: nat,
    repCount: nat,
    connectionDeadline: Option<nat>,
    ackDeadline: Option<nat>,
    saved: Option<SavedFrame>,
    buffered: Option<BufferedRequest>)

  /** A layer after an event, with the actions the event added to its queue. */
  datatype Step = Step(layer: Layer, actions: seq<Action>)

  const INITIAL: Layer := Layer(Closed, 0, 0, 0, 0, None, None, None, None)

  function NextSeq(s: nat): nat {
    (s + 1) % SEQ_MODULUS
  }

  function PrevSeq(s: nat): nat {
    (s + SEQ_MODULUS - 1) % SEQ_MODULUS
  }

  // ── The state machine as a function ─────────────────────────────

  /** Close because of an error, a timeout or a request, and tell the remote. */
  function ActivelyClosed(t: Layer): Step {
    Step(t.(state := Closed, connectionDeadline := None, ackDeadline := None),
         [SendControl(t.peer, Disconnect, 0), DisconnectIndication(t.peer)])
  }

  /** Put a fresh data frame on the wire and wait for its acknowledgement (A7). */
  function Sending(t: Layer, priority: Priority, apdu: Octets, now: nat): Step {
    Step(t.(state := OpenWait,
            saved := Some(SavedFrame(t.peer, t.seqSend, priority, apdu)),
            repCount := 0,
            ackDeadline := Some(now + ACK_TIMEOUT_MS),
            connectionDeadline := Some(now + CONNECTION_TIMEOUT_MS)),
         [SendDataConnected(t.peer, t.seqSend, priority, apdu)])
  }

  /** Put the saved frame on the wire again (A9). */
  function Resending(t: Layer, now: nat): Step {
    Step(t.(repCount := t.repCount + 1,
            ackDeadline := Some(now + ACK_TIMEOUT_MS),
            connectionDeadline := Some(now + CONNECTION_TIMEOUT_MS)),
         match t.saved
         case Some(f) => [SendDataConnected(f.destination, f.seqNo, f.priority, f.apdu)]
         case None => [])
  }

  /** Repeat the saved frame while repetitions are left, else give up. */
  function RetryOrClose(t: Layer, now: nat): Step {
    if t.repCount < MAX_REP_COUNT then Resending(t, now) else ActivelyClosed(t)
  }

  function OnConnect(t: Layer, source: Address, now: nat): Step {
    if t.state == Closed then
      Step(t.(state := OpenIdle, peer := source, seqSend := 0, seqRecv := 0,
              connectionDeadline := Some(now + CONNECTION_TIMEOUT_MS)),
           [ConnectIndication(source)])
    else if source == t.peer then
      Step(t, [])
    else
      Step(t, [SendControl(source, Disconnect, 0)])
  }

  function OnDisconnect(t: Layer, source: Address): Step {
    if source != t.peer || t.state == Closed then
      Step(t, [])
    else
      Step(t.(state := Closed, connectionDeadline := None, ackDeadline := None), [DisconnectIndication(source)])
  }

  /** What every frame from an address other than the connected one leads to. */
  function OnForeign(t: Layer, source: Address): Step {
    Step(t, if t.state == Connecting then [SendControl(source, Disconnect, 0)] else [])
  }

  function OnData(t: Layer, source: Address, seqNo: nat, priority: Priority, apdu: Octets, now: nat): Step {
    var alive := t.(connectionDeadline := Some(now + CONNECTION_TIMEOUT_MS));
    if source != t.peer then
      OnForeign(t, source)
    else if t.state == Closed then
      Step(t, [])
    else if t.state == Connecting then
      if seqNo == PrevSeq(t.seqRecv) then Step(alive, [SendControl(source, Ack, seqNo)]) else ActivelyClosed(t)
    else if seqNo == t.seqRecv then
      Step(alive.(seqRecv := NextSeq(t.seqRecv)),
           [SendControl(source, Ack, t.seqRecv), DataConnectedIndication(source, priority, apdu)])
    else if seqNo == PrevSeq(t.seqRecv) then
      Step(alive, [SendControl(source, Ack, seqNo)])
    else
      Step(alive, [SendControl(source, Nack, seqNo)])
  }

  function OnAck(t: Layer, source: Address, seqNo: nat, now: nat): Step {
    if source != t.peer then
      OnForeign(t, source)
    else
      match t.state
      case Closed | OpenIdle => Step(t, [])
      case Connecting => ActivelyClosed(t)
      case OpenWait =>
        if seqNo != t.seqSend then
          ActivelyClosed(t)
        else
          Step(t.(state := OpenIdle, seqSend := NextSeq(t.seqSend), saved := None, ackDeadline := None,
                  connectionDeadline := Some(now + CONNECTION_TIMEOUT_MS)),
               [DataConnectedConfirm])
  }

  function OnNack(t: Layer, source: Address, seqNo: nat, now: nat): Step {
    if source != t.peer then
      OnForeign(t, source)
    else
      match t.state
      case Closed => Step(t, [])
      case OpenIdle | Connecting => ActivelyClosed(t)
      case OpenWait => if seqNo != t.seqSend then Step(t, []) else RetryOrClose(t, now)
  }

  function OnConnectConfirm(t: Layer, success: bool): Step {
    if t.state != Connecting then
      Step(t, [])
    else if success then
      Step(t.(state := OpenIdle), [ConnectConfirm(t.peer)])
    else
      Step(t.(state := Closed, connectionDeadline := None, ackDeadline := None), [DisconnectIndication(t.peer)])
  }

  function OnDataRequest(t: Layer, priority: Priority, apdu: Octets, now: nat): Step {
    match t.state
    case Closed => Step(t, [])
    case OpenIdle => Sending(t, priority, apdu, now)
    case OpenWait | Connecting => Step(t.(buffered := Some(BufferedRequest(priority, apdu))), [])
  }

  function OnConnectRequest(t: Layer, destination: Address, now: nat): Step {
    if t.state == Closed then
      Step(t.(state := Connecting, peer := destination, seqSend := 0, seqRecv := 0,
              connectionDeadline := Some(now + CONNECTION_TIMEOUT_MS)),
           [SendControl(destination, Connect, 0)])
    else
      ActivelyClosed(t)
  }

  function OnDisconnectRequest(t: Layer): Step {
    if t.state == Closed then Step(t, [DisconnectIndication(t.peer)]) else ActivelyClosed(t)
  }

  predicate Due(deadline: Option<nat>, now: nat) {
    deadline.Some? && now >= deadline.value
  }

  function OnPoll(t: Layer, now: nat): Step {
    if Due(t.connectionDeadline, now) then
      var expired := t.(connectionDeadline := None);
      if t.state == Closed then Step(expired, []) else ActivelyClosed(expired)
    else if Due(t.ackDeadline, now) && t.state == OpenWait then
      RetryOrClose(t.(ackDeadline := None), now)
    else if t.state == OpenIdle && t.buffered.Some? then
      Sending(t.(buffered := None), t.buffered.value.priority, t.buffered.value.apdu, now)
    else
      Step(t, [])
  }

  /** One event, at time `now`. */
  function Handle(t: Layer, e: Event, now: nat): Step {
    match e
    case ConnectInd(source) => OnConnect(t, source, now)
    case DisconnectInd(source) => OnDisconnect(t, source)
    case DataInd(source, seqNo, priority, apdu) => OnData(t, source, seqNo, priority, apdu, now)
    case AckInd(source, seqNo) => OnAck(t, source, seqNo, now)
    case NackInd(source, seqNo) => OnNack(t, source, seqNo, now)
    case ConnectCon(success) => OnConnectConfirm(t, success)
    case DataReq(priority, apdu) => OnDataRequest(t, priority, apdu, now)
    case ConnectReq(destination) => OnConnectRequest(t, destination, now)
    case DisconnectReq => OnDisconnectRequest(t)
    case Poll => OnPoll(t, now)
  }

  // ── The device's own form ───────────────────────────────────────

  class TransportLayer {
    var state: State
    var connectionAddress: Address
    var seqNoSend: nat
    var seqNoRecv: nat
    var repCount: nat
    var connectionTimeoutDeadline: Option<nat>
    var ackTimeoutDeadline: Option<nat>
    var savedFrame: Option<SavedFrame>
    var bufferedRequest: Option<BufferedRequest>
    var actions: seq<Action>

    ghost function Model(): Layer
      reads this
    {
      Layer(state, connectionAddress, seqNoSend, seqNoRecv, repCount,
            connectionTimeoutDeadline, ackTimeoutDeadline, savedFrame, bufferedRequest)
    }

    /** The object went from the state `before`, with queue `queue`, through step `s`. */
    ghost predicate Took(before: seq<Action>, s: Step)
      reads this
    {
      Model() == s.layer && actions == before + s.actions
    }

    constructor ()
      ensures Model() == INITIAL && actions == []
    {
      state, connectionAddress := Closed, 0;
      seqNoSend, seqNoRecv, repCount := 0, 0, 0;
      connectionTimeoutDeadline, ackTimeoutDeadline := None, None;
      savedFrame, bufferedRequest := None, None;
      actions := [];
    }

    method TakeActions() returns (taken: seq<Action>)
      modifies this`actions
      ensures taken == old(actions) && actions == []
    {
      taken := actions;
      actions := [];
    }

    method ReceiveConnect(source: Address, now: nat)
      modifies this
      ensures Took(old(actions), Handle(old(Model()), ConnectInd(source), now))
    {
      if state == Closed {
        AcceptConnection(source, now);
      } else if source != connectionAddress {
        RejectForeign(source);
      }
    }

    method ReceiveDisconnect(source: Address)
      modifies this
      ensures forall now: nat :: Took(old(actions), Handle(old(Model()), DisconnectInd(source), now))
    {
      if source != connectionAddress || state == Closed {
        return;
      }
      PassiveDisconnect(source);
      state := Closed;
    }

    method ReceiveData(source: Address, seqNo: nat, priority: Priority, apdu: Octets, now: nat)
      modifies this
      ensures Took(old(actions), Handle(old(Model()), DataInd(source, seqNo, priority, apdu), now))
    {
      if source != connectionAddress {
        if state == Connecting {
          RejectForeign(source);
        }
        return;
      }
      var prevSeq := (seqNoRecv + 15) % 16;
      match state {
        case Closed =>
        case OpenIdle | OpenWait =>
          if seqNo == seqNoRecv {
            AcceptData(source, priority, apdu, now);
          } else if seqNo == prevSeq {
            AcknowledgeRepeated(source, seqNo, now);
          } else {
            RefuseSequence(source, seqNo, now);
          }
        case Connecting =>
          if seqNo == prevSeq {
            AcknowledgeRepeated(source, seqNo, now);
          } else {
            ActiveDisconnect();
            state := Closed;
          }
      }
    }

    method ReceiveAck(source: Address, seqNo: nat, now: nat)
      modifies this
      ensures Took(old(actions), Handle(old(Model()), AckInd(source, seqNo), now))
    {
      if source != connectionAddress {
        if state == Connecting {
          RejectForeign(source);
        }
        return;
      }
      match state {
        case Closed | OpenIdle =>
        case OpenWait =>
          if seqNo == seqNoSend {
            CompleteSend(now);
            state := OpenIdle;
          } else {
            ActiveDisconnect();
            state := Closed;
          }
        case Connecting =>
          ActiveDisconnect();
          state := Closed;
      }
    }

    method ReceiveNack(source: Address, seqNo: nat, now: nat)
      modifies this
      ensures Took(old(actions), Handle(old(Model()), NackInd(source, seqNo), now))
    {
      if source != connectionAddress {
        if state == Connecting {
          RejectForeign(source);
        }
        return;
      }
      match state {
        case Closed =>
        case OpenIdle | Connecting =>
          ActiveDisconnect();
          state := Closed;
        case OpenWait =>
          if seqNo != seqNoSend {
            return;
          }
          if repCount < MAX_REP_COUNT {
            Retransmit(now);
          } else {
            ActiveDisconnect();
            state := Closed;
          }
      }
    }

    method ConfirmConnect(success: bool)
      modifies this
      ensures forall now: nat :: Took(old(actions), Handle(old(Model()), ConnectCon(success), now))
    {
      if state == Connecting {
        if success {
          actions := actions + [ConnectConfirm(connectionAddress)];
          state := OpenIdle;
        } else {
          PassiveDisconnect(connectionAddress);
          state := Closed;
        }
      }
    }

    method RequestData(priority: Priority, apdu: Octets, now: nat)
      modifies this
      ensures Took(old(actions), Handle(old(Model()), DataReq(priority, apdu), now))
    {
      match state {
        case Closed =>
        case OpenIdle =>
          SendData(priority, apdu, now);
          state := OpenWait;
        case OpenWait | Connecting =>
          bufferedRequest := Some(BufferedRequest(priority, apdu));
      }
    }

    method RequestConnect(destination: Address, now: nat)
      modifies this
      ensures Took(old(actions), Handle(old(Model()), ConnectReq(destination), now))
    {
      if state == Closed {
        InitiateConnection(destination, now);
        state := Connecting;
      } else {
        ActiveDisconnect();
        state := Closed;
      }
    }

    method RequestDisconnect()
      modifies this
      ensures forall now: nat :: Took(old(actions), Handle(old(Model()), DisconnectReq, now))
    {
      if state == Closed {
        actions := actions + [DisconnectIndication(connectionAddress)];
      } else {
        ActiveDisconnect();
        state := Closed;
      }
    }

    method PollTimers(now: nat)
      modifies this
      ensures Took(old(actions), Handle(old(Model()), Poll, now))
    {
      if connectionTimeoutDeadline.Some? && now >= connectionTimeoutDeadline.value {
        connectionTimeoutDeadline := None;
        if state != Closed {
          ActiveDisconnect();
          state := Closed;
        }
        return;
      }
      if ackTimeoutDeadline.Some? && now >= ackTimeoutDeadline.value && state == OpenWait {
        ackTimeoutDeadline := None;
        if repCount < MAX_REP_COUNT {
          Retransmit(now);
        } else {
          ActiveDisconnect();
          state := Closed;
        }
        return;
      }
      if state == OpenIdle && bufferedRequest.Some? {
        var request := bufferedRequest.value;
        bufferedRequest := None;
        SendData(request.priority, request.apdu, now);
        state := OpenWait;
      }
    }

    // The actions A1 to A12 of the state machine.

    method AcceptConnection(source: Address, now: nat)
      modifies this
      ensures Model() == old(Model()).(state := OpenIdle, peer := source, seqSend := 0, seqRecv := 0,
                                       connectionDeadline := Some(now + CONNECTION_TIMEOUT_MS))
      ensures actions == old(actions) + [ConnectIndication(source)]
    {
      connectionAddress := source;
      seqNoSend := 0;
      seqNoRecv := 0;
      connectionTimeoutDeadline := Some(now + CONNECTION_TIMEOUT_MS);
      actions := actions + [ConnectIndication(source)];
      state := OpenIdle;
    }

    method AcceptData(source: Address, priority: Priority, apdu: Octets, now: nat)
      modifies this
      ensures Model() == old(Model()).(seqRecv := NextSeq(old(seqNoRecv)),
                                       connectionDeadline := Some(now + CONNECTION_TIMEOUT_MS))
      ensures actions == old(actions) + [SendControl(source, Ack, old(seqNoRecv)),
                                         DataConnectedIndication(source, priority, apdu)]
    {
      actions := actions + [SendControl(source, Ack, seqNoRecv)];
      seqNoRecv := (seqNoRecv + 1) % 16;
      connectionTimeoutDeadline := Some(now + CONNECTION_TIMEOUT_MS);
      actions := actions + [DataConnectedIndication(source, priority, apdu)];
    }

    method AcknowledgeRepeated(source: Address, seqNo: nat, now: nat)
      modifies this
      ensures Model() == old(Model()).(connectionDeadline := Some(now + CONNECTION_TIMEOUT_MS))
      ensures actions == old(actions) + [SendControl(source, Ack, seqNo)]
    {
      actions := actions + [SendControl(source, Ack, seqNo)];
      connectionTimeoutDeadline := Some(now + CONNECTION_TIMEOUT_MS);
    }

    method RefuseSequence(source: Address, seqNo: nat, now: nat)
      modifies this
      ensures Model() == old(Model()).(connectionDeadline := Some(now + CONNECTION_TIMEOUT_MS))
      ensures actions == old(actions) + [SendControl(source, Nack, seqNo)]
    {
      actions := actions + [SendControl(source, Nack, seqNo)];
      connectionTimeoutDeadline := Some(now + CONNECTION_TIMEOUT_MS);
    }

    method PassiveDisconnect(address: Address)
      modifies this
      ensures Model() == old(Model()).(connectionDeadline := None, ackDeadline := None)
      ensures actions == old(actions) + [DisconnectIndication(address)]
    {
      connectionTimeoutDeadline := None;
      ackTimeoutDeadline := None;
      actions := actions + [DisconnectIndication(address)];
    }

    method ActiveDisconnect()
      modifies this
      ensures Model() == old(Model()).(connectionDeadline := None, ackDeadline := None)
      ensures actions == old(actions) + [SendControl(old(connectionAddress), Disconnect, 0),
                                         DisconnectIndication(old(connectionAddress))]
    {
      actions := actions + [SendControl(connectionAddress, Disconnect, 0)];
      actions := actions + [DisconnectIndication(connectionAddress)];
      connectionTimeoutDeadline := None;
      ackTimeoutDeadline := None;
    }

    method SendData(priority: Priority, apdu: Octets, now: nat)
      modifies this
      ensures Model() == Sending(old(Model()), priority, apdu, now).layer.(state := old(state))
      ensures actions == old(actions) + Sending(old(Model()), priority, apdu, now).actions
    {
      savedFrame := Some(SavedFrame(connectionAddress, seqNoSend, priority, apdu));
      actions := actions + [SendDataConnected(connectionAddress, seqNoSend, priority, apdu)];
      repCount := 0;
      ackTimeoutDeadline := Some(now + ACK_TIMEOUT_MS);
      connectionTimeoutDeadline := Some(now + CONNECTION_TIMEOUT_MS);
    }

    method CompleteSend(now: nat)
      modifies this
      ensures Model() == old(Model()).(ackDeadline := None, seqSend := NextSeq(old(seqNoSend)), saved := None,
                                       connectionDeadline := Some(now + CONNECTION_TIMEOUT_MS))
      ensures actions == old(actions) + [DataConnectedConfirm]
    {
      ackTimeoutDeadline := None;
      seqNoSend := (seqNoSend + 1) % 16;
      savedFrame := None;
      connectionTimeoutDeadline := Some(now + CONNECTION_TIMEOUT_MS);
      actions := actions + [DataConnectedConfirm];
    }

    method Retransmit(now: nat)
      modifies this
      ensures Took(old(actions), Resending(old(Model()), now))
    {
      if savedFrame.Some? {
        var frame := savedFrame.value;
        actions := actions + [SendDataConnected(frame.destination, frame.seqNo, frame.priority, frame.apdu)];
      }
      repCount := repCount + 1;
      ackTimeoutDeadline := Some(now + ACK_TIMEOUT_MS);
      connectionTimeoutDeadline := Some(now + CONNECTION_TIMEOUT_MS);
    }

    method RejectForeign(source: Address)
      modifies this`actions
      ensures actions == old(actions) + [SendControl(source, Disconnect, 0)]
    {
      actions := actions + [SendControl(source, Disconnect, 0)];
    }

    method InitiateConnection(destination: Address, now: nat)
      modifies this
      ensures Model() == old(Model()).(peer := destination, seqSend := 0, seqRecv := 0,
                                       connectionDeadline := Some(now + CONNECTION_TIMEOUT_MS))
      ensures actions == old(actions) + [SendControl(destination, Connect, 0)]
    {
      connectionAddress := destination;
      seqNoSend := 0;
      seqNoRecv := 0;
      actions := actions + [SendControl(destination, Connect, 0)];
      connectionTimeoutDeadline := Some(now + CONNECTION_TIMEOUT_MS);
    }
  }
}
