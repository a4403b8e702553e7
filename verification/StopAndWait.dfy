/**
 Stop-and-wait with wrapping sequence numbers over channels that keep their order but may
 lose and repeat messages. Both the transport layer (four bits) and KNXnet/IP tunnelling
 (eight bits) transfer data this way.
 */
module StopAndWait {

  /** `T` is what numbered messages carry, `S` whatever else travels on the channel. */
  datatype Message<T, S> =
    | Numbered(seqNo: nat, payload: T)
    | Acknowledged(seqNo: nat)
    | Signal(signal: S)

  /**
   A message under way. `index` is a history variable: which of the sender's distinct payloads a
   numbered message carries, and which payload an acknowledgement is for. No party ever sees it.
   */
  datatype Packet<T, S> = Packet(message: Message<T, S>, index: nat)

  /** Data under way: each is one of `sent`, none older than number `floor - 1`, in order. */
  ghost predicate DataInOrder<T(!new), S(!new)>(channel: seq<Packet<T, S>>, sent: seq<T>, floor: nat, modulus: nat)
    requires modulus > 0
  {
    && (forall i :: 0 <= i < |channel| && channel[i].message.Numbered? ==>
         && channel[i].index < |sent|
         && floor <= channel[i].index + 1
         && channel[i].message == Numbered(channel[i].index % modulus, sent[channel[i].index]))
    && (forall i, j :: 0 <= i < j < |channel| && channel[i].message.Numbered? && channel[j].message.Numbered? ==>
         channel[i].index <= channel[j].index)
  }

  /** Acknowledgements under way: each for one of `received` payloads, none older than `floor - 1`, in order. */
  ghost predicate AcksInOrder<T(!new), S(!new)>(channel: seq<Packet<T, S>>, received: nat, floor: nat, modulus: nat)
    requires modulus > 0
  {
    && (forall i :: 0 <= i < |channel| && channel[i].message.Acknowledged? ==>
         && channel[i].index < received
         && floor <= channel[i].index + 1
         && channel[i].message.seqNo == channel[i].index % modulus)
    && (forall i, j | 0 <= i < j < |channel| ::
         channel[i].message.Acknowledged? && channel[j].message.Acknowledged? ==>
           channel[i].index <= channel[j].index)
  }

  function Without<P>(channel: seq<P>, k: nat): seq<P>
    requires k < |channel|
  {
    channel[..k] + channel[k + 1..]
  }

  lemma FewerInOrder<T(!new), S(!new)>(channel: seq<Packet<T, S>>, k: nat, sent: seq<T>, dataFloor: nat,
                                       received: nat, ackFloor: nat, modulus: nat)
    requires k < |channel| && modulus > 0
    ensures DataInOrder(channel, sent, dataFloor, modulus)
            ==> DataInOrder(Without(channel, k), sent, dataFloor, modulus)
    ensures AcksInOrder(channel, received, ackFloor, modulus)
            ==> AcksInOrder(Without(channel, k), received, ackFloor, modulus)
  {
    var rest := Without(channel, k);
    assert forall i :: 0 <= i < |rest| ==> rest[i] == channel[if i < k then i else i + 1];
  }

  /** The channel after its first message was taken, or after only a copy of it was. */
  ghost predicate Rest<P>(channel: seq<P>, rest: seq<P>) {
    channel != [] && (rest == channel || rest == channel[1..])
  }

  /** Once data number `k` is first, nothing behind it is older. */
  lemma DataFloorRises<T(!new), S(!new)>(channel: seq<Packet<T, S>>, rest: seq<Packet<T, S>>, sent: seq<T>,
                                         floor: nat, modulus: nat)
    requires modulus > 0 && DataInOrder(channel, sent, floor, modulus)
    requires Rest(channel, rest) && channel[0].message.Numbered?
    ensures DataInOrder(rest, sent, channel[0].index + 1, modulus)
  {
  }

  lemma AckFloorRises<T(!new), S(!new)>(channel: seq<Packet<T, S>>, rest: seq<Packet<T, S>>, received: nat,
                                        floor: nat, modulus: nat)
    requires modulus > 0 && AcksInOrder(channel, received, floor, modulus)
    requires Rest(channel, rest) && channel[0].message.Acknowledged?
    ensures AcksInOrder(rest, received, channel[0].index + 1, modulus)
  {
  }

  /** Appending copies of the newest payload, or no data at all, keeps data in order. */
  lemma DataStaysInOrder<T(!new), S(!new)>(channel: seq<Packet<T, S>>, added: seq<Packet<T, S>>, sent: seq<T>,
                                           more: seq<T>, floor: nat, modulus: nat)
    requires modulus > 0 && DataInOrder(channel, sent, floor, modulus)
    requires sent <= more && floor <= |more|
    requires forall p :: p in added && p.message.Numbered? ==>
               && more != [] && p.index == |more| - 1
               && p.message == Numbered(p.index % modulus, more[p.index])
    ensures DataInOrder(channel + added, more, floor, modulus)
  {
    var all := channel + added;
    forall i | 0 <= i < |all| && all[i].message.Numbered?
      ensures && all[i].index < |more|
              && floor <= all[i].index + 1
              && all[i].message == Numbered(all[i].index % modulus, more[all[i].index])
    {
      assert i < |channel| ==> all[i] == channel[i];
      assert i >= |channel| ==> all[i] in added;
    }
    forall i, j | 0 <= i < j < |all| && all[i].message.Numbered? && all[j].message.Numbered?
      ensures all[i].index <= all[j].index
    {
      assert j < |channel| ==> all[j] == channel[j] && all[i] == channel[i];
      assert j >= |channel| ==> all[j] in added;
    }
  }

  /** Appending acknowledgements of the newest payload, or none at all, keeps them in order. */
  lemma AcksStayInOrder<T(!new), S(!new)>(channel: seq<Packet<T, S>>, added: seq<Packet<T, S>>, before: nat,
                                          received: nat, floor: nat, modulus: nat)
    requires modulus > 0 && AcksInOrder(channel, before, floor, modulus)
    requires before <= received && floor <= received
    requires forall p :: p in added && p.message.Acknowledged? ==>
               0 < received && p.index == received - 1 && p.message.seqNo == p.index % modulus
    ensures AcksInOrder(channel + added, received, floor, modulus)
  {
    var all := channel + added;
    forall i | 0 <= i < |all| && all[i].message.Acknowledged?
      ensures && all[i].index < received
              && floor <= all[i].index + 1
              && all[i].message.seqNo == all[i].index % modulus
    {
      assert i < |channel| ==> all[i] == channel[i];
      assert i >= |channel| ==> all[i] in added;
    }
    forall i, j | 0 <= i < j < |all| && all[i].message.Acknowledged? && all[j].message.Acknowledged?
      ensures all[i].index <= all[j].index
    {
      assert j < |channel| ==> all[j] == channel[j] && all[i] == channel[i];
      assert j >= |channel| ==> all[j] in added;
    }
  }

  /** With four or eight bits, the wrapped numbers of two neighbouring payloads differ. */
  lemma NeighboursDiffer(k: nat, m: nat, modulus: nat)
    requires k <= m <= k + 1 && (modulus == 16 || modulus == 256)
    ensures k % modulus == m % modulus <==> k == m
    ensures (k + 1) % modulus == (k % modulus + 1) % modulus
  {
    if modulus == 16 {
      assert k % 16 == m % 16 <==> k == m;
    } else {
      assert k % 256 == m % 256 <==> k == m;
    }
  }
}
