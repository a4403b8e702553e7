/**
 Group objects and the polling loop that sends what the application has written or wants to read.
 Resolving group addresses and encoding values are partial functions of the device.
 */
module GroupObjects {
  import opened Basics

  const U16_MAX: nat := 0xFFFF

  datatype ComFlag = Updated | ReadRequest | WriteRequest | Transmitting | Okay | Failed | Uninitialized

  datatype GroupObject = GroupObject(asap: nat, flag: ComFlag, data: Octets, dpt: Option<nat>)

  function NewObject(asap: nat, size: nat): GroupObject {
    GroupObject(asap, Uninitialized, Zeros(size), None)
  }

  function Zeros(n: nat): (r: Octets)
    ensures |r| == n && forall i :: 0 <= i < n ==> r[i] == 0
  {
    seq(n, _ => 0)
  }

  /** What the tables and the codec of the device say. */
  datatype Device = Device(
    address: nat -> Option<nat>,
    encode: (Option<nat>, Octets) -> Option<Octets>)

  datatype GroupFrame = ValueWrite(group: nat, payload: Octets) | ValueRead(group: nat)

  // ── What polling does to one object ─────────────────────────────

  predicate IsPending(o: GroupObject) {
    o.flag == WriteRequest || o.flag == ReadRequest
  }

  /** The frame a pending object sends, if it resolves to an address and its value encodes. */
  function FrameOf(d: Device, o: GroupObject): Option<GroupFrame> {
    match d.address(o.asap)
    case None => None
    case Some(group) =>
      if o.flag == ReadRequest then Some(ValueRead(group))
      else
        match d.encode(o.dpt, o.data)
        case None => None
        case Some(payload) => Some(ValueWrite(group, payload))
  }

  function Outcome(d: Device, o: GroupObject): GroupObject {
    if !IsPending(o) then o
    else o.(flag := if FrameOf(d, o).Some? then Transmitting else Failed)
  }

  function Polled(d: Device, objects: seq<GroupObject>): (r: seq<GroupObject>)
    ensures |r| == |objects|
  {
    seq(|objects|, i requires 0 <= i < |objects| => Outcome(d, objects[i]))
  }

  predicate Sends(d: Device, o: GroupObject) {
    IsPending(o) && FrameOf(d, o).Some?
  }

  function Sent(d: Device, o: GroupObject): seq<GroupFrame> {
    if Sends(d, o) then [FrameOf(d, o).value] else []
  }

  /** The frames of all objects in ascending order. */
  function Frames(d: Device, objects: seq<GroupObject>): seq<GroupFrame> {
    if objects == [] then [] else Sent(d, objects[0]) + Frames(d, objects[1..])
  }

  /** Objects are found by their number: the first has number 1. */
  predicate Numbered(objects: seq<GroupObject>) {
    |objects| <= U16_MAX && forall i :: 0 <= i < |objects| ==> objects[i].asap == i + 1
  }

  function PendingCount(objects: seq<GroupObject>): nat {
    if objects == [] then 0 else (if IsPending(objects[0]) then 1 else 0) + PendingCount(objects[1..])
  }

  predicate NonePending(objects: seq<GroupObject>) {
    forall i :: 0 <= i < |objects| ==> !IsPending(objects[i])
  }

  // ── The store ───────────────────────────────────────────────────

  /** The number of the first pending object, if that is where it says. */
  function FirstPending(objects: seq<GroupObject>): (p: Option<nat>)
    ensures p.None? ==> NonePending(objects)
    ensures p.Some? ==> p.value < |objects| && IsPending(objects[p.value]) && NonePending(objects[..p.value])
  {
    if objects == [] then None
    else if IsPending(objects[0]) then Some(0)
    else
      match FirstPending(objects[1..])
      case None =>
        assert forall i :: 1 <= i < |objects| ==> objects[i] == objects[1..][i - 1];
        None
      case Some(k) =>
        assert objects[..k + 1] == [objects[0]] + objects[1..][..k];
        Some(k + 1)
  }

  /** The objects after the table was loaded: as many as it has entries, with the sizes it gives. */
  function Reinitialized(objects: seq<GroupObject>, sizes: seq<Option<nat>>): (r: seq<GroupObject>)
    ensures |r| == |sizes|
  {
    seq(|sizes|, i requires 0 <= i < |sizes| =>
      Resized(if i < |objects| then objects[i] else NewObject(i + 1, 1), sizes[i]))
  }

  function Resized(o: GroupObject, size: Option<nat>): GroupObject {
    if size.None? then o
    else if size.value <= |o.data| then o.(data := o.data[..size.value])
    else o.(data := o.data + Zeros(size.value - |o.data|))
  }

  class GroupObjectStore {
    var objects: seq<GroupObject>

    constructor (count: nat, defaultSize: nat)
      requires count <= U16_MAX
      ensures Numbered(objects) && |objects| == count && NonePending(objects)
      ensures forall i :: 0 <= i < count ==> objects[i] == NewObject(i + 1, defaultSize)
    {
      objects := seq(count, i requires 0 <= i < count => NewObject(i + 1, defaultSize));
    }

    function Get(asap: nat): (o: Option<GroupObject>)
      reads this
    {
      if asap == 0 || asap - 1 >= |objects| then None else Some(objects[asap - 1])
    }

    /** Walks over the objects to the first pending one, and gives its number. */
    method NextPending() returns (asap: Option<nat>)
      ensures match FirstPending(objects)
              case None => asap.None?
              case Some(k) => asap == Some(objects[k].asap)
    {
      for i := 0 to |objects|
        invariant FirstPending(objects)
               == match FirstPending(objects[i..]) case None => None case Some(k) => Some(i + k)
      {
        assert objects[i..][0] == objects[i] && objects[i..][1..] == objects[i + 1..];
        if IsPending(objects[i]) {
          return Some(objects[i].asap);
        }
      }
      return None;
    }

    method SetCommFlag(asap: nat, flag: ComFlag)
      modifies this
      ensures objects == if 0 < asap <= |old(objects)| then old(objects)[asap - 1 := old(objects)[asap - 1].(flag := flag)]
                         else old(objects)
    {
      if 0 < asap <= |objects| {
        objects := objects[asap - 1 := objects[asap - 1].(flag := flag)];
      }
    }

    /** Adds or removes objects until there is one for each entry of the table, and adapts their data. */
    method ReinitializeFromTable(sizes: seq<Option<nat>>)
      requires Numbered(objects) && |sizes| <= U16_MAX
      modifies this
      ensures objects == Reinitialized(old(objects), sizes) && Numbered(objects)
    {
      ghost var before := objects;
      while |objects| < |sizes|
        invariant |objects| <= U16_MAX && before <= objects
        invariant forall i :: |before| <= i < |objects| ==> objects[i] == NewObject(i + 1, 1)
        invariant |before| <= |sizes| ==> |objects| <= |sizes|
        invariant |sizes| < |before| ==> objects == before
      {
        objects := objects + [NewObject(|objects| + 1, 1)];
      }
      objects := objects[..|sizes|];
      ghost var bare := objects;
      for i := 0 to |sizes|
        invariant |objects| == |sizes|
        invariant forall k :: 0 <= k < i ==> objects[k] == Resized(bare[k], sizes[k])
        invariant forall k :: i <= k < |sizes| ==> objects[k] == bare[k]
      {
        objects := objects[i := Resized(objects[i], sizes[i])];
      }
    }
  }

  // ── The loop ────────────────────────────────────────────────────

  /**
   Send what is pending. The loop ends with no object pending; it sends one frame for each formerly
   pending object that resolves and encodes, in ascending order, leaves those transmitting and the
   other pending ones failed, and no other object is touched.
   */
  method Poll(d: Device, configured: bool, store: GroupObjectStore, outbox: seq<GroupFrame>) returns (out: seq<GroupFrame>)
    requires Numbered(store.objects)
    modifies store
    ensures !configured ==> store.objects == old(store.objects) && out == outbox
    ensures configured ==> store.objects == Polled(d, old(store.objects)) && NonePending(store.objects)
                           && out == outbox + Frames(d, old(store.objects))
    ensures Numbered(store.objects)
  {
    out := outbox;
    if !configured {
      return;
    }
    EmptyIsUnit(outbox);
    ghost var all := Frames(d, store.objects);
    while true
      invariant Numbered(store.objects) && Polled(d, store.objects) == Polled(d, old(store.objects))
      invariant out + Frames(d, store.objects) == outbox + all
      decreases PendingCount(store.objects)
    {
      var next := store.NextPending();
      if next.None? {
        NothingPending(d, store.objects);
        EmptyIsUnit(out);
        return;
      }
      ghost var k := FirstPending(store.objects).value;
      var go := store.Get(next.value);
      FirstSends(d, store.objects, k);
      Associative(out, Sent(d, store.objects[k]), Frames(d, store.objects[k := Outcome(d, store.objects[k])]));
      var newFlag := Failed;
      var frame := FrameOf(d, go.value);
      EmptyIsUnit(out);
      if frame.Some? {
        out := out + [frame.value];
        newFlag := Transmitting;
      }
      store.SetCommFlag(next.value, newFlag);
    }
  }

  lemma {:induction false} NothingPending(d: Device, objects: seq<GroupObject>)
    requires NonePending(objects)
    ensures Polled(d, objects) == objects && Frames(d, objects) == []
  {
    if objects != [] {
      assert forall i :: 0 <= i < |objects| - 1 ==> objects[1..][i] == objects[i + 1];
      NothingPending(d, objects[1..]);
    }
  }

  /** The first pending object sends first; afterwards it is not pending, and the others are as before. */
  lemma {:induction false} FirstSends(d: Device, objects: seq<GroupObject>, k: nat)
    requires k < |objects| && IsPending(objects[k]) && NonePending(objects[..k])
    ensures var after := objects[k := Outcome(d, objects[k])];
            && Frames(d, objects) == Sent(d, objects[k]) + Frames(d, after)
            && Polled(d, after) == Polled(d, objects)
            && PendingCount(after) < PendingCount(objects)
  {
    var after := objects[k := Outcome(d, objects[k])];
    if k == 0 {
      assert after[1..] == objects[1..];
      EmptyIsUnit(Frames(d, after[1..]));
    } else {
      assert objects[..k] == [objects[0]] + objects[1..][..k - 1];
      assert objects[..k][0] == objects[0];
      assert after[1..] == objects[1..][k - 1 := Outcome(d, objects[k])];
      FirstSends(d, objects[1..], k - 1);
      EmptyIsUnit(Frames(d, objects[1..]));
      EmptyIsUnit(Frames(d, after[1..]));
    }
  }

  // ── Who sends ───────────────────────────────────────────────────

  /** The numbers of the objects that send. */
  function Senders(d: Device, objects: seq<GroupObject>): seq<nat> {
    if objects == [] then []
    else (if Sends(d, objects[0]) then [objects[0].asap] else []) + Senders(d, objects[1..])
  }

  predicate NumberedFrom(objects: seq<GroupObject>, first: nat) {
    forall i :: 0 <= i < |objects| ==> objects[i].asap == first + i
  }

  lemma {:induction false} SendersAre(d: Device, objects: seq<GroupObject>, first: nat, asap: nat)
    requires NumberedFrom(objects, first)
    ensures asap in Senders(d, objects) <==> first <= asap < first + |objects| && Sends(d, objects[asap - first])
  {
    if objects != [] {
      Later(objects, first);
      SendersAre(d, objects[1..], first + 1, asap);
    }
  }

  lemma Later(objects: seq<GroupObject>, first: nat)
    requires objects != [] && NumberedFrom(objects, first)
    ensures NumberedFrom(objects[1..], first + 1)
  {
    assert forall i :: 0 <= i < |objects| - 1 ==> objects[1..][i] == objects[i + 1];
  }

  lemma {:induction false} SendersAscend(d: Device, objects: seq<GroupObject>, first: nat)
    requires NumberedFrom(objects, first)
    ensures forall i, j :: 0 <= i < j < |Senders(d, objects)| ==> Senders(d, objects)[i] < Senders(d, objects)[j]
  {
    if objects != [] {
      Later(objects, first);
      var more := Senders(d, objects[1..]);
      SendersAscend(d, objects[1..], first + 1);
      forall i | 0 <= i < |more| ensures first < more[i] {
        SendersAre(d, objects[1..], first + 1, more[i]);
      }
    }
  }

  /** What the object has to send: its value, or a request for one, to the group it resolves to. */
  predicate HasToSend(d: Device, o: GroupObject, frame: GroupFrame) {
    match frame
    case ValueWrite(group, payload) =>
      o.flag == WriteRequest && d.address(o.asap) == Some(group) && d.encode(o.dpt, o.data) == Some(payload)
    case ValueRead(group) => o.flag == ReadRequest && d.address(o.asap) == Some(group)
  }

  /** The object is pending and resolves, and if it is a write, its value encodes. */
  predicate CanSend(d: Device, o: GroupObject) {
    d.address(o.asap).Some? && (o.flag == ReadRequest || (o.flag == WriteRequest && d.encode(o.dpt, o.data).Some?))
  }

  /** The object with a number sends this frame. */
  predicate SendsFrame(d: Device, objects: seq<GroupObject>, first: nat, asap: nat, frame: GroupFrame) {
    first <= asap < first + |objects| && HasToSend(d, objects[asap - first], frame)
  }

  /** A pending write contributes its encoded value. */
  lemma WriteSends(d: Device, o: GroupObject, group: nat, payload: Octets)
    requires o.flag == WriteRequest && d.address(o.asap) == Some(group) && d.encode(o.dpt, o.data) == Some(payload)
    ensures Sent(d, o) == [ValueWrite(group, payload)] && Outcome(d, o) == o.(flag := Transmitting)
  {
  }

  /** A pending read contributes a request, whatever its value. */
  lemma ReadSends(d: Device, o: GroupObject, group: nat)
    requires o.flag == ReadRequest && d.address(o.asap) == Some(group)
    ensures Sent(d, o) == [ValueRead(group)] && Outcome(d, o) == o.(flag := Transmitting)
  {
  }

  /** A pending object fails exactly if it does not resolve, or is a write that does not encode; it sends nothing then. */
  lemma FailsExactlyWhen(d: Device, o: GroupObject)
    requires o.flag == WriteRequest || o.flag == ReadRequest
    ensures Outcome(d, o) == o.(flag := Failed)
            <==> d.address(o.asap).None? || (o.flag == WriteRequest && d.encode(o.dpt, o.data).None?)
    ensures Outcome(d, o) == o.(flag := Failed) ==> Sent(d, o) == []
  {
  }

  /** An object without a request is left alone. */
  lemma OthersAreLeft(d: Device, o: GroupObject)
    requires o.flag != WriteRequest && o.flag != ReadRequest
    ensures Outcome(d, o) == o && Sent(d, o) == []
  {
  }

  lemma SendsExactlyWhen(d: Device, o: GroupObject)
    ensures Sends(d, o) <==> CanSend(d, o)
    ensures Sends(d, o) ==> HasToSend(d, o, FrameOf(d, o).value)
  {
  }

  lemma {:induction false} SendersSend(d: Device, objects: seq<GroupObject>, first: nat, i: nat)
    requires NumberedFrom(objects, first)
    ensures |Senders(d, objects)| == |Frames(d, objects)|
    ensures i < |Frames(d, objects)| ==> SendsFrame(d, objects, first, Senders(d, objects)[i], Frames(d, objects)[i])
  {
    if objects != [] {
      Later(objects, first);
      SendsExactlyWhen(d, objects[0]);
      SendersSend(d, objects[1..], first + 1, if Sends(d, objects[0]) && i > 0 then i - 1 else i);
    }
  }

  lemma AllSend(d: Device, objects: seq<GroupObject>, s: seq<nat>)
    requires NumberedFrom(objects, 1) && s == Senders(d, objects)
    ensures |s| == |Frames(d, objects)|
    ensures forall i :: 0 <= i < |s| ==> SendsFrame(d, objects, 1, s[i], Frames(d, objects)[i])
  {
    SendersSend(d, objects, 1, 0);
    var frames := Frames(d, objects);
    forall i | 0 <= i < |s| ensures SendsFrame(d, objects, 1, s[i], frames[i]) {
      SendersSend(d, objects, 1, i);
    }
  }

  lemma AllAreListed(d: Device, objects: seq<GroupObject>, s: seq<nat>)
    requires NumberedFrom(objects, 1) && s == Senders(d, objects)
    ensures forall k :: 0 <= k < |objects| ==> (objects[k].asap in s <==> CanSend(d, objects[k]))
  {
    forall k | 0 <= k < |objects| ensures objects[k].asap in s <==> CanSend(d, objects[k]) {
      SendsExactlyWhen(d, objects[k]);
      SendersAre(d, objects, 1, k + 1);
    }
  }

  /**
   The frames are those of the objects that were pending, resolve and encode, one each, in strictly
   ascending order of their numbers.
   */
  lemma OneFrameEach(d: Device, objects: seq<GroupObject>)
    requires Numbered(objects)
    ensures var s := Senders(d, objects);
            && |s| == |Frames(d, objects)|
            && (forall i, j :: 0 <= i < j < |s| ==> s[i] < s[j])
            && (forall i :: 0 <= i < |s| ==> SendsFrame(d, objects, 1, s[i], Frames(d, objects)[i]))
            && (forall k :: 0 <= k < |objects| ==> (objects[k].asap in s <==> CanSend(d, objects[k])))
  {
    SendersAscend(d, objects, 1);
    AllSend(d, objects, Senders(d, objects));
    AllAreListed(d, objects, Senders(d, objects));
  }

  // ── Confirmations ───────────────────────────────────────────────

  predicate TransmitsTo(d: Device, o: GroupObject, group: nat) {
    o.flag == Transmitting && d.address(o.asap) == Some(group)
  }

  function Done(o: GroupObject, success: bool): GroupObject {
    o.(flag := if success then Okay else Failed)
  }

  /** A confirmation ends the transmission of the first object that transmits to the group. */
  function Confirmed(d: Device, objects: seq<GroupObject>, group: nat, success: bool): (r: seq<GroupObject>)
    ensures |r| == |objects|
  {
    if objects == [] then []
    else if TransmitsTo(d, objects[0], group) then [Done(objects[0], success)] + objects[1..]
    else [objects[0]] + Confirmed(d, objects[1..], group, success)
  }

  method HandleTransmitConfirmation(d: Device, store: GroupObjectStore, group: nat, success: bool)
    requires Numbered(store.objects)
    modifies store
    ensures store.objects == Confirmed(d, old(store.objects), group, success) && Numbered(store.objects)
  {
    ghost var objects := store.objects;
    var asap := 1;
    EmptyIsUnit(Confirmed(d, objects, group, success));
    assert objects[0..] == objects;
    while asap <= |store.objects|
      invariant 1 <= asap <= |objects| + 1 && store.objects == objects
      invariant Confirmed(d, objects, group, success)
             == objects[..asap - 1] + Confirmed(d, objects[asap - 1..], group, success)
    {
      var go := store.Get(asap).value;
      ConfirmedFrom(d, objects, asap - 1, group, success);
      if TransmitsTo(d, go, group) {
        store.SetCommFlag(asap, if success then Okay else Failed);
        return;
      }
      asap := asap + 1;
    }
    EmptyIsUnit(objects);
  }

  lemma ConfirmedFrom(d: Device, objects: seq<GroupObject>, i: nat, group: nat, success: bool)
    requires i < |objects|
    ensures objects[..i] + Confirmed(d, objects[i..], group, success)
         == if TransmitsTo(d, objects[i], group) then objects[i := Done(objects[i], success)]
            else objects[..i + 1] + Confirmed(d, objects[i + 1..], group, success)
  {
    assert objects[i..][0] == objects[i] && objects[i..][1..] == objects[i + 1..];
  }

  /** The groups that objects transmit to. */
  function Transmissions(d: Device, objects: seq<GroupObject>): multiset<nat> {
    if objects == [] then multiset{}
    else TransmissionOf(d, objects[0]) + Transmissions(d, objects[1..])
  }

  function TransmissionOf(d: Device, o: GroupObject): multiset<nat> {
    if o.flag == Transmitting && d.address(o.asap).Some? then multiset{d.address(o.asap).value} else multiset{}
  }

  function Groups(frames: seq<GroupFrame>): multiset<nat> {
    if frames == [] then multiset{} else multiset{frames[0].group} + Groups(frames[1..])
  }

  lemma {:induction false} ConfirmingEndsOne(d: Device, objects: seq<GroupObject>, group: nat, success: bool)
    ensures Transmissions(d, Confirmed(d, objects, group, success)) == Transmissions(d, objects) - multiset{group}
  {
    if objects != [] {
      ConfirmingEndsOne(d, objects[1..], group, success);
      assert Confirmed(d, objects, group, success)[1..]
          == if TransmitsTo(d, objects[0], group) then objects[1..] else Confirmed(d, objects[1..], group, success);
    }
  }

  datatype Confirmation = Confirmation(group: nat, success: bool)

  function AfterConfirmations(d: Device, objects: seq<GroupObject>, cs: seq<Confirmation>): (r: seq<GroupObject>)
    ensures |r| == |objects|
    decreases |cs|
  {
    if cs == [] then objects
    else AfterConfirmations(d, Confirmed(d, objects, cs[0].group, cs[0].success), cs[1..])
  }

  function ConfirmedGroups(cs: seq<Confirmation>): multiset<nat> {
    if cs == [] then multiset{} else multiset{cs[0].group} + ConfirmedGroups(cs[1..])
  }

  lemma {:induction false} AllConfirmationsEnd(d: Device, objects: seq<GroupObject>, cs: seq<Confirmation>)
    requires ConfirmedGroups(cs) == Transmissions(d, objects)
    ensures Transmissions(d, AfterConfirmations(d, objects, cs)) == multiset{}
    decreases |cs|
  {
    if cs != [] {
      ConfirmingEndsOne(d, objects, cs[0].group, cs[0].success);
      AllConfirmationsEnd(d, Confirmed(d, objects, cs[0].group, cs[0].success), cs[1..]);
    }
  }

  lemma {:induction false} NoneTransmits(d: Device, objects: seq<GroupObject>, k: nat)
    requires Transmissions(d, objects) == multiset{} && k < |objects|
    ensures !(objects[k].flag == Transmitting && d.address(objects[k].asap).Some?)
  {
    if k > 0 {
      NoneTransmits(d, objects[1..], k - 1);
    } else {
      assert TransmissionOf(d, objects[0]) <= Transmissions(d, objects);
    }
  }

  lemma GroupsApart(d: Device, o: GroupObject, rest: seq<GroupFrame>)
    ensures Groups(Sent(d, o) + rest) == Groups(Sent(d, o)) + Groups(rest)
  {
    if Sends(d, o) {
      var f := FrameOf(d, o).value;
      assert ([f] + rest)[1..] == rest && [f][1..] == [];
    } else {
      EmptyIsUnit(rest);
    }
  }

  /** After polling, the groups that are transmitted to are those of the frames, and of earlier ones. */
  lemma {:induction false} PollTransmits(d: Device, objects: seq<GroupObject>)
    ensures Transmissions(d, Polled(d, objects)) == Transmissions(d, objects) + Groups(Frames(d, objects))
  {
    if objects != [] {
      var o, rest := objects[0], objects[1..];
      PollTransmits(d, rest);
      PolledFirst(d, objects);
      GroupsApart(d, o, Frames(d, rest));
      OneTransmission(d, o);
      Regrouped(TransmissionOf(d, o), Groups(Sent(d, o)), Transmissions(d, rest), Groups(Frames(d, rest)));
    }
  }

  lemma PolledFirst(d: Device, objects: seq<GroupObject>)
    requires objects != []
    ensures Transmissions(d, Polled(d, objects))
         == TransmissionOf(d, Outcome(d, objects[0])) + Transmissions(d, Polled(d, objects[1..]))
  {
    assert Polled(d, objects)[1..] == Polled(d, objects[1..]);
  }

  lemma Regrouped(a: multiset<nat>, g: multiset<nat>, b: multiset<nat>, h: multiset<nat>)
    ensures (a + g) + (b + h) == (a + b) + (g + h)
  {
  }

  lemma OneTransmission(d: Device, o: GroupObject)
    ensures TransmissionOf(d, Outcome(d, o)) == TransmissionOf(d, o) + Groups(Sent(d, o))
  {
  }

  /** A confirmation changes nothing but ending transmissions. */
  lemma {:induction false} ConfirmedIs(d: Device, objects: seq<GroupObject>, group: nat, success: bool, k: nat)
    requires k < |objects|
    ensures var o := Confirmed(d, objects, group, success)[k];
            o == objects[k] || (TransmitsTo(d, objects[k], group) && o == Done(objects[k], success))
  {
    if k > 0 && !TransmitsTo(d, objects[0], group) {
      ConfirmedIs(d, objects[1..], group, success, k - 1);
    }
  }

  /** A positive confirmation leaves the first object that transmits to the group okay, a negative one failed. */
  lemma {:induction false} FirstIsConfirmed(d: Device, objects: seq<GroupObject>, group: nat, success: bool, k: nat)
    requires k < |objects| && objects[k].flag == Transmitting && d.address(objects[k].asap) == Some(group)
    requires forall i :: 0 <= i < k ==> !(objects[i].flag == Transmitting && d.address(objects[i].asap) == Some(group))
    ensures Confirmed(d, objects, group, success)
         == objects[k := objects[k].(flag := if success then Okay else Failed)]
  {
    if k > 0 {
      assert !TransmitsTo(d, objects[0], group);
      assert forall i :: 0 <= i < k - 1 ==> objects[1..][i] == objects[i + 1];
      FirstIsConfirmed(d, objects[1..], group, success, k - 1);
    }
  }

  /** A confirmation for a group that nothing transmits to does nothing. */
  lemma {:induction false} NothingToConfirm(d: Device, objects: seq<GroupObject>, group: nat, success: bool)
    requires forall i :: 0 <= i < |objects| ==> !(objects[i].flag == Transmitting && d.address(objects[i].asap) == Some(group))
    ensures Confirmed(d, objects, group, success) == objects
  {
    if objects != [] {
      assert !TransmitsTo(d, objects[0], group);
      assert forall i :: 0 <= i < |objects| - 1 ==> objects[1..][i] == objects[i + 1];
      NothingToConfirm(d, objects[1..], group, success);
    }
  }

  /** What a transmitting object becomes when it is confirmed. */
  predicate ConfirmedBy(d: Device, before: GroupObject, o: GroupObject, c: Confirmation) {
    && before.flag == Transmitting && d.address(before.asap) == Some(c.group)
    && o == before.(flag := if c.success then Okay else Failed)
  }

  lemma {:induction false} ConfirmationsAre(d: Device, objects: seq<GroupObject>, cs: seq<Confirmation>, k: nat)
    requires k < |objects|
    ensures var o := AfterConfirmations(d, objects, cs)[k];
            o == objects[k] || exists c :: c in cs && ConfirmedBy(d, objects[k], o, c)
    decreases |cs|
  {
    if cs != [] {
      var after := Confirmed(d, objects, cs[0].group, cs[0].success);
      ConfirmedIs(d, objects, cs[0].group, cs[0].success, k);
      ConfirmationsAre(d, after, cs[1..], k);
      if after[k] != objects[k] {
        assert ConfirmedBy(d, objects[k], after[k], cs[0]);
      }
    }
  }

  /** What an object has become that sent: okay or failed, as one of the confirmations for its group says. */
  predicate DoneWith(d: Device, before: GroupObject, o: GroupObject, cs: seq<Confirmation>) {
    exists c :: c in cs && d.address(before.asap) == Some(c.group)
                && o == before.(flag := if c.success then Okay else Failed)
  }

  /**
   Where nothing was being transmitted, polling and then one confirmation for each frame, in any
   order, leaves every object that sent okay or failed, as one of the confirmations for its group
   says, and every other one as polling left it; none is pending or transmitting.
   */
  lemma PollThenConfirm(d: Device, objects: seq<GroupObject>, cs: seq<Confirmation>, k: nat)
    requires k < |objects| && forall i :: 0 <= i < |objects| ==> objects[i].flag != Transmitting
    requires ConfirmedGroups(cs) == Groups(Frames(d, objects))
    ensures var o := AfterConfirmations(d, Polled(d, objects), cs)[k];
            && !IsPending(o) && o.flag != Transmitting
            && if CanSend(d, objects[k]) then DoneWith(d, objects[k], o, cs) else o == Outcome(d, objects[k])
  {
    var polled := Polled(d, objects);
    NoTransmissions(d, objects);
    PollTransmits(d, objects);
    AllConfirmationsEnd(d, polled, cs);
    NoneTransmits(d, AfterConfirmations(d, polled, cs), k);
    ConfirmationsAre(d, polled, cs, k);
    SendsExactlyWhen(d, objects[k]);
    DoneAtLast(d, objects[k], AfterConfirmations(d, polled, cs)[k], cs);
  }

  lemma DoneAtLast(d: Device, before: GroupObject, o: GroupObject, cs: seq<Confirmation>)
    requires before.flag != Transmitting && (Sends(d, before) <==> CanSend(d, before))
    requires o == Outcome(d, before) || exists c :: c in cs && ConfirmedBy(d, Outcome(d, before), o, c)
    requires !(o.flag == Transmitting && d.address(o.asap).Some?)
    ensures !IsPending(o) && o.flag != Transmitting
    ensures if CanSend(d, before) then DoneWith(d, before, o, cs) else o == Outcome(d, before)
  {
    if o != Outcome(d, before) {
      var c :| c in cs && ConfirmedBy(d, Outcome(d, before), o, c);
      assert o == before.(flag := if c.success then Okay else Failed);
    }
  }

  /** If all frames of a group went out, every object that sent to it is okay; if none did, failed. */
  lemma AllOrNone(d: Device, before: GroupObject, o: GroupObject, cs: seq<Confirmation>, success: bool)
    requires DoneWith(d, before, o, cs)
    requires forall c :: c in cs && d.address(before.asap) == Some(c.group) ==> c.success == success
    ensures o.flag == if success then Okay else Failed
  {
  }

  lemma {:induction false} NoTransmissions(d: Device, objects: seq<GroupObject>)
    requires forall i :: 0 <= i < |objects| ==> objects[i].flag != Transmitting
    ensures Transmissions(d, objects) == multiset{}
  {
    if objects != [] {
      assert forall i :: 0 <= i < |objects| - 1 ==> objects[1..][i] == objects[i + 1];
      NoTransmissions(d, objects[1..]);
    }
  }
}
