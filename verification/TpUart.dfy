/**
 The TP-UART host protocol: the receiver that takes one byte at a time, and the transmitter that
 sends a frame byte by byte, each byte behind a command that carries its index.
 */
module TpUart {
  import opened Basics
  import opened TpFrame
  import Cemi

  const U_RESET_IND: bv8 := 0x03
  const U_STATE_IND: bv8 := 0x07
  const U_STATE_MASK: bv8 := 0x07
  const U_FRAME_STATE_IND: bv8 := 0x13
  const U_FRAME_STATE_MASK: bv8 := 0x17
  const L_DATA_CON_SUCCESS_MASK: bv8 := 0x80
  const U_L_DATA_START_REQ: bv8 := 0x80
  const U_L_DATA_CONT_REQ: bv8 := U_L_DATA_START_REQ
  const U_L_DATA_END_REQ: bv8 := 0x40
  const U_L_DATA_INDEX_MASK: bv8 := 0x3F

  datatype Indication =
    | Reset
    | State(byte: bv8)
    | Frame(frame: TpFrame)
    | TransmitConfirm(success: bool)
    | Overrun

  predicate IsFrameStart(byte: bv8) {
    byte & L_DATA_MASK == L_DATA_STANDARD_IND || byte & L_DATA_MASK == L_DATA_EXTENDED_IND
  }

  // ── The receiver ────────────────────────────────────────────────

  /** What the receiver holds of a frame, and the length it expects, or 0 while it does not know. */
  datatype Receiver = Receiver(held: Octets, expected: nat)

  const IDLE := Receiver([], 0)

  /** The length of a frame, from its header. */
  function FrameLength(held: Octets): nat
    requires |held| >= HEADER_STD + CRC_LEN
  {
    if IsExtendedCtrl(held[0]) then HEADER_EXT + held[6] as nat + 1 + CRC_LEN
    else HEADER_STD + (held[5] & APDU_LEN_MASK) as nat + 1 + CRC_LEN
  }

  function OnIdle(byte: bv8): (Receiver, Option<Indication>) {
    if byte == U_RESET_IND then (IDLE, Some(Reset))
    else if byte & U_STATE_MASK == U_STATE_IND then (IDLE, Some(State(byte)))
    else if byte & U_FRAME_STATE_MASK == U_FRAME_STATE_IND then
      (IDLE, Some(TransmitConfirm(byte & L_DATA_CON_SUCCESS_MASK == 0)))
    else if IsFrameStart(byte) then (Receiver([byte], 0), None)
    else (IDLE, None)
  }

  function Complete(held: Octets, expected: nat): (Receiver, Option<Indication>) {
    if expected > 0 && |held| >= expected then
      (IDLE, match FromBytes(held) case Some(f) => Some(Frame(f)) case None => None)
    else (Receiver(held, expected), None)
  }

  /** One byte. */
  function Feed(r: Receiver, byte: bv8): (Receiver, Option<Indication>) {
    if r.held == [] then OnIdle(byte)
    else
      var held := if |r.held| < MAX_FRAME_LEN then r.held + [byte] else r.held;
      if r.expected == 0 && |held| >= HEADER_STD + CRC_LEN then
        if FrameLength(held) > MAX_FRAME_LEN then (IDLE, Some(Overrun))
        else Complete(held, FrameLength(held))
      else Complete(held, r.expected)
  }

  function Listed(i: Option<Indication>): seq<Indication> {
    match i case None => [] case Some(x) => [x]
  }

  /** Many bytes, and all their indications in order. */
  function FeedAll(r: Receiver, bytes: Octets): (Receiver, seq<Indication>) {
    if bytes == [] then (r, [])
    else
      var (before, indications) := FeedAll(r, bytes[..|bytes| - 1]);
      var (after, i) := Feed(before, bytes[|bytes| - 1]);
      (after, indications + Listed(i))
  }

  /** What holds between two bytes: the next index is inside the buffer, and the frame is not complete. */
  ghost predicate ReceiverOk(r: Receiver) {
    && |r.held| < MAX_FRAME_LEN
    && (r.held != [] ==> IsFrameStart(r.held[0]))
    && if |r.held| < HEADER_STD + CRC_LEN then r.expected == 0
       else r.expected == FrameLength(r.held) && |r.held| < r.expected <= MAX_FRAME_LEN
  }

  class TpUartProtocol {
    const rxBuf: array<bv8>
    var rxPos: nat
    var rxExpected: nat

    ghost predicate Valid()
      reads this, rxBuf
    {
      rxBuf.Length == MAX_FRAME_LEN && rxPos <= rxBuf.Length && (rxPos == 0 ==> rxExpected == 0)
    }

    ghost function Model(): Receiver
      requires Valid()
      reads this, rxBuf
    {
      Receiver(rxBuf[..rxPos], rxExpected)
    }

    constructor ()
      ensures Valid() && fresh(rxBuf) && Model() == IDLE
    {
      rxBuf := new bv8[MAX_FRAME_LEN](i => 0);
      rxPos, rxExpected := 0, 0;
    }

    /** Process one byte read from the chip. */
    method Process(byte: bv8) returns (indication: Option<Indication>)
      requires Valid()
      modifies this, rxBuf
      ensures Valid() && (Model(), indication) == Feed(old(Model()), byte)
    {
      if rxPos == 0 {
        indication := ProcessIdle(byte);
        return;
      }
      ghost var before := Model();
      if rxPos < rxBuf.Length {
        rxBuf[rxPos] := byte;
        rxPos := rxPos + 1;
        assert rxBuf[..rxPos] == before.held + [byte];
      }
      ghost var held := rxBuf[..rxPos];
      if rxExpected == 0 && rxPos >= HEADER_STD + CRC_LEN {
        var expected := Expected();
        if expected > rxBuf.Length {
          rxPos, rxExpected := 0, 0;
          assert rxBuf[..0] == [];
          return Some(Overrun);
        }
        rxExpected := expected;
      }
      indication := Finish();
    }

    /** A byte that comes between frames. */
    method ProcessIdle(byte: bv8) returns (indication: Option<Indication>)
      requires Valid() && rxPos == 0
      modifies this, rxBuf
      ensures Valid() && (Model(), indication) == OnIdle(byte)
    {
      assert rxBuf[..0] == [];
      if byte == U_RESET_IND {
        return Some(Reset);
      }
      if byte & U_STATE_MASK == U_STATE_IND {
        return Some(State(byte));
      }
      if byte & U_FRAME_STATE_MASK == U_FRAME_STATE_IND {
        return Some(TransmitConfirm(byte & L_DATA_CON_SUCCESS_MASK == 0));
      }
      if IsFrameStart(byte) {
        rxBuf[0] := byte;
        rxPos, rxExpected := 1, 0;
        assert rxBuf[..1] == [byte];
      }
      return None;
    }

    /** The length the header announces. */
    method Expected() returns (expected: nat)
      requires Valid() && rxPos >= HEADER_STD + CRC_LEN
      ensures expected == FrameLength(rxBuf[..rxPos])
    {
      var ext := IsExtendedCtrl(rxBuf[0]);
      var apduLen := if ext then rxBuf[6] as nat else (rxBuf[5] & APDU_LEN_MASK) as nat;
      var header := if ext then HEADER_EXT else HEADER_STD;
      expected := header + apduLen + 1 + CRC_LEN;
    }

    /** Hand over the frame once it is complete. */
    method Finish() returns (indication: Option<Indication>)
      requires Valid() && rxPos > 0
      modifies this
      ensures Valid() && (Model(), indication) == Complete(old(rxBuf[..rxPos]), old(rxExpected))
    {
      if rxExpected > 0 && rxPos >= rxExpected {
        var frame := FromBytes(rxBuf[..rxPos]);
        rxPos, rxExpected := 0, 0;
        assert rxBuf[..0] == [];
        return match frame case Some(f) => Some(Frame(f)) case None => None;
      }
      return None;
    }
  }

  // ── Every sequence of bytes ─────────────────────────────────────

  lemma {:induction false} FeedAllConcat(r: Receiver, a: Octets, b: Octets)
    ensures var (m, first) := FeedAll(r, a);
            var (q, second) := FeedAll(m, b);
            FeedAll(r, a + b) == (q, first + second)
  {
    if b == [] {
      EmptyIsUnit(a);
      EmptyIsUnit(FeedAll(r, a).1);
    } else {
      var n := |b| - 1;
      FeedAllConcat(r, a, b[..n]);
      var (m, first) := FeedAll(r, a);
      var (q, second) := FeedAll(m, b[..n]);
      LastApart(a, b);
      assert (a + b)[..|a + b| - 1] == a + b[..n];
      Associative(first, second, Listed(Feed(q, b[n]).1));
    }
  }

  lemma FrameLengthOf(held: Octets, more: Octets)
    requires |held| >= HEADER_STD + CRC_LEN && held <= more
    ensures FrameLength(held) == FrameLength(more)
    ensures FrameLength(held) > HEADER_STD + CRC_LEN
  {
    assert forall i :: 0 <= i < |held| ==> held[i] == more[i];
  }

  lemma FeedKeepsOk(r: Receiver, byte: bv8)
    requires ReceiverOk(r)
    ensures ReceiverOk(Feed(r, byte).0)
  {
    if r.held != [] {
      var held := r.held + [byte];
      assert held[0] == r.held[0];
      if |r.held| >= HEADER_STD + CRC_LEN {
        FrameLengthOf(r.held, held);
      } else if |held| >= HEADER_STD + CRC_LEN {
        FrameLengthOf(held, held);
      }
    }
  }

  /** On arbitrary bytes the index stays inside the buffer, and the receiver never holds a complete frame. */
  lemma {:induction false} ArbitraryBytesKeepOk(r: Receiver, bytes: Octets)
    requires ReceiverOk(r)
    ensures ReceiverOk(FeedAll(r, bytes).0)
  {
    if bytes != [] {
      ArbitraryBytesKeepOk(r, bytes[..|bytes| - 1]);
      FeedKeepsOk(FeedAll(r, bytes[..|bytes| - 1]).0, bytes[|bytes| - 1]);
    }
  }

  // ── One frame ───────────────────────────────────────────────────

  /** How many of the bytes of a started frame are taken before it ends, if there are so many. */
  function Taken(bytes: Octets): nat
    requires |bytes| >= HEADER_STD + CRC_LEN
  {
    if FrameLength(bytes) > MAX_FRAME_LEN then HEADER_STD + CRC_LEN else FrameLength(bytes)
  }

  /** What the receiver holds of a started frame that goes on. */
  function Collected(bytes: Octets): Receiver {
    Receiver(bytes, if |bytes| < HEADER_STD + CRC_LEN then 0 else FrameLength(bytes))
  }

  predicate GoesOn(bytes: Octets) {
    |bytes| >= HEADER_STD + CRC_LEN ==> |bytes| < FrameLength(bytes) <= MAX_FRAME_LEN
  }

  lemma FeedOne(r: Receiver, before: Octets, byte: bv8, m: Receiver, q: Receiver, i: Option<Indication>)
    requires FeedAll(r, before) == (m, []) && Feed(m, byte) == (q, i)
    ensures FeedAll(r, before + [byte]) == (q, Listed(i))
  {
    EmptyIsUnit(Listed(i));
    assert (before + [byte])[..|before|] == before;
  }

  /** How a started frame ends with its last byte. */
  function End(bytes: Octets): Indication
    requires |bytes| >= HEADER_STD + CRC_LEN
  {
    if FrameLength(bytes) > MAX_FRAME_LEN then Overrun else Frame(TpFrame(bytes))
  }

  /** One more byte of a started frame. */
  lemma CollectOne(before: Octets, byte: bv8, bytes: Octets)
    requires before != [] && GoesOn(before) && bytes == before + [byte]
    ensures Feed(Collected(before), byte) == if GoesOn(bytes) then (Collected(bytes), None) else (IDLE, Some(End(bytes)))
  {
    assert |before| < MAX_FRAME_LEN;
    if |before| >= HEADER_STD + CRC_LEN {
      FrameLengthOf(before, bytes);
    } else if |bytes| >= HEADER_STD + CRC_LEN {
      FrameLengthOf(bytes, bytes);
    }
  }

  /** Before its end, a started frame is only collected. */
  lemma {:induction false} Collecting(bytes: Octets)
    requires bytes != [] && IsFrameStart(bytes[0]) && GoesOn(bytes)
    ensures FeedAll(IDLE, bytes) == (Collected(bytes), [])
  {
    var n := |bytes| - 1;
    if n == 0 {
      StartByte(bytes[0]);
      FeedOne(IDLE, [], bytes[0], IDLE, Receiver([bytes[0]], 0), None);
      assert bytes == [] + [bytes[0]];
    } else {
      if n >= HEADER_STD + CRC_LEN {
        FrameLengthOf(bytes[..n], bytes);
      }
      Collecting(bytes[..n]);
      LastApart([], bytes);
      CollectOne(bytes[..n], bytes[n], bytes);
      FeedOne(IDLE, bytes[..n], bytes[n], Collected(bytes[..n]), Collected(bytes), None);
    }
  }

  /** A byte that starts a frame is no other indication. */
  lemma StartByte(byte: bv8)
    requires IsFrameStart(byte)
    ensures OnIdle(byte) == (Receiver([byte], 0), None)
  {
  }

  /** The receiver takes the last byte of a started frame. */
  lemma LastByte(taken: Octets)
    requires |taken| >= HEADER_STD + CRC_LEN && IsFrameStart(taken[0]) && !GoesOn(taken)
    requires GoesOn(taken[..|taken| - 1])
    ensures FeedAll(IDLE, taken) == (IDLE, [End(taken)])
  {
    var n := |taken| - 1;
    Collecting(taken[..n]);
    LastApart([], taken);
    CollectOne(taken[..n], taken[n], taken);
    FeedOne(IDLE, taken[..n], taken[n], Collected(taken[..n]), IDLE, Some(End(taken)));
  }

  /**
   A started frame ends: with the frame, made of exactly the bytes its header announced, or with an
   overrun as soon as the header announces more than the buffer holds.
   */
  lemma StartedFrameEnds(bytes: Octets)
    requires |bytes| >= HEADER_STD + CRC_LEN && IsFrameStart(bytes[0]) && Taken(bytes) <= |bytes|
    ensures var taken := bytes[..Taken(bytes)];
            FeedAll(IDLE, taken) == (IDLE, [if FrameLength(bytes) > MAX_FRAME_LEN then Overrun else Frame(TpFrame(taken))])
  {
    var k := Taken(bytes);
    var taken := bytes[..k];
    FrameLengthOf(bytes, bytes);
    FrameLengthOf(taken, bytes);
    assert taken[..k - 1] == bytes[..k - 1];
    if k - 1 >= HEADER_STD + CRC_LEN {
      FrameLengthOf(bytes[..k - 1], bytes);
    }
    LastByte(taken);
  }

  /** However the bytes go on, a started frame is over within 63 more bytes. */
  lemma EndsWithin63(start: bv8, rest: Octets)
    requires IsFrameStart(start) && |rest| == 63
    ensures var bytes := [start] + rest;
            && HEADER_STD + CRC_LEN <= Taken(bytes) <= MAX_FRAME_LEN
            && FeedAll(IDLE, bytes[..Taken(bytes)]).0 == IDLE
            && |FeedAll(IDLE, bytes[..Taken(bytes)]).1| == 1
            && FeedAll(IDLE, bytes[..Taken(bytes)]).1[0] in
                 {Overrun, Frame(TpFrame(bytes[..Taken(bytes)]))}
  {
    var bytes := [start] + rest;
    FrameLengthOf(bytes, bytes);
    StartedFrameEnds(bytes);
  }

  /** The bytes of one frame, as the receiver sees it: a start, and the length its header announces. */
  predicate OneFrame(bytes: Octets) {
    && HEADER_STD + CRC_LEN <= |bytes| <= MAX_FRAME_LEN
    && IsFrameStart(bytes[0]) && |bytes| == FrameLength(bytes)
  }

  /** No frame is longer than what was held and fed. */
  lemma {:induction false} FramesAreFed(r: Receiver, bytes: Octets)
    ensures |FeedAll(r, bytes).0.held| <= |r.held| + |bytes|
    ensures forall i :: i in FeedAll(r, bytes).1 && i.Frame? ==> |i.frame.bytes| <= |r.held| + |bytes|
  {
    if bytes != [] {
      FramesAreFed(r, bytes[..|bytes| - 1]);
    }
  }

  /** The receiver gives back exactly these bytes as one frame if and only if they are one frame. */
  lemma ReceivedWhole(bytes: Octets)
    ensures FeedAll(IDLE, bytes) == (IDLE, [Frame(TpFrame(bytes))]) <==> OneFrame(bytes)
  {
    if OneFrame(bytes) {
      StartedFrameEnds(bytes);
      assert bytes[..|bytes|] == bytes;
    } else if bytes != [] {
      if !IsFrameStart(bytes[0]) {
        NoStart(bytes);
      } else if |bytes| < HEADER_STD + CRC_LEN || |bytes| < FrameLength(bytes) <= MAX_FRAME_LEN {
        Collecting(bytes);
      } else {
        EndsEarly(bytes);
      }
    }
  }

  lemma NoStart(bytes: Octets)
    requires bytes != [] && !IsFrameStart(bytes[0])
    ensures FeedAll(IDLE, bytes).1 != [Frame(TpFrame(bytes))]
  {
    AfterOther(bytes);
    OtherByte(bytes[0]);
    FramesAreFed(IDLE, bytes[1..]);
    ShorterFramesOnly(Listed(OnIdle(bytes[0]).1), FeedAll(IDLE, bytes[1..]).1, bytes);
  }

  lemma AfterOther(bytes: Octets)
    requires bytes != [] && !IsFrameStart(bytes[0])
    ensures FeedAll(IDLE, bytes).1 == Listed(OnIdle(bytes[0]).1) + FeedAll(IDLE, bytes[1..]).1
  {
    OtherByte(bytes[0]);
    FeedOne(IDLE, [], bytes[0], IDLE, IDLE, OnIdle(bytes[0]).1);
    assert [] + [bytes[0]] == [bytes[0]] && bytes == [bytes[0]] + bytes[1..];
    FeedAllConcat(IDLE, [bytes[0]], bytes[1..]);
  }

  lemma OtherByte(byte: bv8)
    requires !IsFrameStart(byte)
    ensures OnIdle(byte).0 == IDLE && (OnIdle(byte).1.Some? ==> !OnIdle(byte).1.value.Frame?)
  {
  }

  /** A list that starts with something else, and goes on with shorter frames, is not this one frame. */
  lemma ShorterFramesOnly(first: seq<Indication>, rest: seq<Indication>, bytes: Octets)
    requires forall i :: i in first ==> !i.Frame?
    requires forall i :: i in rest && i.Frame? ==> |i.frame.bytes| < |bytes|
    ensures first + rest != [Frame(TpFrame(bytes))]
  {
    if |first + rest| == 1 {
      var only := (first + rest)[0];
      assert only in first || only in rest;
    }
  }

  lemma EndsEarly(bytes: Octets)
    requires |bytes| >= HEADER_STD + CRC_LEN && IsFrameStart(bytes[0]) && !OneFrame(bytes)
    requires FrameLength(bytes) > MAX_FRAME_LEN || FrameLength(bytes) <= |bytes|
    ensures FeedAll(IDLE, bytes).1 != [Frame(TpFrame(bytes))]
  {
    FrameLengthOf(bytes, bytes);
    var k := Taken(bytes);
    StartedFrameEnds(bytes);
    FirstIndication(bytes, k, if FrameLength(bytes) > MAX_FRAME_LEN then Overrun else Frame(TpFrame(bytes[..k])));
  }

  /** What the first bytes made of the receiver is not taken back. */
  lemma FirstIndication(bytes: Octets, k: nat, first: Indication)
    requires k <= |bytes| && FeedAll(IDLE, bytes[..k]) == (IDLE, [first])
    ensures FeedAll(IDLE, bytes).1 != [] && FeedAll(IDLE, bytes).1[0] == first
  {
    assert bytes == bytes[..k] + bytes[k..];
    FeedAllConcat(IDLE, bytes[..k], bytes[k..]);
  }

  // ── Frames made from cEMI ───────────────────────────────────────

  /** What the receiver needs of a cEMI frame: at least one octet of data, and the bits of a frame start. */
  predicate Receivable(c: Cemi.ValidFrame) {
    Cemi.NpduLength(c) >= 1 && StartBits(c.data[2])
  }

  lemma StartOfEncoded(ctrl1: bv8)
    ensures IsFrameStart(ctrl1 | CTRL_FRAME_TYPE) <==> StartBits(ctrl1)
    ensures IsFrameStart(ctrl1 & !CTRL_FRAME_TYPE) <==> StartBits(ctrl1)
    ensures !IsExtendedCtrl(ctrl1 | CTRL_FRAME_TYPE)
    ensures StartBits(ctrl1) ==> IsExtendedCtrl(ctrl1 & !CTRL_FRAME_TYPE)
  {
  }

  lemma LengthOctet(ctrl2: bv8, npdu: bv8)
    requires FitsStandard(npdu)
    ensures ((ctrl2 & 0xF0) | (npdu & APDU_LEN_MASK)) & APDU_LEN_MASK == npdu
  {
  }

  /** The first octet of an encoded frame, and the length its header announces. */
  lemma EncodedAnnounces(c: Cemi.ValidFrame)
    requires Encoded(c).Some?
    ensures var bytes := Encoded(c).value.bytes;
            && HEADER_STD + CRC_LEN <= |bytes| <= MAX_FRAME_LEN
            && (IsFrameStart(bytes[0]) <==> StartBits(c.data[2]))
            && (StartBits(c.data[2]) ==>
                  FrameLength(bytes) == (if FitsStandard(Cemi.NpduLength(c)) then HEADER_STD else HEADER_EXT)
                                        + Cemi.NpduLength(c) as nat + 1 + CRC_LEN)
  {
    EncodedShape(c);
    HeaderAnnounces(Encoded(c).value.bytes, c.data[2], c.data[3], Cemi.Source(c), Cemi.Destination(c),
                    Cemi.NpduLength(c));
  }

  lemma HeaderAnnounces(bytes: Octets, ctrl1: bv8, ctrl2: bv8, source: Cemi.RawAddress, destination: Cemi.RawAddress,
                        npdu: bv8)
    requires |bytes| >= HEADER_STD + CRC_LEN
    requires var header := Header(ctrl1, ctrl2, source, destination, npdu); bytes[..|header|] == header
    ensures IsFrameStart(bytes[0]) <==> StartBits(ctrl1)
    ensures StartBits(ctrl1) ==>
              FrameLength(bytes) == (if FitsStandard(npdu) then HEADER_STD else HEADER_EXT) + npdu as nat + 1 + CRC_LEN
  {
    var header := Header(ctrl1, ctrl2, source, destination, npdu);
    StartOfEncoded(ctrl1);
    if FitsStandard(npdu) {
      LengthOctet(ctrl2, npdu);
    }
    assert forall i :: 0 <= i < |header| ==> bytes[i] == bytes[..|header|][i] == header[i];
  }

  /**
   The receiver gives back an encoded frame exactly if the cEMI frame is receivable. With an empty
   NPDU the encoder emits one octet more than the receiver waits for; without the bits of a frame
   start the receiver does not take it as a frame.
   */
  lemma EncodedIsReceivedExactlyWhen(c: Cemi.ValidFrame)
    requires Encoded(c).Some?
    ensures FeedAll(IDLE, Encoded(c).value.bytes) == (IDLE, [Frame(Encoded(c).value)]) <==> Receivable(c)
  {
    var bytes := Encoded(c).value.bytes;
    EncodedShape(c);
    EncodedAnnounces(c);
    ReceivedWhole(bytes);
    assert |Cemi.Payload(c)| == Cemi.EncodedPayloadLength(Cemi.NpduLength(c) as nat + 1);
  }

  /** The frames on the wire one after the other. */
  function Wire(frames: seq<TpFrame>): Octets {
    if frames == [] then [] else Wire(frames[..|frames| - 1]) + frames[|frames| - 1].bytes
  }

  function Indications(frames: seq<TpFrame>): seq<Indication> {
    if frames == [] then [] else Indications(frames[..|frames| - 1]) + [Frame(frames[|frames| - 1])]
  }

  ghost predicate EncodedFrom(frames: seq<TpFrame>, cs: seq<Cemi.ValidFrame>) {
    && |frames| == |cs|
    && forall i :: 0 <= i < |cs| ==> Encoded(cs[i]) == Some(frames[i]) && Receivable(cs[i])
  }

  /**
   Round trip: the bytes of any list of frames encoded from receivable cEMI frames come back as
   exactly these frames, in order, each with a valid checksum, and the receiver is idle again.
   */
  lemma {:induction false} FramesComeBack(frames: seq<TpFrame>, cs: seq<Cemi.ValidFrame>)
    requires EncodedFrom(frames, cs)
    ensures FeedAll(IDLE, Wire(frames)) == (IDLE, Indications(frames))
    ensures forall f :: f in frames ==> Valid(f) && CrcIsValid(f)
  {
    AllComeBack(frames, cs);
    forall f | f in frames ensures Valid(f) && CrcIsValid(f) {
      var i :| 0 <= i < |frames| && frames[i] == f;
      EncodedShape(cs[i]);
    }
  }

  lemma {:induction false} AllComeBack(frames: seq<TpFrame>, cs: seq<Cemi.ValidFrame>)
    requires EncodedFrom(frames, cs)
    ensures FeedAll(IDLE, Wire(frames)) == (IDLE, Indications(frames))
  {
    if frames != [] {
      var n := |frames| - 1;
      AllComeBack(frames[..n], cs[..n]);
      EncodedIsReceivedExactlyWhen(cs[n]);
      OneMoreComesBack(Wire(frames[..n]), Indications(frames[..n]), frames[n]);
    }
  }

  lemma OneMoreComesBack(wire: Octets, before: seq<Indication>, f: TpFrame)
    requires FeedAll(IDLE, wire) == (IDLE, before) && FeedAll(IDLE, f.bytes) == (IDLE, [Frame(f)])
    ensures FeedAll(IDLE, wire + f.bytes) == (IDLE, before + [Frame(f)])
  {
    FeedAllConcat(IDLE, wire, f.bytes);
  }

  // ── The transmitter ─────────────────────────────────────────────

  /** The command in front of byte number `i` of a frame with index `last` at its end. */
  function Command(i: nat, last: nat): bv8
    requires i < MAX_FRAME_LEN
  {
    var index := i as bv8 & U_L_DATA_INDEX_MASK;
    if i == 0 then U_L_DATA_START_REQ | index
    else if i == last then U_L_DATA_END_REQ | index
    else U_L_DATA_CONT_REQ | index
  }

  /** What is written for the first `k` bytes of a frame. */
  function Written(bytes: Octets, k: nat): Octets
    requires k <= |bytes| <= MAX_FRAME_LEN
  {
    if k == 0 then [] else Written(bytes, k - 1) + [Command(k - 1, |bytes| - 1), bytes[k - 1]]
  }

  lemma PairWritten(before: Octets, command: bv8, byte: bv8)
    ensures before + [command] + [byte] == before + [command, byte]
  {
  }

  method Transmit(frame: TpFrame) returns (written: Octets)
    requires Valid(frame)
    ensures written == Written(frame.bytes, |frame.bytes|)
  {
    var data := frame.bytes;
    var last := |data| - 1;
    written := [];
    for i := 0 to |data|
      invariant written == Written(data, i)
    {
      var command := Command(i, last);
      written := written + [command];
      written := written + [data[i]];
      PairWritten(Written(data, i), command, data[i]);
    }
  }

  /**
   The other end of the serial line, as the commands define it: a byte is stored at the index its
   command carries, index 0 begins a frame, and the end command sends what is stored.
   */
  datatype Chip = Chip(stored: Octets, sent: seq<Octets>)

  function Take(c: Chip, command: bv8, byte: bv8): Chip {
    var index := (command & U_L_DATA_INDEX_MASK) as nat;
    if command & 0xC0 == U_L_DATA_START_REQ then
      if index == 0 then c.(stored := [byte])
      else if index == |c.stored| then c.(stored := c.stored + [byte])
      else c
    else if command & 0xC0 == U_L_DATA_END_REQ && index == |c.stored| then
      Chip([], c.sent + [c.stored + [byte]])
    else c
  }

  function TakeAll(c: Chip, written: Octets): Chip {
    if |written| < 2 then c
    else
      var n := |written| - 2;
      Take(TakeAll(c, written[..n]), written[n], written[n + 1])
  }

  lemma CommandBits(index: bv8)
    requires index < 64
    ensures (U_L_DATA_START_REQ | (index & U_L_DATA_INDEX_MASK)) & U_L_DATA_INDEX_MASK == index
    ensures (U_L_DATA_START_REQ | (index & U_L_DATA_INDEX_MASK)) & 0xC0 == U_L_DATA_START_REQ
    ensures (U_L_DATA_END_REQ | (index & U_L_DATA_INDEX_MASK)) & U_L_DATA_INDEX_MASK == index
    ensures (U_L_DATA_END_REQ | (index & U_L_DATA_INDEX_MASK)) & 0xC0 == U_L_DATA_END_REQ
  {
  }

  /** The command carries the index, and says whether the frame ends. */
  lemma CommandCarries(i: nat, last: nat)
    requires i < MAX_FRAME_LEN
    ensures var command := Command(i, last);
            && (command & U_L_DATA_INDEX_MASK) as nat == i
            && command & 0xC0 == if i == last && i != 0 then U_L_DATA_END_REQ else U_L_DATA_START_REQ
  {
    assert i as bv8 < 64;
    CommandBits(i as bv8);
  }

  /** A byte goes where the previous ones end; the last one sends the frame. */
  lemma TakeOne(c: Chip, i: nat, last: nat, byte: bv8)
    requires i < MAX_FRAME_LEN && (i == 0 || |c.stored| == i)
    ensures Take(c, Command(i, last), byte)
         == if i == 0 then c.(stored := [byte])
            else if i == last then Chip([], c.sent + [c.stored + [byte]])
            else c.(stored := c.stored + [byte])
  {
    CommandCarries(i, last);
  }

  lemma TakeLast(c: Chip, before: Octets, command: bv8, byte: bv8)
    ensures TakeAll(c, before + [command, byte]) == Take(TakeAll(c, before), command, byte)
  {
    assert (before + [command, byte])[..|before|] == before;
  }

  /** The chip takes byte number `k` of a frame. */
  lemma TakesNext(c: Chip, bytes: Octets, k: nat, m: Chip)
    requires k < |bytes| <= MAX_FRAME_LEN && TakeAll(c, Written(bytes, k)) == m && (k == 0 || |m.stored| == k)
    ensures TakeAll(c, Written(bytes, k + 1))
         == if k == 0 then m.(stored := [bytes[0]])
            else if k == |bytes| - 1 then Chip([], m.sent + [m.stored + [bytes[k]]])
            else m.(stored := m.stored + [bytes[k]])
  {
    TakeLast(c, Written(bytes, k), Command(k, |bytes| - 1), bytes[k]);
    TakeOne(m, k, |bytes| - 1, bytes[k]);
  }

  lemma {:induction false} StoredSoFar(c: Chip, bytes: Octets, k: nat)
    requires 0 < k < |bytes| <= MAX_FRAME_LEN
    ensures TakeAll(c, Written(bytes, k)) == Chip(bytes[..k], c.sent)
  {
    if k == 1 {
      TakesNext(c, bytes, 0, c);
    } else {
      StoredSoFar(c, bytes, k - 1);
      TakesNext(c, bytes, k - 1, Chip(bytes[..k - 1], c.sent));
    }
    OneMoreByte(bytes, k);
  }

  lemma OneMoreByte(bytes: Octets, k: nat)
    requires 0 < k <= |bytes|
    ensures bytes[..k] == bytes[..k - 1] + [bytes[k - 1]]
    ensures k == 1 ==> bytes[..k] == [bytes[0]]
  {
  }

  /** What is written for a frame makes the chip send exactly that frame, whatever it had stored before. */
  lemma TransmittedIsSent(c: Chip, frame: TpFrame)
    requires Valid(frame)
    ensures TakeAll(c, Written(frame.bytes, |frame.bytes|)) == Chip([], c.sent + [frame.bytes])
  {
    var bytes := frame.bytes;
    var n := |bytes| - 1;
    StoredSoFar(c, bytes, n);
    TakesNext(c, bytes, n, Chip(bytes[..n], c.sent));
    assert bytes == bytes[..n] + [bytes[n]];
  }
}
