/** cEMI frames: the octets, what parsing accepts, and the fields other components read. */
module Cemi {
  import opened Basics

  const L_DATA_REQ: bv8 := 0x11
  const L_DATA_CON: bv8 := 0x2E
  const L_DATA_IND: bv8 := 0x29
  const NPDU_LEN_OFFSET: nat := 6
  const TPDU_OFFSET: nat := 7

  datatype CemiError =
    | TooShort
    | LengthMismatch
    | UnknownMessageCode(code: bv8)
    | PayloadTooLong(length: nat)

  /** A frame: its octets and where its control fields start. */
  datatype Frame = Frame(data: Octets, ctrlOffset: nat)

  /** A 16-bit address, high octet first. */
  datatype RawAddress = RawAddress(high: bv8, low: bv8)

  predicate KnownMessageCode(code: bv8) {
    code in {L_DATA_REQ, L_DATA_CON, L_DATA_IND, 0xFC, 0xFB, 0xF6, 0xF5, 0xF7, 0xF8, 0xF9, 0xFA, 0xF1, 0xF0}
  }

  /** A transport unit has at least its two control octets on the wire. */
  function EncodedPayloadLength(length: nat): nat {
    if length < 2 then 2 else length
  }

  function Parse(data: Octets): (r: Result<Frame, CemiError>)
    ensures r.Ok? ==> r.value.data == data && Valid(r.value)
  {
    if |data| < 2 then Err(TooShort)
    else if !KnownMessageCode(data[0]) then Err(UnknownMessageCode(data[0]))
    else
      var ctrlOffset := 2 + data[1] as nat;
      if |data| < ctrlOffset + 7 then Err(TooShort)
      else if |data| != ctrlOffset + TPDU_OFFSET
                        + EncodedPayloadLength(data[ctrlOffset + NPDU_LEN_OFFSET] as nat + 1) then
        Err(LengthMismatch)
      else
        Ok(Frame(data, ctrlOffset))
  }

  /** What every frame satisfies that was parsed or built. */
  predicate Valid(f: Frame) {
    && 2 <= |f.data|
    && KnownMessageCode(f.data[0])
    && f.ctrlOffset == 2 + f.data[1] as nat
    && f.ctrlOffset + NPDU_LEN_OFFSET < |f.data|
    && |f.data| == f.ctrlOffset + TPDU_OFFSET
                   + EncodedPayloadLength(f.data[f.ctrlOffset + NPDU_LEN_OFFSET] as nat + 1)
  }

  type ValidFrame = f: Frame | Valid(f) witness Frame([0x29, 0, 0xBC, 0x60, 0, 0, 0, 0, 0, 0, 0], 2)

  /** A frame is at most 520 octets long. */
  lemma FrameIsShort(f: Frame)
    requires Valid(f)
    ensures |f.data| <= 520
  {
    assert f.data[1] as nat <= 255 && f.data[f.ctrlOffset + NPDU_LEN_OFFSET] as nat <= 255;
  }

  /** Parsing accepts exactly the octets of valid frames. */
  lemma ParseAcceptsExactlyValid(f: Frame)
    ensures Parse(f.data) == Ok(f) <==> Valid(f)
  {
  }

  /** Octets with the lengths of a valid frame and a known message code are a valid frame. */
  lemma SameShape(f: Frame, data: Octets)
    requires Valid(f) && |data| == |f.data| && KnownMessageCode(data[0])
    requires data[1] == f.data[1]
    requires data[f.ctrlOffset + NPDU_LEN_OFFSET] == f.data[f.ctrlOffset + NPDU_LEN_OFFSET]
    ensures Parse(data) == Ok(Frame(data, f.ctrlOffset))
  {
    ParseAcceptsExactlyValid(Frame(data, f.ctrlOffset));
  }

  function NpduLength(f: Frame): bv8
    requires Valid(f)
  {
    f.data[f.ctrlOffset + NPDU_LEN_OFFSET]
  }

  function Payload(f: Frame): (r: Octets)
    requires Valid(f)
    ensures |r| == EncodedPayloadLength(NpduLength(f) as nat + 1)
  {
    f.data[f.ctrlOffset + TPDU_OFFSET..]
  }

  function Source(f: Frame): RawAddress
    requires Valid(f)
  {
    RawAddress(f.data[f.ctrlOffset + 2], f.data[f.ctrlOffset + 3])
  }

  function Destination(f: Frame): RawAddress
    requires Valid(f)
  {
    RawAddress(f.data[f.ctrlOffset + 4], f.data[f.ctrlOffset + 5])
  }

  function PriorityBits(p: Priority): bv8 {
    match p
    case System => 0x00
    case Normal => 0x04
    case Urgent => 0x08
    case Low => 0x0C
  }

  /** Zero octets that follow a payload shorter than two octets. */
  function Padding(payload: Octets): Octets {
    if |payload| == 0 then [0, 0] else if |payload| == 1 then [0] else []
  }

  lemma OctetHolds(n: int)
    requires 0 <= n < 256
    ensures (n as bv8) as int == n
  {
    assert (n as bv8) as int < 256;
  }

  /** The octets of an L_Data frame without additional information. */
  function LDataOctets(code: bv8, ctrl1: bv8, ctrl2: bv8, source: RawAddress, destination: RawAddress,
                       npdu: bv8, payload: Octets): Octets {
    [code, 0, ctrl1, ctrl2, source.high, source.low, destination.high, destination.low, npdu] + payload
  }

  /** Build an L_Data frame without additional information. */
  function TryNewLData(code: bv8, source: RawAddress, destination: RawAddress, group: bool,
                       priority: Priority, payload: Octets): (r: Result<Frame, CemiError>)
    ensures r.Ok? <==> |payload| <= 256
  {
    if |payload| > 256 then
      Err(PayloadTooLong(|payload|))
    else
      var npdu := (if |payload| == 0 then 0 else |payload| - 1) as bv8;
      Ok(Frame(LDataOctets(code, 0xB0 | PriorityBits(priority), (if group then 0x80 else 0x00) | 0x60,
                           source, destination, npdu, payload + Padding(payload)), 2))
  }

  lemma LDataIsValid(code: bv8, ctrl1: bv8, ctrl2: bv8, source: RawAddress, destination: RawAddress,
                     npdu: bv8, payload: Octets)
    requires KnownMessageCode(code) && |payload| == EncodedPayloadLength(npdu as nat + 1)
    ensures var f := Frame(LDataOctets(code, ctrl1, ctrl2, source, destination, npdu, payload), 2);
            && Valid(f)
            && Source(f) == source && Destination(f) == destination
            && Payload(f) == payload && NpduLength(f) == npdu
  {
    var data := LDataOctets(code, ctrl1, ctrl2, source, destination, npdu, payload);
    assert data[1] as nat == 0;
    assert data[9..] == payload;
  }

  /** A built frame is valid, and its fields read back as they were given. */
  lemma NewFrameReadsBack(code: bv8, source: RawAddress, destination: RawAddress, group: bool,
                          priority: Priority, payload: Octets)
    requires KnownMessageCode(code) && |payload| <= 256
    ensures var f := TryNewLData(code, source, destination, group, priority, payload).value;
            && Valid(f)
            && Parse(f.data) == Ok(f)
            && Source(f) == source && Destination(f) == destination
            && Payload(f) == payload + Padding(payload)
            && (NpduLength(f) as nat == if payload == [] then 0 else |payload| - 1)
  {
    var f := TryNewLData(code, source, destination, group, priority, payload).value;
    var npdu: nat := if payload == [] then 0 else |payload| - 1;
    OctetHolds(npdu);
    LDataIsValid(code, 0xB0 | PriorityBits(priority), (if group then 0x80 else 0x00) | 0x60,
                 source, destination, npdu as bv8, payload + Padding(payload));
    ParseAcceptsExactlyValid(f);
  }

  // ── The wire checksum ───────────────────────────────────────────

  /** XOR of all octets. */
  function Parity(buffer: Octets): bv8 {
    if buffer == [] then 0 else Parity(buffer[..|buffer| - 1]) ^ buffer[|buffer| - 1]
  }

  method CalcCrcTp(buffer: Octets) returns (crc: bv8)
    ensures crc == 0xFF ^ Parity(buffer)
  {
    crc := 0xFF;
    for i := 0 to |buffer|
      invariant crc == 0xFF ^ Parity(buffer[..i])
    {
      assert buffer[..i + 1][..i] == buffer[..i];
      crc := crc ^ buffer[i];
    }
    assert buffer[..|buffer|] == buffer;
  }
}
