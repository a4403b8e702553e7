/**
 Frames on the twisted pair: how a cEMI frame is put on the wire, and what is read back from it.
 */
module TpFrame {
  import opened Basics
  import Cemi

  const MAX_FRAME_LEN: nat := 64
  const HEADER_STD: nat := 6
  const HEADER_EXT: nat := 7
  const CRC_LEN: nat := 1
  const APDU_LEN_MASK: bv8 := 0x0F
  const CTRL_FRAME_TYPE: bv8 := 0x80
  const L_DATA_MASK: bv8 := 0xD3
  const L_DATA_STANDARD_IND: bv8 := 0x90
  const L_DATA_EXTENDED_IND: bv8 := 0x10

  datatype TpFrame = TpFrame(bytes: Octets)

  predicate IsExtendedCtrl(ctrl: bv8) {
    ctrl & L_DATA_MASK == L_DATA_EXTENDED_IND
  }

  function FromBytes(data: Octets): Option<TpFrame> {
    if |data| < HEADER_STD + CRC_LEN || |data| > MAX_FRAME_LEN then None else Some(TpFrame(data))
  }

  // ── Reading a frame ─────────────────────────────────────────────

  /** What every frame has: it was made from bytes or from a cEMI frame. */
  predicate Valid(f: TpFrame) {
    HEADER_STD + CRC_LEN <= |f.bytes| <= MAX_FRAME_LEN
  }

  function Source(f: TpFrame): Cemi.RawAddress
    requires Valid(f)
  {
    if IsExtendedCtrl(f.bytes[0]) then Cemi.RawAddress(f.bytes[2], f.bytes[3])
    else Cemi.RawAddress(f.bytes[1], f.bytes[2])
  }

  function Destination(f: TpFrame): Cemi.RawAddress
    requires Valid(f)
  {
    if IsExtendedCtrl(f.bytes[0]) then Cemi.RawAddress(f.bytes[4], f.bytes[5])
    else Cemi.RawAddress(f.bytes[3], f.bytes[4])
  }

  function ApduSize(f: TpFrame): bv8
    requires Valid(f)
  {
    if IsExtendedCtrl(f.bytes[0]) then f.bytes[6] else f.bytes[5] & APDU_LEN_MASK
  }

  function CalcCrc(f: TpFrame): bv8
    requires Valid(f)
  {
    0xFF ^ Cemi.Parity(f.bytes[..|f.bytes| - 1])
  }

  predicate CrcIsValid(f: TpFrame)
    requires Valid(f)
  {
    f.bytes[|f.bytes| - 1] == CalcCrc(f)
  }

  /** Verify the checksum, octet by octet. */
  method IsValid(f: TpFrame) returns (valid: bool)
    requires Valid(f)
    ensures valid == CrcIsValid(f)
  {
    var crc := Cemi.CalcCrcTp(f.bytes[..|f.bytes| - 1]);
    valid := f.bytes[|f.bytes| - 1] == crc;
  }

  // ── Writing a frame ─────────────────────────────────────────────

  /** Only short frames fit the length nibble of the standard format. */
  predicate FitsStandard(npdu: bv8) {
    npdu <= APDU_LEN_MASK
  }

  /** The header of a frame with these control fields. */
  function Header(ctrl1: bv8, ctrl2: bv8, source: Cemi.RawAddress, destination: Cemi.RawAddress, npdu: bv8): Octets {
    if FitsStandard(npdu) then
      [ctrl1 | CTRL_FRAME_TYPE, source.high, source.low, destination.high, destination.low,
       (ctrl2 & 0xF0) | (npdu & APDU_LEN_MASK)]
    else
      [ctrl1 & !CTRL_FRAME_TYPE, ctrl2, source.high, source.low, destination.high, destination.low, npdu]
  }

  /** All octets before the checksum. The control fields are taken at offsets 2 and 3. */
  function Body(c: Cemi.ValidFrame): Octets {
    Header(c.data[2], c.data[3], Cemi.Source(c), Cemi.Destination(c), Cemi.NpduLength(c)) + Cemi.Payload(c)
  }

  /** The frame on the wire, if it fits the receive buffer. */
  function Encoded(c: Cemi.ValidFrame): Option<TpFrame> {
    var body := Body(c);
    if |body| + CRC_LEN > MAX_FRAME_LEN then None else Some(TpFrame(Closed(body)))
  }

  /** Octets with their checksum. */
  function Closed(body: Octets): Octets {
    body + [0xFF ^ Cemi.Parity(body)]
  }

  /** Fill a buffer with the frame, as `Encoded` says. */
  method FromCemi(c: Cemi.ValidFrame) returns (r: Option<TpFrame>)
    ensures r == Encoded(c)
  {
    var payload := Cemi.Payload(c);
    var header := if Cemi.NpduLength(c) <= APDU_LEN_MASK then HEADER_STD else HEADER_EXT;
    if header + |payload| + CRC_LEN > MAX_FRAME_LEN {
      return None;
    }
    var data := new bv8[MAX_FRAME_LEN](i => 0);
    FillHeader(data, c.data[2], c.data[3], Cemi.Source(c), Cemi.Destination(c), Cemi.NpduLength(c));
    ghost var start := data[..header];
    CopyInto(data, header, payload);
    var len := CloseFrame(data, header + |payload|);
    ghost var body := start + payload;
    r := Some(TpFrame(data[..len]));
    assert r == Some(TpFrame(Closed(body)));
    EncodedIs(c, start, payload);
  }

  lemma EncodedIs(c: Cemi.ValidFrame, header: Octets, payload: Octets)
    requires header == Header(c.data[2], c.data[3], Cemi.Source(c), Cemi.Destination(c), Cemi.NpduLength(c))
    requires payload == Cemi.Payload(c) && |header| + |payload| + CRC_LEN <= MAX_FRAME_LEN
    ensures Encoded(c) == Some(TpFrame(Closed(header + payload)))
  {
  }

  /** Calculate the checksum of the first `start` octets and append it. */
  method CloseFrame(data: array<bv8>, start: nat) returns (len: nat)
    requires start < data.Length
    modifies data
    ensures len == start + CRC_LEN && data[..len] == Closed(old(data[..start]))
  {
    len := start + CRC_LEN;
    var crc := Cemi.CalcCrcTp(data[..len - 1]);
    data[len - 1] := crc;
    assert data[..len] == data[..len - 1] + [crc];
  }

  /** Write the header of the standard or the extended format. */
  method FillHeader(data: array<bv8>, ctrl1: bv8, ctrl2: bv8, source: Cemi.RawAddress, destination: Cemi.RawAddress,
                    npdu: bv8)
    requires data.Length == MAX_FRAME_LEN
    modifies data
    ensures var header := Header(ctrl1, ctrl2, source, destination, npdu); data[..|header|] == header
  {
    if npdu <= APDU_LEN_MASK {
      data[0] := ctrl1 | CTRL_FRAME_TYPE;
      data[1] := source.high;
      data[2] := source.low;
      data[3] := destination.high;
      data[4] := destination.low;
      data[5] := (ctrl2 & 0xF0) | (npdu & APDU_LEN_MASK);
    } else {
      data[0] := ctrl1 & !CTRL_FRAME_TYPE;
      data[1] := ctrl2;
      data[2] := source.high;
      data[3] := source.low;
      data[4] := destination.high;
      data[5] := destination.low;
      data[6] := npdu;
    }
  }

  /** Copy `source` into the buffer behind its first `start` octets. */
  method CopyInto(data: array<bv8>, start: nat, source: Octets)
    requires start + |source| <= data.Length
    modifies data
    ensures data[..start + |source|] == old(data[..start]) + source
  {
    for i := 0 to |source|
      invariant data[..start + i] == old(data[..start]) + source[..i]
    {
      data[start + i] := source[i];
      assert data[..start + i + 1] == data[..start + i] + [source[i]];
      assert source[..i + 1] == source[..i] + [source[i]];
    }
    assert source[..|source|] == source;
  }

  // ── What the frame carries ──────────────────────────────────────

  lemma ControlBits(ctrl1: bv8, ctrl2: bv8, npdu: bv8)
    ensures !IsExtendedCtrl(ctrl1 | CTRL_FRAME_TYPE)
    ensures IsExtendedCtrl(ctrl1 & !CTRL_FRAME_TYPE) <==> ctrl1 & 0x53 == 0x10
    ensures (ctrl1 | CTRL_FRAME_TYPE) & L_DATA_MASK == L_DATA_STANDARD_IND <==> ctrl1 & 0x53 == 0x10
    ensures FitsStandard(npdu) ==> ((ctrl2 & 0xF0) | (npdu & APDU_LEN_MASK)) & APDU_LEN_MASK == npdu
  {
  }

  /** The control bits of a frame start, whichever format is chosen. */
  predicate StartBits(ctrl1: bv8) {
    ctrl1 & 0x53 == 0x10
  }

  /** What follows the header is the payload, up to the checksum. */
  lemma EncodedShape(c: Cemi.ValidFrame)
    requires Encoded(c).Some?
    ensures var bytes := Encoded(c).value.bytes;
            var header := if FitsStandard(Cemi.NpduLength(c)) then HEADER_STD else HEADER_EXT;
            && |bytes| == header + |Cemi.Payload(c)| + CRC_LEN
            && bytes[..header] == Header(c.data[2], c.data[3], Cemi.Source(c), Cemi.Destination(c), Cemi.NpduLength(c))
            && bytes[header..|bytes| - 1] == Cemi.Payload(c)
            && Valid(Encoded(c).value) && CrcIsValid(Encoded(c).value)
  {
    var body := Body(c);
    var bytes := Encoded(c).value.bytes;
    assert bytes[..|bytes| - 1] == body;
  }

  /**
   Reading back: from a frame on the wire whose cEMI frame has no additional information and the
   bits of a frame start, the format, both addresses, the length and the payload are recovered.
   */
  lemma FieldsSurvive(c: Cemi.ValidFrame)
    requires Encoded(c).Some? && c.ctrlOffset == 2 && StartBits(c.data[2])
    ensures var f := Encoded(c).value;
            && Valid(f) && CrcIsValid(f)
            && (IsExtendedCtrl(f.bytes[0]) <==> Cemi.NpduLength(c) > 15)
            && Source(f) == Cemi.Source(c) && Destination(f) == Cemi.Destination(c)
            && ApduSize(f) == Cemi.NpduLength(c)
            && f.bytes[if IsExtendedCtrl(f.bytes[0]) then HEADER_EXT else HEADER_STD..|f.bytes| - 1] == Cemi.Payload(c)
  {
    var f := Encoded(c).value;
    var npdu := Cemi.NpduLength(c);
    EncodedShape(c);
    HeaderReadsBack(f, c.data[2], c.data[3], Cemi.Source(c), Cemi.Destination(c), npdu);
  }

  lemma HeaderReadsBack(f: TpFrame, ctrl1: bv8, ctrl2: bv8, source: Cemi.RawAddress, destination: Cemi.RawAddress,
                        npdu: bv8)
    requires Valid(f) && StartBits(ctrl1)
    requires var header := Header(ctrl1, ctrl2, source, destination, npdu); f.bytes[..|header|] == header
    ensures IsExtendedCtrl(f.bytes[0]) <==> !FitsStandard(npdu)
    ensures Source(f) == source && Destination(f) == destination && ApduSize(f) == npdu
  {
    ControlBits(ctrl1, ctrl2, npdu);
    var header := Header(ctrl1, ctrl2, source, destination, npdu);
    assert forall i :: 0 <= i < |header| ==> f.bytes[i] == f.bytes[..|header|][i] == header[i];
  }

  /** Every frame the stack builds itself has the bits of a frame start and no additional information. */
  lemma NewFramesStart(code: bv8, source: Cemi.RawAddress, destination: Cemi.RawAddress, group: bool,
                       priority: Priority, payload: Octets)
    requires Cemi.KnownMessageCode(code) && |payload| <= 256
    ensures var c := Cemi.TryNewLData(code, source, destination, group, priority, payload).value;
            && Cemi.Valid(c) && c.ctrlOffset == 2 && StartBits(c.data[2])
            && (1 <= Cemi.NpduLength(c) <==> 2 <= |payload|)
  {
    Cemi.NewFrameReadsBack(code, source, destination, group, priority, payload);
    var c := Cemi.TryNewLData(code, source, destination, group, priority, payload).value;
    assert c.data[2] == 0xB0 | Cemi.PriorityBits(priority);
  }

  // ── What the checksum detects ───────────────────────────────────

  /** A frame is valid exactly if all its octets together, checksum included, have parity 0xFF. */
  lemma ValidByParity(f: TpFrame)
    requires Valid(f)
    ensures CrcIsValid(f) <==> Cemi.Parity(f.bytes) == 0xFF
  {
    var p := Cemi.Parity(f.bytes[..|f.bytes| - 1]);
    XorInverts(p, f.bytes[|f.bytes| - 1]);
  }

  lemma XorInverts(p: bv8, x: bv8)
    ensures x == 0xFF ^ p <==> p ^ x == 0xFF
  {
  }

  lemma {:induction false} ParityOfChange(s: Octets, i: nat, b: bv8)
    requires i < |s|
    ensures Cemi.Parity(s[i := b]) == Cemi.Parity(s) ^ s[i] ^ b
  {
    var n := |s| - 1;
    if i == n {
      assert s[i := b][..n] == s[..n];
      XorReplaces(Cemi.Parity(s[..n]), s[n], b);
    } else {
      ParityOfChange(s[..n], i, b);
      assert s[i := b][..n] == s[..n][i := b];
      XorCommutes(Cemi.Parity(s[..n]), s[i], b, s[n]);
    }
  }

  lemma XorReplaces(p: bv8, x: bv8, b: bv8)
    ensures p ^ b == p ^ x ^ x ^ b
  {
  }

  lemma XorCommutes(p: bv8, x: bv8, b: bv8, y: bv8)
    ensures p ^ x ^ b ^ y == p ^ y ^ x ^ b
  {
  }

  lemma XorDiffers(p: bv8, x: bv8, b: bv8)
    ensures p ^ x ^ b == p <==> x == b
  {
  }

  /** Any change of one octet of a valid frame is detected. */
  lemma OneChangeIsDetected(f: TpFrame, i: nat, b: bv8)
    requires Valid(f) && CrcIsValid(f) && i < |f.bytes| && b != f.bytes[i]
    ensures !CrcIsValid(TpFrame(f.bytes[i := b]))
  {
    ValidByParity(f);
    ValidByParity(TpFrame(f.bytes[i := b]));
    ParityOfChange(f.bytes, i, b);
    XorDiffers(Cemi.Parity(f.bytes), f.bytes[i], b);
  }
}
