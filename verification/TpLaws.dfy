/**
 What stands on the twisted pair, octet by octet, and what the bytes between frames mean. These
 laws name positions and values, not the functions that build or read them.
 */
module TpLaws {
  import opened Basics
  import opened TpFrame
  import opened TpUart
  import Cemi

  // ── The checksum ────────────────────────────────────────────────

  lemma XorAssociates(p: bv8, q: bv8, x: bv8)
    ensures p ^ (q ^ x) == p ^ q ^ x
  {
  }

  /** The parity of octets that are joined is that of their parities; the checksum follows from single octets. */
  lemma {:induction false} ParityJoins(a: Octets, b: Octets)
    ensures Cemi.Parity(a + b) == Cemi.Parity(a) ^ Cemi.Parity(b)
  {
    if b == [] {
      EmptyIsUnit(a);
    } else {
      var n := |b| - 1;
      ParityJoins(a, b[..n]);
      LastApart(a, b);
      assert (a + b)[..|a + b| - 1] == a + b[..n];
      XorAssociates(Cemi.Parity(a), Cemi.Parity(b[..n]), b[n]);
    }
  }

  lemma ParityOfOne(x: bv8)
    ensures Cemi.Parity([]) == 0 && Cemi.Parity([x]) == x
  {
    assert [x][..0] == [];
    assert (0 as bv8) ^ x == x;
  }

  // ── Frames on the wire ──────────────────────────────────────────

  /** A frame is put on the wire exactly if its NPDU has at most 55 octets. */
  lemma EncodedExactlyWhen(c: Cemi.ValidFrame)
    ensures Encoded(c).Some? <==> c.data[c.ctrlOffset + 6] <= 55
  {
    var npdu := Cemi.NpduLength(c);
    assert npdu <= 55 <==> npdu as nat <= 55;
    assert npdu <= 15 <==> npdu as nat <= 15;
  }

  /**
   The standard format, for up to 15 octets behind the transport control octet: control field,
   source, destination, address type and hops with the length, the transport unit, the checksum.
   */
  lemma StandardLayout(c: Cemi.ValidFrame)
    requires c.data[c.ctrlOffset + 6] <= 15
    ensures Encoded(c).Some?
    ensures var d, o, b := c.data, c.ctrlOffset, Encoded(c).value.bytes;
            && b[0] == d[2] | 0x80
            && b[1] == d[o + 2] && b[2] == d[o + 3] && b[3] == d[o + 4] && b[4] == d[o + 5]
            && b[5] == (d[3] & 0xF0) | d[o + 6]
            && b[6..|b| - 1] == d[o + 7..]
            && b[|b| - 1] == 0xFF ^ Cemi.Parity(b[..|b| - 1])
  {
    EncodedExactlyWhen(c);
    EncodedShape(c);
    Nibble(c.data[c.ctrlOffset + 6]);
    var b := Encoded(c).value.bytes;
    HeaderAt(b, 6, Header(c.data[2], c.data[3], Cemi.Source(c), Cemi.Destination(c), Cemi.NpduLength(c)));
  }

  lemma Nibble(npdu: bv8)
    requires npdu <= 15
    ensures npdu & 0x0F == npdu
  {
  }

  lemma FrameTypeCleared(ctrl1: bv8)
    ensures ctrl1 & !0x80 == ctrl1 & 0x7F
  {
  }

  lemma HeaderAt(b: Octets, n: nat, header: Octets)
    requires n <= |b| && b[..n] == header
    ensures forall i :: 0 <= i < n ==> b[i] == header[i]
  {
  }

  /** The extended format: both control fields, source, destination, the length, the transport unit, the checksum. */
  lemma ExtendedLayout(c: Cemi.ValidFrame)
    requires 15 < c.data[c.ctrlOffset + 6] <= 55
    ensures Encoded(c).Some?
    ensures var d, o, b := c.data, c.ctrlOffset, Encoded(c).value.bytes;
            && b[0] == d[2] & 0x7F && b[1] == d[3]
            && b[2] == d[o + 2] && b[3] == d[o + 3] && b[4] == d[o + 4] && b[5] == d[o + 5]
            && b[6] == d[o + 6]
            && b[7..|b| - 1] == d[o + 7..]
            && b[|b| - 1] == 0xFF ^ Cemi.Parity(b[..|b| - 1])
  {
    EncodedExactlyWhen(c);
    EncodedShape(c);
    FrameTypeCleared(c.data[2]);
    var b := Encoded(c).value.bytes;
    HeaderAt(b, 7, Header(c.data[2], c.data[3], Cemi.Source(c), Cemi.Destination(c), Cemi.NpduLength(c)));
  }

  /** A frame the stack builds, octet by octet. */
  lemma NewFrameIs(code: bv8, source: Cemi.RawAddress, destination: Cemi.RawAddress, group: bool,
                   priority: Priority, payload: Octets)
    requires Cemi.KnownMessageCode(code) && 2 <= |payload| <= 256
    ensures var d := Cemi.TryNewLData(code, source, destination, group, priority, payload).value.data;
            && d[0] == code && d[1] == 0
            && d[2] == (match priority case System => 0xB0 case Normal => 0xB4 case Urgent => 0xB8 case Low => 0xBC)
            && d[3] == (if group then 0xE0 else 0x60)
            && d[4] == source.high && d[5] == source.low && d[6] == destination.high && d[7] == destination.low
            && d[8] as nat == |payload| - 1 && d[9..] == payload
  {
    Cemi.NewFrameReadsBack(code, source, destination, group, priority, payload);
    EmptyIsUnit(payload);
  }

  // ── Bytes between frames ────────────────────────────────────────

  /** What a byte means that comes between frames: every byte value is one of these. */
  lemma ByteBetween(byte: bv8)
    ensures OnIdle(byte) ==
            if byte == 0x03 then (IDLE, Some(Reset))
            else if byte & 0x07 == 0x07 then (IDLE, Some(State(byte)))
            else if byte in {0x13, 0x1B, 0x33, 0x3B, 0x53, 0x5B, 0x73, 0x7B} then (IDLE, Some(TransmitConfirm(true)))
            else if byte in {0x93, 0x9B, 0xB3, 0xBB, 0xD3, 0xDB, 0xF3, 0xFB} then (IDLE, Some(TransmitConfirm(false)))
            else if byte in {0x90, 0x94, 0x98, 0x9C, 0xB0, 0xB4, 0xB8, 0xBC} then (Receiver([byte], 0), None)
            else if byte in {0x10, 0x14, 0x18, 0x1C, 0x30, 0x34, 0x38, 0x3C} then (Receiver([byte], 0), None)
            else (IDLE, None)
  {
  }

  /** Frames, then a byte that starts none: the frames come back, then what the byte means, and no frame is open. */
  lemma ByteBehindFrames(frames: seq<TpFrame>, cs: seq<Cemi.ValidFrame>, byte: bv8)
    requires EncodedFrom(frames, cs) && !IsFrameStart(byte)
    ensures FeedAll(IDLE, Wire(frames) + [byte]) == (IDLE, Indications(frames) + Listed(OnIdle(byte).1))
  {
    AllComeBack(frames, cs);
    OtherByte(byte);
    assert (Wire(frames) + [byte])[..|Wire(frames)|] == Wire(frames);
  }
}
