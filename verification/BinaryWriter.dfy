/** How lengths and strings are written before hashing, and that they can be read back. */
module BinaryWriter {
  import opened Basics
  import opened Cemi

  /** Seven bits at a time, lowest first; all octets but the last have the top bit set. */
  function Varint(value: nat): (r: Octets)
    ensures r != []
    decreases value
  {
    if value < 128 then [value as bv8] else [(value % 128) as bv8 | 0x80] + Varint(value / 128)
  }

  method WriteVarint(buf: Octets, value: nat) returns (r: Octets)
    ensures r == buf + Varint(value)
  {
    r := buf;
    var rest := value;
    var more := true;
    while more
      invariant if more then r + Varint(rest) == buf + Varint(value) else r == buf + Varint(value)
      decreases more, rest
    {
      var byte := (rest % 128) as bv8;
      ghost var before, all := r, Varint(rest);
      more := rest >= 128;
      if more {
        byte := byte | 0x80;
        Associative(before, [byte], Varint(rest / 128));
      }
      r := r + [byte];
      rest := rest / 128;
    }
  }

  /** A length and as many octets. */
  function Block(octets: Octets): Octets {
    Varint(|octets|) + octets
  }

  // ── Reading back ────────────────────────────────────────────────

  /** The value at the beginning of `s`, and what follows it. */
  function ReadVarint(s: Octets): (r: Option<(nat, Octets)>)
    ensures r.Some? ==> |r.value.1| < |s|
  {
    if s == [] then None
    else if s[0] & 0x80 == 0 then Some((s[0] as nat, s[1..]))
    else
      match ReadVarint(s[1..])
      case None => None
      case Some((high, rest)) => Some(((s[0] & 0x7F) as nat + 128 * high, rest))
  }

  lemma SevenBits(b: bv8)
    requires b < 128
    ensures b & 0x80 == 0
    ensures (b | 0x80) & 0x80 != 0 && (b | 0x80) & 0x7F == b
  {
  }

  lemma SmallOctet(n: nat)
    requires n < 128
    ensures n as bv8 < 128
  {
    OctetHolds(n);
  }

  lemma {:induction false} VarintReadsBack(value: nat, rest: Octets)
    ensures ReadVarint(Varint(value) + rest) == Some((value, rest))
    decreases value
  {
    var low := value % 128;
    OctetHolds(low);
    SmallOctet(low);
    SevenBits(low as bv8);
    var s := Varint(value) + rest;
    if value < 128 {
      assert s[1..] == rest;
    } else {
      VarintReadsBack(value / 128, rest);
      OneOctetBefore(low as bv8 | 0x80, Varint(value / 128), rest);
    }
  }

  lemma OneOctetBefore(b: bv8, more: Octets, rest: Octets)
    ensures ([b] + more + rest)[0] == b && ([b] + more + rest)[1..] == more + rest
  {
  }

  /** The lengths up to 127 take one octet, the next ones two. */
  lemma VarintExamples()
    ensures Varint(3) == [0x03] && Varint(127) == [0x7F] && Varint(128) == [0x80, 0x01] && Varint(300) == [0xAC, 0x02]
  {
    assert Varint(1) == [0x01] && Varint(2) == [0x02];
  }

  function ReadBlock(s: Octets): (r: Option<(Octets, Octets)>)
    ensures r.Some? ==> |r.value.1| < |s|
  {
    match ReadVarint(s)
    case None => None
    case Some((n, rest)) => if n > |rest| then None else Some((rest[..n], rest[n..]))
  }

  function Blocks(parts: seq<Octets>): Octets {
    if parts == [] then [] else Block(parts[0]) + Blocks(parts[1..])
  }

  function ReadBlocks(s: Octets): Option<seq<Octets>>
    decreases |s|
  {
    if s == [] then Some([])
    else
      match ReadBlock(s)
      case None => None
      case Some((first, rest)) =>
        match ReadBlocks(rest)
        case None => None
        case Some(more) => Some([first] + more)
  }

  lemma BlockReadsBack(octets: Octets, rest: Octets)
    ensures ReadBlock(Block(octets) + rest) == Some((octets, rest))
  {
    VarintReadsBack(|octets|, octets + rest);
    Associative(Varint(|octets|), octets, rest);
    assert (octets + rest)[..|octets|] == octets && (octets + rest)[|octets|..] == rest;
  }

  /** Strings that are written one after another can be told apart: they read back as they were. */
  lemma {:induction false} BlocksReadBack(parts: seq<Octets>)
    ensures ReadBlocks(Blocks(parts)) == Some(parts)
  {
    if parts != [] {
      BlockReadsBack(parts[0], Blocks(parts[1..]));
      BlocksReadBack(parts[1..]);
      assert parts == [parts[0]] + parts[1..];
    }
  }
}
