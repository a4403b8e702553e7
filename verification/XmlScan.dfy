/**
 The quote-aware scanner for the open tags of a product document. A document is a string of
 characters; every loop over byte positions is proved against a function on the rest of the string.
 */
module XmlScan {
  import opened Basics

  predicate IsQuote(c: char) {
    c == '"' || c == '\''
  }

  /** White space among the first 256 characters. */
  predicate IsSpace(c: char) {
    c in {' ', '\t', '\n', '\r'} || c as int in {0x0B, 0x0C, 0x85, 0xA0}
  }

  // ── Tags ────────────────────────────────────────────────────────

  /** Where the tag ends of which `s` is the rest, outside of quoted values; `quote` is the open one. */
  function TagEnd(s: string, quote: Option<char>): (e: Option<nat>)
    ensures e.Some? ==> e.value < |s| && s[e.value] == '>'
  {
    if s == [] then None
    else if quote.None? && s[0] == '>' then Some(0)
    else
      var inside :=
        if quote.Some? then (if s[0] == quote.value then None else quote)
        else if IsQuote(s[0]) then Some(s[0]) else None;
      match TagEnd(s[1..], inside)
      case None => None
      case Some(k) => Some(k + 1)
  }

  /** The index of the `>` that closes the tag opened at `start`. */
  method FindTagEnd(xml: string, start: nat) returns (e: Option<nat>)
    requires start < |xml|
    ensures e == match TagEnd(xml[start + 1..], None) case None => None case Some(k) => Some(start + 1 + k)
  {
    var i := start + 1;
    var quote: Option<char> := None;
    while i < |xml|
      invariant start + 1 <= i <= |xml|
      invariant TagEnd(xml[start + 1..], None)
             == match TagEnd(xml[i..], quote) case None => None case Some(k) => Some(i - (start + 1) + k)
    {
      var c := xml[i];
      assert xml[i..][0] == c && xml[i..][1..] == xml[i + 1..];
      match quote {
        case Some(q) =>
          if c == q {
            quote := None;
          }
        case None =>
          if IsQuote(c) {
            quote := Some(c);
          } else if c == '>' {
            return Some(i);
          }
      }
      i := i + 1;
    }
    return None;
  }

  /** The first occurrence of a terminator. */
  function Find(s: string, pattern: string): (p: Option<nat>)
    ensures p.Some? ==> p.value + |pattern| <= |s| && StartsWith(s[p.value..], pattern)
  {
    if StartsWith(s, pattern) then Some(0)
    else if s == [] then None
    else
      match Find(s[1..], pattern)
      case None => None
      case Some(k) => assert s[1..][k..] == s[k + 1..]; Some(k + 1)
  }

  const COMMENT: string := "<!--"
  const COMMENT_END: string := "-->"
  const CDATA: string := "<![CDATA["
  const CDATA_END: string := "]]>"

  /** How a document goes on: with one character of text, or with something between angle brackets. */
  datatype Piece = Verbatim(text: string) | Open(text: string)

  /** The length up to and including a terminator, or to the end. */
  function Through(s: string, pattern: string): (n: nat)
    requires pattern != []
    ensures n <= |s| && (s != [] ==> 0 < n)
  {
    match Find(s, pattern)
    case None => |s|
    case Some(p) => p + |pattern|
  }

  predicate IsMarkup(s: string) {
    |s| > 1 && s[1] in {'/', '!', '?'}
  }

  function FirstPiece(s: string): (p: Piece)
    requires s != []
    ensures p.text != [] && p.text <= s
  {
    if s[0] != '<' then Verbatim(s[..1])
    else if StartsWith(s, COMMENT) then Verbatim(s[..Through(s, COMMENT_END)])
    else if StartsWith(s, CDATA) then Verbatim(s[..Through(s, CDATA_END)])
    else
      match TagEnd(s[1..], None)
      case None => Verbatim(s)
      case Some(k) => if IsMarkup(s) then Verbatim(s[..k + 2]) else Open(s[..k + 2])
  }

  function Pieces(s: string): seq<Piece> {
    if s == [] then [] else [FirstPiece(s)] + Pieces(s[|FirstPiece(s).text|..])
  }

  /** The text between the angle brackets of an open tag. */
  function Body(text: string): string {
    if |text| < 2 then [] else text[1..|text| - 1]
  }

  /** The bodies of the open tags among the pieces. */
  function Bodies(pieces: seq<Piece>): seq<string> {
    if pieces == [] then []
    else (if pieces[0].Open? then [Body(pieces[0].text)] else []) + Bodies(pieces[1..])
  }

  /** The method for finding a terminator. */
  method FindFrom(xml: string, i: nat, pattern: string) returns (next: nat)
    requires i < |xml| && pattern != []
    ensures next == i + Through(xml[i..], pattern)
  {
    var e := Find(xml[i..], pattern);
    next := if e.Some? then i + e.value + |pattern| else |xml|;
  }

  /** Where the piece at position `i` ends, and whether it is an open tag. */
  method PieceAt(xml: string, i: nat) returns (next: nat, open: bool)
    requires i < |xml|
    ensures i < next <= |xml| && (open ==> i + 2 <= next)
    ensures Pieces(xml[i..]) == [if open then Open(xml[i..next]) else Verbatim(xml[i..next])] + Pieces(xml[next..])
  {
    ghost var s := xml[i..];
    assert forall k :: 0 <= k <= |s| ==> s[..k] == xml[i..i + k];
    open := false;
    if xml[i] != '<' {
      next := i + 1;
    } else if StartsWith(xml[i..], COMMENT) {
      next := FindFrom(xml, i, COMMENT_END);
    } else if StartsWith(xml[i..], CDATA) {
      next := FindFrom(xml, i, CDATA_END);
    } else {
      var end := FindTagEnd(xml, i);
      assert s[1..] == xml[i + 1..];
      next := if end.Some? then end.value + 1 else |xml|;
      open := end.Some? && !(i + 1 < |xml| && xml[i + 1] in {'/', '!', '?'});
    }
    PiecesAt(xml, i, next, if open then Open(xml[i..next]) else Verbatim(xml[i..next]));
  }

  /** Every open tag in document order, by its body. */
  method OpenTags(xml: string) returns (bodies: seq<string>)
    ensures bodies == Bodies(Pieces(xml))
  {
    bodies := [];
    var i := 0;
    assert xml[0..] == xml;
    EmptyIsUnit(Bodies(Pieces(xml)));
    while i < |xml|
      invariant i <= |xml| && bodies + Bodies(Pieces(xml[i..])) == Bodies(Pieces(xml))
      decreases |xml| - i
    {
      var next, open := PieceAt(xml, i);
      var more := if open then [xml[i + 1..next - 1]] else [];
      OneMoreBody(xml, i, next, open);
      Associative(bodies, more, Bodies(Pieces(xml[next..])));
      bodies, i := bodies + more, next;
    }
    EmptyIsUnit(bodies);
  }

  lemma PiecesAt(xml: string, i: nat, next: nat, p: Piece)
    requires i < next <= |xml| && FirstPiece(xml[i..]) == p && p.text == xml[i..next]
    ensures Pieces(xml[i..]) == [p] + Pieces(xml[next..])
  {
    assert xml[i..][|p.text|..] == xml[next..];
  }

  /** What the piece at position `i` adds to the bodies. */
  lemma OneMoreBody(xml: string, i: nat, next: nat, open: bool)
    requires i < next <= |xml| && (open ==> i + 2 <= next)
    requires Pieces(xml[i..]) == [if open then Open(xml[i..next]) else Verbatim(xml[i..next])] + Pieces(xml[next..])
    ensures Bodies(Pieces(xml[i..])) == (if open then [xml[i + 1..next - 1]] else []) + Bodies(Pieces(xml[next..]))
  {
    var p := if open then Open(xml[i..next]) else Verbatim(xml[i..next]);
    BodiesOf(p, Pieces(xml[next..]));
    assert open ==> Body(p.text) == xml[i + 1..next - 1];
  }

  /** An open tag stands between angle brackets. */
  lemma OpenIsLong(s: string)
    requires s != [] && FirstPiece(s).Open?
    ensures |FirstPiece(s).text| >= 2 && FirstPiece(s).text[0] == '<'
    ensures FirstPiece(s).text[|FirstPiece(s).text| - 1] == '>'
  {
    var k := TagEnd(s[1..], None).value;
    assert s[1..][k] == s[k + 1];
  }

  lemma BodiesOf(p: Piece, rest: seq<Piece>)
    ensures Bodies([p] + rest) == (if p.Open? then [Body(p.text)] else []) + Bodies(rest)
  {
    assert ([p] + rest)[1..] == rest;
  }
}
