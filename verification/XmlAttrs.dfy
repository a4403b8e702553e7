/**
 Tag names and attributes of an open tag, and what rewriting makes of them. In a proper tag, one
 whose quotes all delimit attribute values, rewriting keeps the tag name and the attribute names,
 and maps each value exactly once.
 */
module XmlAttrs {
  import opened Basics
  import opened XmlScan
  import opened XmlRewrite
  import Renumber

  // ── Reading a tag ───────────────────────────────────────────────

  function WithoutSlash(body: string): string {
    if body != [] && body[|body| - 1] == '/' then body[..|body| - 1] else body
  }

  /** How many characters at the beginning satisfy the condition of a name, or of white space. */
  function NameLength(s: string): (n: nat)
    ensures n <= |s| && (n < |s| ==> IsSpace(s[n]))
  {
    if s == [] || IsSpace(s[0]) then 0 else 1 + NameLength(s[1..])
  }

  function SpaceLength(s: string): (n: nat)
    ensures n <= |s| && (n < |s| ==> !IsSpace(s[n]))
  {
    if s == [] || !IsSpace(s[0]) then 0 else 1 + SpaceLength(s[1..])
  }

  function KeyLength(s: string): (n: nat)
    ensures n <= |s| && (n < |s| ==> IsSpace(s[n]) || s[n] == '=')
  {
    if s == [] || IsSpace(s[0]) || s[0] == '=' then 0 else 1 + KeyLength(s[1..])
  }

  function SkipSpaces(s: string): string {
    s[SpaceLength(s)..]
  }

  function KeyOf(s: string): string {
    s[..KeyLength(s)]
  }

  function SkipKey(s: string): string {
    s[KeyLength(s)..]
  }

  /** The name at the beginning of a tag, and the text of its attributes. */
  function NameText(b: string): string {
    b[..NameLength(b)]
  }

  function AttrText(b: string): string {
    b[NameLength(b)..]
  }

  function TagName(body: string): string {
    NameText(WithoutSlash(body))
  }

  /** One attribute at the beginning of `s`: its name, its value, and what follows. */
  datatype Attribute = Attribute(name: string, value: string, rest: string)

  /** What starts at the sign between name and value: the value and the rest, if it is a quoted one. */
  function ValueAt(s: string): Option<(string, string)> {
    if s == [] || s[0] != '=' then None else QuotedValue(SkipSpaces(s[1..]))
  }

  function QuotedValue(quoted: string): (r: Option<(string, string)>)
    ensures r.Some? ==> |r.value.1| < |quoted|
  {
    if quoted == [] || !IsQuote(quoted[0]) then None
    else
      var value := Before(quoted[1..], quoted[0]);
      if 1 + |value| >= |quoted| then None else Some((value, quoted[|value| + 2..]))
  }

  /** The name of an attribute, and the text from the sign behind it on. */
  function NameAt(s: string): (r: (string, string))
    ensures |r.1| <= |s|
  {
    var named := SkipSpaces(s);
    (KeyOf(named), SkipSpaces(SkipKey(named)))
  }

  function FirstAttribute(s: string): (a: Option<Attribute>)
    ensures a.Some? ==> |a.value.rest| < |s|
  {
    match ValueAt(NameAt(s).1)
    case None => None
    case Some((value, rest)) => Some(Attribute(NameAt(s).0, value, rest))
  }

  /** The attributes from here on; one without a name is left out. */
  function Attributes(s: string): seq<(string, string)>
    decreases |s|
  {
    match FirstAttribute(s)
    case None => []
    case Some(a) => (if a.name == [] then [] else [(a.name, a.value)]) + Attributes(a.rest)
  }

  function ParseAttrs(body: string): seq<(string, string)> {
    Attributes(AttrText(WithoutSlash(body)))
  }

  // ── The loops ───────────────────────────────────────────────────

  method SkipSpacesFrom(b: string, start: nat) returns (i: nat)
    requires start <= |b|
    ensures start <= i <= |b| && b[i..] == SkipSpaces(b[start..])
  {
    i := start;
    while i < |b| && IsSpace(b[i])
      invariant start <= i <= |b| && SkipSpaces(b[i..]) == SkipSpaces(b[start..])
    {
      assert b[i..][1..] == b[i + 1..];
      assert SkipSpaces(b[i..]) == SkipSpaces(b[i + 1..]);
      i := i + 1;
    }
  }

  method SkipKeyFrom(b: string, start: nat) returns (i: nat)
    requires start <= |b|
    ensures start <= i <= |b| && b[start..i] == KeyOf(b[start..]) && b[i..] == SkipKey(b[start..])
  {
    i := start;
    while i < |b| && b[i] != '=' && !IsSpace(b[i])
      invariant start <= i <= |b| && i + KeyLength(b[i..]) == start + KeyLength(b[start..])
    {
      assert b[i..][1..] == b[i + 1..];
      i := i + 1;
    }
    SlicesOf(b, start, i);
  }

  lemma SlicesOf(b: string, start: nat, i: nat)
    requires start <= i <= |b|
    ensures b[start..][..i - start] == b[start..i] && b[start..][i - start..] == b[i..]
  {
  }

  /** The quoted value behind the sign at `start`, and where it ends. */
  method ValueFrom(b: string, start: nat) returns (value: Option<string>, next: nat)
    requires start <= |b|
    ensures start <= next <= |b|
    ensures match ValueAt(b[start..])
            case None => value.None?
            case Some((v, rest)) => value == Some(v) && b[next..] == rest
  {
    next := start;
    if start >= |b| || b[start] != '=' {
      return None, start;
    }
    assert b[start..][1..] == b[start + 1..];
    var i := SkipSpacesFrom(b, start + 1);
    value, next := QuotedFrom(b, i);
  }

  method QuotedFrom(b: string, i: nat) returns (value: Option<string>, next: nat)
    requires i <= |b|
    ensures i <= next <= |b|
    ensures match QuotedValue(b[i..])
            case None => value.None?
            case Some((v, rest)) => value == Some(v) && b[next..] == rest
  {
    if i >= |b| || !IsQuote(b[i]) {
      return None, i;
    }
    var valStart := i + 1;
    var j := ValueEnd(b, valStart, b[i]);
    ValueIs(b, i, j);
    if j >= |b| {
      return None, i;
    }
    return Some(b[valStart..j]), j + 1;
  }

  method NameFrom(b: string, start: nat) returns (name: string, sign: nat)
    requires start <= |b|
    ensures start <= sign <= |b| && (name, b[sign..]) == NameAt(b[start..])
  {
    var nameStart := SkipSpacesFrom(b, start);
    var nameEnd := SkipKeyFrom(b, nameStart);
    name := b[nameStart..nameEnd];
    sign := SkipSpacesFrom(b, nameEnd);
  }

  /** The attribute that starts at `start`, read character by character. */
  method AttributeFrom(b: string, start: nat) returns (a: Option<(string, string)>, next: nat)
    requires start <= |b|
    ensures start <= next <= |b|
    ensures match FirstAttribute(b[start..])
            case None => a.None?
            case Some(f) => a == Some((f.name, f.value)) && b[next..] == f.rest
  {
    var name, sign := NameFrom(b, start);
    var value, after := ValueFrom(b, sign);
    if value.None? {
      return None, start;
    }
    return Some((name, value.value)), after;
  }

  lemma ValueIs(b: string, i: nat, j: nat)
    requires i < j <= |b| && (j < |b| ==> b[j] == b[i]) && forall k :: i + 1 <= k < j ==> b[k] != b[i]
    ensures Before(b[i..][1..], b[i..][0]) == b[i + 1..j]
    ensures j < |b| ==> b[i..][j - i + 1..] == b[j + 1..]
  {
    assert b[i..][1..] == b[i + 1..];
    BeforeIs(b[i + 1..], b[i], j - i - 1);
    assert b[i + 1..][..j - i - 1] == b[i + 1..j];
  }

  /** The attributes of a tag in document order. */
  method ReadAttrs(body: string) returns (attrs: seq<(string, string)>)
    ensures attrs == ParseAttrs(body)
  {
    var b := WithoutSlash(body);
    attrs := [];
    var i := 0;
    assert b[0..] == b;
    while i < |b| && !IsSpace(b[i])
      invariant i <= |b| && i + NameLength(b[i..]) == NameLength(b)
    {
      assert b[i..][1..] == b[i + 1..];
      i := i + 1;
    }
    EmptyIsUnit(Attributes(b[i..]));
    while i < |b|
      invariant i <= |b| && attrs + Attributes(b[i..]) == ParseAttrs(body)
      decreases |b| - i
    {
      var a, next := AttributeFrom(b, i);
      if a.None? {
        EmptyIsUnit(attrs);
        return;
      }
      var more := if a.value.0 != [] then [a.value] else [];
      Associative(attrs, more, Attributes(b[next..]));
      attrs, i := attrs + more, next;
    }
    assert b[i..] == [];
    NoAttributes();
    EmptyIsUnit(attrs);
  }

  lemma NoAttributes()
    ensures Attributes([]) == []
  {
  }

  // ── Attributes piece by piece ───────────────────────────────────

  predicate AllSpaces(s: string) {
    forall i :: 0 <= i < |s| ==> IsSpace(s[i])
  }

  predicate IsKey(s: string) {
    forall i :: 0 <= i < |s| ==> !IsSpace(s[i]) && s[i] != '='
  }

  lemma {:induction false} SpacesThen(spaces: string, t: string)
    requires AllSpaces(spaces) && (t != [] ==> !IsSpace(t[0]))
    ensures SpaceLength(spaces + t) == |spaces| && SkipSpaces(spaces + t) == t
  {
    if spaces == [] {
      assert spaces + t == t;
    } else {
      SpacesThen(spaces[1..], t);
      var s := spaces + t;
      assert s[0] == spaces[0] && s[1..] == spaces[1..] + t;
      assert s[|spaces|..] == t;
    }
  }

  lemma {:induction false} KeyThen(key: string, t: string)
    requires IsKey(key) && (t != [] ==> IsSpace(t[0]) || t[0] == '=')
    ensures KeyLength(key + t) == |key| && KeyOf(key + t) == key && SkipKey(key + t) == t
  {
    if key == [] {
      assert key + t == t;
    } else {
      KeyThen(key[1..], t);
      assert (key + t)[1..] == key[1..] + t;
    }
  }

  lemma {:induction false} SpacesAre(s: string)
    ensures AllSpaces(s[..SpaceLength(s)]) && s == s[..SpaceLength(s)] + SkipSpaces(s)
  {
    if s != [] && IsSpace(s[0]) {
      SpacesAre(s[1..]);
      assert s[..SpaceLength(s)] == [s[0]] + s[1..][..SpaceLength(s[1..])];
    }
  }

  lemma {:induction false} KeyIs(s: string)
    ensures IsKey(KeyOf(s)) && s == KeyOf(s) + SkipKey(s)
  {
    if s != [] && !IsSpace(s[0]) && s[0] != '=' {
      KeyIs(s[1..]);
      assert s[..KeyLength(s)] == [s[0]] + s[1..][..KeyLength(s[1..])];
    }
  }

  /** The text between the beginning of an attribute and its value. */
  datatype Head = Head(before: string, key: string, after: string, gap: string)

  function HeadText(h: Head): string {
    h.before + (h.key + (h.after + ("=" + h.gap)))
  }

  predicate ValidHead(h: Head) {
    AllSpaces(h.before) && IsKey(h.key) && AllSpaces(h.after) && AllSpaces(h.gap) && (h.key == [] ==> h.after == [])
  }

  function Quoted(q: char, value: string, rest: string): string {
    [q] + value + [q] + rest
  }

  lemma QuotedParts(q: char, value: string, rest: string)
    requires forall i :: 0 <= i < |value| ==> value[i] != q
    ensures var s := Quoted(q, value, rest);
            && s[0] == q && Before(s[1..], q) == value && |value| + 2 <= |s| && s[|value| + 2..] == rest
  {
    var s := Quoted(q, value, rest);
    assert s[1..] == value + [q] + rest;
    BeforeIs(s[1..], q, |value|);
    assert s[1..][..|value|] == value;
  }

  /** A value is read behind its sign. */
  lemma ValueIsRead(gap: string, q: char, value: string, rest: string)
    requires AllSpaces(gap) && IsQuote(q) && forall i :: 0 <= i < |value| ==> value[i] != q
    ensures ValueAt("=" + gap + Quoted(q, value, rest)) == Some((value, rest))
  {
    var quoted := Quoted(q, value, rest);
    assert ("=" + gap + quoted)[1..] == gap + quoted;
    QuotedParts(q, value, rest);
    SpacesThen(gap, quoted);
  }

  /** An attribute is read from a head and a quoted value. */
  lemma HeadIsRead(h: Head, q: char, value: string, rest: string)
    requires ValidHead(h) && IsQuote(q) && forall i :: 0 <= i < |value| ==> value[i] != q
    ensures FirstAttribute(HeadText(h) + Quoted(q, value, rest)) == Some(Attribute(h.key, value, rest))
  {
    var sign := "=" + h.gap + Quoted(q, value, rest);
    HeadSplits(h, Quoted(q, value, rest));
    ValueIsRead(h.gap, q, value, rest);
    NameIsRead(h, sign);
  }

  lemma NameIsRead(h: Head, sign: string)
    requires ValidHead(h) && sign != [] && sign[0] == '='
    ensures NameAt(h.before + (h.key + (h.after + sign))) == (h.key, sign)
  {
    SpacesThen(h.before, h.key + (h.after + sign));
    KeyThen(h.key, h.after + sign);
    SpacesThen(h.after, sign);
  }

  lemma HeadSplits(h: Head, quoted: string)
    ensures HeadText(h) + quoted == h.before + (h.key + (h.after + ("=" + h.gap + quoted)))
  {
    Associative(h.before, h.key + (h.after + ("=" + h.gap)), quoted);
    Associative(h.key, h.after + ("=" + h.gap), quoted);
    Associative(h.after, "=" + h.gap, quoted);
  }

  lemma ValueIsQuoted(s: string) returns (gap: string, q: char)
    requires ValueAt(s).Some?
    ensures var (value, rest) := ValueAt(s).value;
            && AllSpaces(gap) && IsQuote(q) && (forall i :: 0 <= i < |value| ==> value[i] != q)
            && s == "=" + gap + Quoted(q, value, rest)
  {
    var quoted := SkipSpaces(s[1..]);
    q := quoted[0];
    gap := SpacesOf(s[1..]);
    QuotedIs(quoted);
    BehindSign(s, gap, quoted);
  }

  lemma BehindSign(s: string, gap: string, quoted: string)
    requires s != [] && s[0] == '=' && s[1..] == gap + quoted
    ensures s == "=" + gap + quoted
  {
    assert s == "=" + s[1..];
  }

  lemma QuotedIs(s: string)
    requires s != [] && |Before(s[1..], s[0])| + 2 <= |s|
    ensures var value := Before(s[1..], s[0]);
            && s == Quoted(s[0], value, s[|value| + 2..])
            && forall i :: 0 <= i < |value| ==> value[i] != s[0]
  {
    var value := Before(s[1..], s[0]);
    BeforeIsStart(s[1..], s[0]);
    assert s[1..][|value|] == s[0];
  }

  /** Whatever is read as an attribute consists of a head and a quoted value. */
  lemma AttributeIsHead(s: string) returns (h: Head, q: char)
    requires FirstAttribute(s).Some?
    ensures var a := FirstAttribute(s).value;
            && ValidHead(h) && h.key == a.name && IsQuote(q) && (forall i :: 0 <= i < |a.value| ==> a.value[i] != q)
            && s == HeadText(h) + Quoted(q, a.value, a.rest)
  {
    var a := FirstAttribute(s).value;
    var before, after := NameIsPart(s);
    var gap;
    gap, q := ValueIsQuoted(NameAt(s).1);
    h := Head(before, a.name, after, gap);
    HeadSplits(h, Quoted(q, a.value, a.rest));
  }

  lemma NameIsPart(s: string) returns (before: string, after: string)
    ensures var (key, sign) := NameAt(s);
            && AllSpaces(before) && IsKey(key) && AllSpaces(after) && (key == [] ==> after == [])
            && s == before + (key + (after + sign))
  {
    var named := SkipSpaces(s);
    before := s[..SpaceLength(s)];
    SpacesAre(s);
    KeyIs(named);
    after := SpacesOf(SkipKey(named));
    if KeyOf(named) == [] {
      NoSpaceLeft(s);
    }
  }

  lemma SpacesOf(s: string) returns (spaces: string)
    ensures AllSpaces(spaces) && s == spaces + SkipSpaces(s) && |spaces| == SpaceLength(s)
  {
    spaces := s[..SpaceLength(s)];
    SpacesAre(s);
  }

  lemma NoSpaceLeft(s: string)
    requires KeyOf(SkipSpaces(s)) == []
    ensures SpaceLength(SkipKey(SkipSpaces(s))) == 0
  {
    var named := SkipSpaces(s);
    assert SkipKey(named) == named;
  }

  // ── What rewriting makes of attributes ──────────────────────────

  /** All quotes delimit values of attributes that are read. */
  predicate ProperAttrs(s: string)
    decreases |s|
  {
    match FirstAttribute(s)
    case None => NoQuotes(s)
    case Some(a) => NoQuotes(a.name) && ProperAttrs(a.rest)
  }

  lemma {:induction false} TextIsKept(text: string, t: string, m: map<string, string>)
    requires NoQuotes(text)
    ensures MapValues(text + t, m) == text + MapValues(t, m)
  {
    if text == [] {
      assert text + t == t;
    } else {
      var s := text + t;
      assert s[0] == text[0] && s[1..] == text[1..] + t;
      TextIsKept(text[1..], t, m);
      MapPlain(s, m);
      Associative([text[0]], text[1..], MapValues(t, m));
      assert text == [text[0]] + text[1..];
    }
  }

  lemma ValueIsMapped(q: char, value: string, rest: string, m: map<string, string>)
    requires IsQuote(q) && forall i :: 0 <= i < |value| ==> value[i] != q
    ensures MapValues(Quoted(q, value, rest), m) == Quoted(q, Renumber.Lookup(m, value), MapValues(rest, m))
  {
    QuotedParts(q, value, rest);
    MapQuoted(Quoted(q, value, rest), m);
  }

  lemma HeadHasNoQuotes(h: Head)
    requires ValidHead(h) && NoQuotes(h.key)
    ensures NoQuotes(HeadText(h))
  {
    var parts := h.before + (h.key + (h.after + ("=" + h.gap)));
    assert NoQuotes("=" + h.gap);
    assert NoQuotes(h.after + ("=" + h.gap));
    assert NoQuotes(h.key + (h.after + ("=" + h.gap)));
  }

  /** The first attribute after rewriting: the same name, the mapped value, and the rewritten rest. */
  lemma FirstMapped(s: string, m: map<string, string>) returns (h: Head, q: char)
    requires FirstAttribute(s).Some? && NoQuotes(FirstAttribute(s).value.name) && QuoteFree(m)
    ensures var a := FirstAttribute(s).value;
            && ValidHead(h) && IsQuote(q) && NoQuotes(HeadText(h)) && h.key == a.name
            && (forall i :: 0 <= i < |a.value| ==> a.value[i] != q)
            && s == HeadText(h) + Quoted(q, a.value, a.rest)
            && MapValues(s, m) == HeadText(h) + Quoted(q, Renumber.Lookup(m, a.value), MapValues(a.rest, m))
            && FirstAttribute(MapValues(s, m))
               == Some(Attribute(a.name, Renumber.Lookup(m, a.value), MapValues(a.rest, m)))
  {
    var a := FirstAttribute(s).value;
    h, q := AttributeIsHead(s);
    HeadHasNoQuotes(h);
    TextIsKept(HeadText(h), Quoted(q, a.value, a.rest), m);
    ValueIsMapped(q, a.value, a.rest, m);
    if a.value in m {
      assert NoQuotes(m[a.value]);
    }
    HeadIsRead(h, q, Renumber.Lookup(m, a.value), MapValues(a.rest, m));
  }

  lemma NothingMapped(s: string, m: map<string, string>)
    requires NoQuotes(s)
    ensures MapValues(s, m) == s
  {
    TextIsKept(s, [], m);
    EmptyIsUnit(s);
  }

  /** Rewriting keeps the names of the attributes and maps each value exactly once. */
  lemma {:induction false} AttributesMapped(s: string, m: map<string, string>)
    requires ProperAttrs(s) && QuoteFree(m)
    ensures Attributes(MapValues(s, m)) == Renumber.RenamedAttrs(m, Attributes(s))
    ensures ProperAttrs(MapValues(s, m))
    decreases |s|
  {
    match FirstAttribute(s)
    case None => NothingMapped(s, m);
    case Some(a) =>
      var h, q := FirstMapped(s, m);
      AttributesMapped(a.rest, m);
      if a.name != [] {
        RenamedFirst(m, (a.name, a.value), Attributes(a.rest));
      } else {
        EmptyIsUnit(Attributes(a.rest));
        EmptyIsUnit(Attributes(MapValues(a.rest, m)));
      }
  }

  lemma RenamedFirst(m: map<string, string>, a: (string, string), rest: seq<(string, string)>)
    ensures Renumber.RenamedAttrs(m, [a] + rest)
         == [(a.0, Renumber.Lookup(m, a.1))] + Renumber.RenamedAttrs(m, rest)
  {
    assert ([a] + rest)[1..] == rest;
  }

  /** Behind proper attributes no quote is open. */
  lemma {:induction false} NoQuoteIsOpen(s: string, t: string, m: map<string, string>)
    requires ProperAttrs(s) && QuoteFree(m)
    ensures MapValues(s + t, m) == MapValues(s, m) + MapValues(t, m)
    decreases |s|
  {
    match FirstAttribute(s)
    case None =>
      NothingMapped(s, m);
      TextIsKept(s, t, m);
    case Some(a) =>
      var h, q := FirstMapped(s, m);
      NoQuoteIsOpen(a.rest, t, m);
      AppendRest(h, q, a.value, a.rest, t, m);
  }

  /** Both strings are empty, or end with the same character. */
  predicate SameLast(a: string, b: string) {
    if a == [] then b == [] else b != [] && a[|a| - 1] == b[|b| - 1]
  }

  lemma SameLastBehind(head: string, q: char, value: string, rest: string, value': string, rest': string)
    requires SameLast(rest, rest')
    ensures SameLast(head + Quoted(q, value, rest), head + Quoted(q, value', rest'))
  {
    LastOfQuoted(head, q, value, rest);
    LastOfQuoted(head, q, value', rest');
  }

  lemma LastOfQuoted(head: string, q: char, value: string, rest: string)
    ensures var s := head + Quoted(q, value, rest);
            s != [] && s[|s| - 1] == if rest == [] then q else rest[|rest| - 1]
  {
  }

  /** Proper attributes end with the same character after rewriting. */
  lemma {:induction false} LastIsKept(s: string, m: map<string, string>)
    requires ProperAttrs(s) && QuoteFree(m)
    ensures SameLast(s, MapValues(s, m))
    decreases |s|
  {
    match FirstAttribute(s)
    case None => NothingMapped(s, m);
    case Some(a) =>
      var h, q := FirstMapped(s, m);
      LastIsKept(a.rest, m);
      SameLastBehind(HeadText(h), q, a.value, a.rest, Renumber.Lookup(m, a.value), MapValues(a.rest, m));
  }

  lemma QuotedThen(q: char, value: string, rest: string, t: string)
    ensures Quoted(q, value, rest) + t == Quoted(q, value, rest + t)
  {
    Associative([q] + value + [q], rest, t);
  }

  lemma AppendRest(h: Head, q: char, value: string, rest: string, t: string, m: map<string, string>)
    requires NoQuotes(HeadText(h)) && IsQuote(q) && forall i :: 0 <= i < |value| ==> value[i] != q
    requires MapValues(rest + t, m) == MapValues(rest, m) + MapValues(t, m)
    ensures MapValues(HeadText(h) + Quoted(q, value, rest) + t, m)
         == HeadText(h) + Quoted(q, Renumber.Lookup(m, value), MapValues(rest, m)) + MapValues(t, m)
  {
    var head := HeadText(h);
    var new' := Renumber.Lookup(m, value);
    QuotedThen(q, value, rest, t);
    Associative(head, Quoted(q, value, rest), t);
    TextIsKept(head, Quoted(q, value, rest + t), m);
    ValueIsMapped(q, value, rest + t, m);
    QuotedThen(q, new', MapValues(rest, m), MapValues(t, m));
    Associative(head, Quoted(q, new', MapValues(rest, m)), MapValues(t, m));
  }

  // ── Whole tags ──────────────────────────────────────────────────

  /** A name without quotes, and proper attributes. */
  predicate ProperText(b: string) {
    NoQuotes(NameText(b)) && ProperAttrs(AttrText(b))
  }

  /** A body whose quotes all delimit attribute values, with an optional slash at its end. */
  predicate Proper(body: string) {
    ProperText(WithoutSlash(body))
  }

  predicate NoSpaces(name: string) {
    forall i :: 0 <= i < |name| ==> !IsSpace(name[i])
  }

  lemma {:induction false} NameThen(name: string, t: string)
    requires NoSpaces(name) && (t != [] ==> IsSpace(t[0]))
    ensures NameLength(name + t) == |name| && NameText(name + t) == name && AttrText(name + t) == t
  {
    if name == [] {
      assert name + t == t;
    } else {
      NameThen(name[1..], t);
      assert (name + t)[1..] == name[1..] + t;
    }
  }

  lemma {:induction false} NameIs(s: string)
    ensures NoSpaces(NameText(s)) && s == NameText(s) + AttrText(s)
    ensures AttrText(s) != [] ==> IsSpace(AttrText(s)[0])
  {
    if s != [] && !IsSpace(s[0]) {
      NameIs(s[1..]);
      assert NameText(s) == [s[0]] + NameText(s[1..]);
    }
  }

  lemma FirstIsKept(s: string, m: map<string, string>)
    requires s != []
    ensures MapValues(s, m) != [] && MapValues(s, m)[0] == s[0]
  {
  }

  /** A name and proper attributes, rewritten. */
  lemma TextMapped(b: string, m: map<string, string>)
    requires ProperText(b) && QuoteFree(m)
    ensures MapValues(b, m) == NameText(b) + MapValues(AttrText(b), m)
    ensures NameText(MapValues(b, m)) == NameText(b) && AttrText(MapValues(b, m)) == MapValues(AttrText(b), m)
  {
    NameIs(b);
    TextIsKept(NameText(b), AttrText(b), m);
    if AttrText(b) != [] {
      FirstIsKept(AttrText(b), m);
    } else {
      NothingMapped([], m);
    }
    NameThen(NameText(b), MapValues(AttrText(b), m));
  }

  /** Behind a proper text no quote is open. */
  lemma TextIsClosed(b: string, t: string, m: map<string, string>)
    requires ProperText(b) && QuoteFree(m)
    ensures MapValues(b + t, m) == MapValues(b, m) + MapValues(t, m)
  {
    var name, attrs := NameText(b), AttrText(b);
    NameIs(b);
    TextMapped(b, m);
    NoQuoteIsOpen(attrs, t, m);
    Associative(name, attrs, t);
    TextIsKept(name, attrs + t, m);
    Associative(name, MapValues(attrs, m), MapValues(t, m));
  }

  lemma TextEnds(b: string, m: map<string, string>)
    requires ProperText(b) && QuoteFree(m)
    ensures SameLast(b, MapValues(b, m))
  {
    NameIs(b);
    TextMapped(b, m);
    LastIsKept(AttrText(b), m);
    SameLastAfter(NameText(b), AttrText(b), MapValues(AttrText(b), m));
  }

  lemma SameLastAfter(name: string, a: string, b: string)
    requires SameLast(a, b)
    ensures SameLast(name + a, name + b)
  {
  }

  lemma SlashStays(body: string, m: map<string, string>)
    requires Proper(body) && QuoteFree(m)
    ensures WithoutSlash(MapValues(body, m)) == MapValues(WithoutSlash(body), m)
  {
    var b := WithoutSlash(body);
    if b != body {
      SlashApart(body);
      SlashIsPlain(body[|b|..]);
      PlainAfter(body, b, body[|b|..], m);
      SlashGoes(MapValues(b, m), body[|b|..]);
    } else {
      TextEnds(body, m);
      NoSlashGoes(body, MapValues(body, m));
    }
  }

  lemma NoSlashGoes(a: string, b: string)
    requires SameLast(a, b) && WithoutSlash(a) == a
    ensures WithoutSlash(b) == b
  {
  }

  lemma SlashApart(body: string)
    requires WithoutSlash(body) != body
    ensures var slash := body[|WithoutSlash(body)|..]; IsSlash(slash) && body == WithoutSlash(body) + slash
  {
  }

  predicate IsSlash(s: string) {
    |s| == 1 && s[0] == '/'
  }

  lemma SlashIsPlain(s: string)
    requires IsSlash(s)
    ensures NoQuotes(s)
  {
  }

  lemma SlashGoes(b: string, slash: string)
    requires IsSlash(slash)
    ensures WithoutSlash(b + slash) == b
  {
    assert (b + slash)[..|b|] == b;
  }

  /** A proper tag keeps its name under rewriting, and its attributes have the same names and the mapped values. */
  lemma TagMapped(body: string, m: map<string, string>)
    requires Proper(body) && QuoteFree(m)
    ensures TagName(MapValues(body, m)) == TagName(body)
    ensures ParseAttrs(MapValues(body, m)) == Renumber.RenamedAttrs(m, ParseAttrs(body))
    ensures Proper(MapValues(body, m))
  {
    var b := WithoutSlash(body);
    SlashStays(body, m);
    TextMapped(b, m);
    AttributesMapped(AttrText(b), m);
  }

  /** Behind the body of a proper tag no quote is open. */
  lemma BodyIsClosed(body: string, t: string, m: map<string, string>)
    requires Proper(body) && QuoteFree(m)
    ensures MapValues(body + t, m) == MapValues(body, m) + MapValues(t, m)
  {
    var tail := SlashTail(body);
    PlainBetween(WithoutSlash(body), tail, t, m);
  }

  lemma SlashTail(body: string) returns (tail: string)
    ensures body == WithoutSlash(body) + tail && NoQuotes(tail)
  {
    tail := body[|WithoutSlash(body)|..];
  }

  lemma PlainBetween(b: string, plain: string, t: string, m: map<string, string>)
    requires ProperText(b) && QuoteFree(m) && NoQuotes(plain)
    ensures MapValues(b + plain + t, m) == MapValues(b + plain, m) + MapValues(t, m)
  {
    Associative(b, plain, t);
    TextIsClosed(b, plain + t, m);
    TextIsKept(plain, t, m);
    PlainAfter(b + plain, b, plain, m);
    Associative(MapValues(b, m), plain, MapValues(t, m));
  }

  lemma PlainAfter(body: string, b: string, plain: string, m: map<string, string>)
    requires ProperText(b) && QuoteFree(m) && NoQuotes(plain) && body == b + plain
    ensures MapValues(body, m) == MapValues(b, m) + plain
  {
    TextIsClosed(b, plain, m);
    NothingMapped(plain, m);
  }

  lemma Bracketed(body: string, open: string, close: string, m: map<string, string>)
    requires Proper(body) && QuoteFree(m) && NoQuotes(open) && NoQuotes(close)
    ensures MapValues(open + (body + close), m) == open + (MapValues(body, m) + close)
  {
    NothingMapped(close, m);
    TextIsKept(open, body + close, m);
    BodyIsClosed(body, close, m);
  }

  lemma BodyBetween(text: string)
    requires |text| >= 2 && !IsQuote(text[0]) && !IsQuote(text[|text| - 1])
    ensures text == text[..1] + (Body(text) + text[|text| - 1..])
    ensures NoQuotes(text[..1]) && NoQuotes(text[|text| - 1..])
  {
  }

  lemma BodyOf(open: string, body: string, close: string)
    requires |open| == |close| == 1
    ensures Body(open + (body + close)) == body
  {
    var text := open + (body + close);
    assert text[1..|text| - 1] == body;
  }

  lemma BodyMappedBetween(open: string, body: string, close: string, m: map<string, string>)
    requires |open| == |close| == 1 && NoQuotes(open) && NoQuotes(close) && Proper(body) && QuoteFree(m)
    ensures Body(MapValues(open + (body + close), m)) == MapValues(body, m)
  {
    Bracketed(body, open, close, m);
    BodyOf(open, MapValues(body, m), close);
  }

  /** The body of a rewritten tag is the rewritten body. */
  lemma BodyMapped(text: string, m: map<string, string>)
    requires |text| >= 2 && !IsQuote(text[0]) && !IsQuote(text[|text| - 1]) && Proper(Body(text)) && QuoteFree(m)
    ensures Body(MapValues(text, m)) == MapValues(Body(text), m)
  {
    BodyBetween(text);
    BodyMappedBetween(text[..1], Body(text), text[|text| - 1..], m);
  }
}
