/**
 Documents as they are written: character data, comments, CDATA sections, markup and elements with
 quoted attributes. Reading such a text gives back exactly its elements, and renumbering it changes
 exactly the attribute values that are keys.
 */
module XmlWriting {
  import opened Basics
  import opened XmlScan
  import opened XmlRewrite
  import opened XmlAttrs
  import opened Renumber
  import opened RenumberBuild
  import opened RenumberText

  /** One attribute: its head up to the sign and the space behind it, and its value between quotes. */
  datatype Setting = Setting(head: Head, quote: char, value: string)

  /** What stands between angle brackets: a name, attributes, and what follows the last one. */
  datatype Inner = Inner(name: string, fields: seq<Setting>, tail: string)

  datatype Item =
    | Characters(text: string)
    | Comment(text: string)
    | CharacterData(text: string)
    | Markup(inner: Inner)
    | Element(inner: Inner, slash: string)

  // ── Text ────────────────────────────────────────────────────────

  function FieldsText(fields: seq<Setting>, more: string): string {
    if fields == [] then more
    else HeadText(fields[0].head) + Quoted(fields[0].quote, fields[0].value, FieldsText(fields[1..], more))
  }

  function InnerText(inner: Inner): string {
    inner.name + FieldsText(inner.fields, inner.tail)
  }

  function ItemText(item: Item): string {
    match item
    case Characters(text) => text
    case Comment(text) => "<!--" + text + "-->"
    case CharacterData(text) => "<![CDATA[" + text + "]]>"
    case Markup(inner) => "<" + (InnerText(inner) + ">")
    case Element(inner, slash) => "<" + (InnerText(inner) + slash + ">")
  }

  function Text(items: seq<Item>): string {
    if items == [] then [] else ItemText(items[0]) + Text(items[1..])
  }

  // ── What may be written ─────────────────────────────────────────

  /** Neither quotes nor the end of a tag. */
  predicate Plain(s: string) {
    forall i :: 0 <= i < |s| ==> !IsQuote(s[i]) && s[i] != '>'
  }

  predicate ValidSetting(f: Setting) {
    && ValidHead(f.head) && f.head.before != [] && f.head.key != [] && Plain(f.head.key)
    && IsQuote(f.quote) && forall i :: 0 <= i < |f.value| ==> f.value[i] != f.quote
  }

  predicate ValidInner(inner: Inner) {
    && inner.name != [] && NoSpaces(inner.name) && Plain(inner.name) && Plain(inner.tail)
    && forall i :: 0 <= i < |inner.fields| ==> ValidSetting(inner.fields[i])
  }

  /** The pattern stands at position `q`. */
  predicate OccursAt(s: string, pattern: string, q: nat) {
    q <= |s| && StartsWith(s[q..], pattern)
  }

  predicate FirstAt(s: string, pattern: string, p: nat) {
    OccursAt(s, pattern, p) && forall q: nat :: q < p ==> !OccursAt(s, pattern, q)
  }

  predicate ValidItem(item: Item) {
    match item
    case Characters(text) => '<' !in text
    case Comment(text) => FirstAt(ItemText(item), COMMENT_END, 4 + |text|)
    case CharacterData(text) => FirstAt(ItemText(item), CDATA_END, 9 + |text|)
    case Markup(inner) =>
      && ValidInner(inner) && inner.name[0] in {'/', '!', '?'}
      && !StartsWith(ItemText(item), COMMENT) && !StartsWith(ItemText(item), CDATA)
    case Element(inner, slash) =>
      && ValidInner(inner) && AllSpaces(inner.tail) && inner.name[0] !in {'!', '?'} && '/' !in inner.name
      && (slash == [] || slash == "/")
  }

  predicate ValidItems(items: seq<Item>) {
    forall i :: 0 <= i < |items| ==> ValidItem(items[i])
  }

  // ── What is read ────────────────────────────────────────────────

  function Pairs(fields: seq<Setting>): seq<(string, string)> {
    if fields == [] then [] else [(fields[0].head.key, fields[0].value)] + Pairs(fields[1..])
  }

  /** The elements in document order, by their names and attributes. */
  function ElementTags(items: seq<Item>): seq<Tag> {
    if items == [] then []
    else
      (if items[0].Element? then [Tag(NameOf(items[0].inner.name), Pairs(items[0].inner.fields))] else [])
      + ElementTags(items[1..])
  }

  // ── What is rewritten ───────────────────────────────────────────

  function NewValues(fields: seq<Setting>, m: map<string, string>): seq<Setting> {
    if fields == [] then []
    else
      var value := fields[0].value;
      [fields[0].(value := if value in m then m[value] else value)] + NewValues(fields[1..], m)
  }

  function NewItem(item: Item, m: map<string, string>): Item {
    if item.Element? then item.(inner := item.inner.(fields := NewValues(item.inner.fields, m))) else item
  }

  function NewItems(items: seq<Item>, m: map<string, string>): seq<Item> {
    if items == [] then [] else [NewItem(items[0], m)] + NewItems(items[1..], m)
  }

  // ── Attributes ──────────────────────────────────────────────────

  lemma NothingBehind(tail: string)
    requires AllSpaces(tail)
    ensures Attributes(tail) == []
  {
    SpacesThen(tail, []);
    EmptyIsUnit(tail);
  }

  lemma {:induction false} FieldsAreRead(fields: seq<Setting>, tail: string)
    requires AllSpaces(tail) && forall i :: 0 <= i < |fields| ==> ValidSetting(fields[i])
    ensures Attributes(FieldsText(fields, tail)) == Pairs(fields)
  {
    if fields == [] {
      NothingBehind(tail);
    } else {
      var f := fields[0];
      FieldsAreRead(fields[1..], tail);
      HeadIsRead(f.head, f.quote, f.value, FieldsText(fields[1..], tail));
    }
  }

  lemma StartsWithSpace(fields: seq<Setting>, tail: string)
    requires AllSpaces(tail) && forall i :: 0 <= i < |fields| ==> ValidSetting(fields[i])
    ensures FieldsText(fields, tail) != [] ==> IsSpace(FieldsText(fields, tail)[0])
  {
    if fields != [] {
      var h := fields[0].head;
      assert HeadText(h)[0] == h.before[0];
    }
  }

  lemma {:induction false} LastIsNoSlash(fields: seq<Setting>, tail: string)
    requires AllSpaces(tail) && forall i :: 0 <= i < |fields| ==> ValidSetting(fields[i])
    ensures var s := FieldsText(fields, tail); s != [] ==> s[|s| - 1] != '/'
  {
    if fields != [] {
      LastIsNoSlash(fields[1..], tail);
      LastOfQuoted(HeadText(fields[0].head), fields[0].quote, fields[0].value, FieldsText(fields[1..], tail));
    }
  }

  lemma SlashIsLeft(s: string, slash: string)
    requires s != [] && s[|s| - 1] != '/' && (slash == [] || slash == "/")
    ensures WithoutSlash(s + slash) == s
  {
    if slash == [] {
      EmptyIsUnit(s);
    } else {
      SlashGoes(s, slash);
    }
  }

  lemma LastOfInner(inner: Inner)
    requires ValidInner(inner) && AllSpaces(inner.tail) && '/' !in inner.name
    ensures var s := InnerText(inner); s != [] && s[|s| - 1] != '/'
  {
    LastIsNoSlash(inner.fields, inner.tail);
    var rest := FieldsText(inner.fields, inner.tail);
    assert rest == [] ==> inner.name + rest == inner.name && inner.name[|inner.name| - 1] in inner.name;
  }

  /** A written element is read with its name and its attributes, in order. */
  lemma ElementIsRead(inner: Inner, slash: string)
    requires ValidItem(Element(inner, slash))
    ensures TagName(InnerText(inner) + slash) == inner.name
    ensures ParseAttrs(InnerText(inner) + slash) == Pairs(inner.fields)
  {
    LastOfInner(inner);
    SlashIsLeft(InnerText(inner), slash);
    StartsWithSpace(inner.fields, inner.tail);
    NameThen(inner.name, FieldsText(inner.fields, inner.tail));
    FieldsAreRead(inner.fields, inner.tail);
  }

  // ── Where a tag ends ────────────────────────────────────────────

  function Later(n: nat, e: Option<nat>): Option<nat> {
    match e case None => None case Some(k) => Some(n + k)
  }

  lemma {:induction false} PlainIsSkipped(s: string, more: string)
    requires Plain(s)
    ensures TagEnd(s + more, None) == Later(|s|, TagEnd(more, None))
  {
    if s == [] {
      assert s + more == more;
    } else {
      PlainIsSkipped(s[1..], more);
      assert (s + more)[1..] == s[1..] + more;
    }
  }

  lemma QuotedIsSkipped(q: char, value: string, more: string)
    requires IsQuote(q) && forall i :: 0 <= i < |value| ==> value[i] != q
    ensures |Quoted(q, value, more)| == |value| + 2 + |more|
    ensures TagEnd(Quoted(q, value, more), None) == Later(|value| + 2, TagEnd(more, None))
  {
    SkipValue(value, q, more);
    assert Quoted(q, value, more)[1..] == value + [q] + more;
  }

  lemma HeadIsPlain(h: Head)
    requires ValidHead(h) && Plain(h.key)
    ensures Plain(HeadText(h))
  {
    assert Plain("=" + h.gap);
    assert Plain(h.after + ("=" + h.gap));
    assert Plain(h.key + (h.after + ("=" + h.gap)));
  }

  /** No tag ends between the beginnings of `text` and of `rest`, its end. */
  ghost predicate SkippedTo(text: string, rest: string) {
    |text| >= |rest| && TagEnd(text, None) == Later(|text| - |rest|, TagEnd(rest, None))
  }

  lemma {:induction false} FieldsAreSkipped(fields: seq<Setting>, more: string)
    requires forall i :: 0 <= i < |fields| ==> ValidSetting(fields[i])
    ensures SkippedTo(FieldsText(fields, more), more)
  {
    if fields != [] {
      FieldsAreSkipped(fields[1..], more);
      FieldIsSkipped(fields[0], FieldsText(fields, more), FieldsText(fields[1..], more));
      LaterTwice(FieldsText(fields, more), FieldsText(fields[1..], more), more);
    }
  }

  lemma LaterTwice(text: string, rest: string, more: string)
    requires SkippedTo(text, rest) && SkippedTo(rest, more)
    ensures SkippedTo(text, more)
  {
  }

  lemma FieldIsSkipped(f: Setting, text: string, rest: string)
    requires ValidSetting(f) && text == HeadText(f.head) + Quoted(f.quote, f.value, rest)
    ensures SkippedTo(text, rest)
  {
    HeadIsPlain(f.head);
    QuotedIsSkipped(f.quote, f.value, rest);
    HeadIsSkipped(HeadText(f.head), Quoted(f.quote, f.value, rest), rest);
  }

  lemma HeadIsSkipped(head: string, quoted: string, rest: string)
    requires Plain(head) && SkippedTo(quoted, rest)
    ensures SkippedTo(head + quoted, rest)
  {
    PlainIsSkipped(head, quoted);
  }

  lemma {:induction false} FieldsThen(fields: seq<Setting>, tail: string, more: string)
    ensures FieldsText(fields, tail) + more == FieldsText(fields, tail + more)
  {
    if fields != [] {
      var f := fields[0];
      var rest := FieldsText(fields[1..], tail);
      FieldsThen(fields[1..], tail, more);
      Associative(HeadText(f.head), Quoted(f.quote, f.value, rest), more);
      QuotedThen(f.quote, f.value, rest, more);
    }
  }

  lemma InnerThen(inner: Inner, more: string)
    ensures InnerText(inner) + more == inner.name + FieldsText(inner.fields, inner.tail + more)
  {
    FieldsThen(inner.fields, inner.tail, more);
    Associative(inner.name, FieldsText(inner.fields, inner.tail), more);
  }

  /** No end of a tag stands inside of it, unless in a quoted value. */
  lemma InnerIsSkipped(inner: Inner, more: string)
    requires ValidInner(inner)
    ensures TagEnd(InnerText(inner) + more, None) == Later(|InnerText(inner)|, TagEnd(more, None))
  {
    var rest := FieldsText(inner.fields, inner.tail + more);
    InnerThen(inner, more);
    PlainIsSkipped(inner.name, rest);
    FieldsAreSkipped(inner.fields, inner.tail + more);
    PlainIsSkipped(inner.tail, more);
    LengthsAdd(InnerText(inner), more, inner.name, rest, inner.tail, |rest| - |inner.tail + more|, TagEnd(more, None));
  }

  lemma LengthsAdd(s: string, more: string, name: string, rest: string, tail: string, n: nat, e: Option<nat>)
    requires s + more == name + rest && |rest| == n + |tail + more|
    ensures Later(|name|, Later(n, Later(|tail|, e))) == Later(|s|, e)
  {
    assert |s + more| == |name + rest|;
  }

  lemma EndsHere(end: string, more: string)
    requires |end| == 1 && end[0] == '>'
    ensures TagEnd(end + more, None) == Some(0)
  {
  }

  lemma SlashIsSkipped(slash: string, more: string)
    requires slash == [] || slash == "/"
    ensures TagEnd(slash + more, None) == Later(|slash|, TagEnd(more, None))
  {
    PlainIsSkipped(slash, more);
  }

  /** The tag `inner`, `slash` and `>` ends there. */
  lemma TagEndsThere(inner: Inner, slash: string, end: string, more: string)
    requires ValidInner(inner) && (slash == [] || slash == "/") && |end| == 1 && end[0] == '>'
    ensures TagEnd(InnerText(inner) + slash + end + more, None) == Some(|InnerText(inner) + slash|)
  {
    var s := InnerText(inner);
    Associative(s + slash, end, more);
    Associative(s, slash, end + more);
    InnerIsSkipped(inner, slash + (end + more));
    SlashIsSkipped(slash, end + more);
    EndsHere(end, more);
  }

  // ── One item ────────────────────────────────────────────────────

  /** What is read at the beginning of a text, and what becomes of it. */
  ghost predicate ReadAs(text: string, more: string, bodies: seq<string>, m: map<string, string>, mapped: string) {
    && Bodies(Pieces(text + more)) == bodies + Bodies(Pieces(more))
    && Rewritten(text + more, m) == mapped + Rewritten(more, m)
  }

  lemma OnePiece(p: Piece, more: string, m: map<string, string>)
    requires p.text != [] && FirstPiece(p.text + more) == p
    ensures ReadAs(p.text, more, if p.Open? then [Body(p.text)] else [], m, MapPiece(p, m).text)
  {
    FirstOf(p, more);
    BodiesOf(p, Pieces(more));
    RewriteFirst(p, Pieces(more), m);
  }

  lemma TwoTexts(a: string, b: string, more: string, m: map<string, string>)
    requires ReadAs(a, b + more, [], m, a) && ReadAs(b, more, [], m, b)
    ensures ReadAs(a + b, more, [], m, a + b)
  {
    Associative(a, b, more);
    Associative(a, b, Rewritten(more, m));
  }

  lemma OneCharacterIsKept(c: char, more: string)
    requires c != '<'
    ensures FirstPiece([c] + more) == Verbatim([c])
  {
    assert ([c] + more)[..1] == [c];
  }

  lemma {:induction false} CharactersAreKept(text: string, more: string, m: map<string, string>)
    requires '<' !in text
    ensures ReadAs(text, more, [], m, text)
  {
    if text == [] {
      assert text + more == more;
    } else {
      var rest := text[1..];
      OneCharacterIsKept(text[0], rest + more);
      OnePiece(Verbatim([text[0]]), rest + more, m);
      CharactersAreKept(rest, more, m);
      TwoTexts([text[0]], rest, more, m);
      assert text == [text[0]] + rest;
    }
  }

  lemma {:induction false} FindIs(s: string, pattern: string, p: nat)
    requires FirstAt(s, pattern, p) && pattern != []
    ensures Find(s, pattern) == Some(p)
    decreases p
  {
    assert s[0..] == s;
    assert OccursAt(s, pattern, 0) <==> StartsWith(s, pattern);
    if p > 0 {
      forall q: nat | q <= p - 1 ensures OccursAt(s[1..], pattern, q) <==> OccursAt(s, pattern, q + 1) {
        assert q + 1 <= |s| ==> s[1..][q..] == s[q + 1..];
      }
      FindIs(s[1..], pattern, p - 1);
    }
  }

  /** A section with its terminator behind its beginning is one piece. */
  lemma SectionIsKept(text: string, start: string, end: string, more: string, m: map<string, string>)
    requires (start == COMMENT && end == COMMENT_END) || (start == CDATA && end == CDATA_END)
    requires StartsWith(text, start) && |end| <= |text| && FirstAt(text, end, |text| - |end|)
    ensures ReadAs(text, more, [], m, text)
  {
    FindIs(text, end, |text| - |end|);
    SectionAgain(text, more, start, end);
    assert text[..|text|] == text;
    CommentLetters(text + more);
    OnePiece(Verbatim(text), more, m);
  }

  lemma InBrackets(open: string, body: string, end: string, more: string)
    requires |open| == |end| == 1 && open[0] == '<' && end[0] == '>' && body != []
    requires TagEnd(body + end + more, None) == Some(|body|)
    ensures var text := open + (body + end);
            && TagEnd((text + more)[1..], None) == Some(|text| - 2) && (text + more)[..|text|] == text
            && (text + more)[0] == '<' && (text + more)[1] == body[0] && |text + more| >= 2
            && Body(text) == body
  {
    var text := open + (body + end);
    assert (text + more)[1..] == body + end + more;
    BodyOf(open, body, end);
  }

  lemma MarkupIsKept(text: string, open: string, body: string, end: string, more: string, m: map<string, string>)
    requires |open| == |end| == 1 && open[0] == '<' && end[0] == '>' && body != []
    requires text == open + (body + end) && TagEnd(body + end + more, None) == Some(|body|)
    requires body[0] in {'/', '!', '?'} && !StartsWith(text, COMMENT) && !StartsWith(text, CDATA)
    ensures ReadAs(text, more, [], m, text)
  {
    InBrackets(open, body, end, more);
    CommentLetters(text);
    assert text[..|text|] == text;
    NoLongerStart(text, |text| - 1, more, COMMENT);
    NoLongerStart(text, |text| - 1, more, CDATA);
    OnePiece(Verbatim(text), more, m);
  }

  lemma ElementIsOpen(text: string, open: string, body: string, end: string, more: string, m: map<string, string>)
    requires |open| == |end| == 1 && open[0] == '<' && end[0] == '>' && body != []
    requires text == open + (body + end) && TagEnd(body + end + more, None) == Some(|body|)
    requires body[0] !in {'/', '!', '?'}
    ensures ReadAs(text, more, [body], m, MapValues(text, m))
  {
    InBrackets(open, body, end, more);
    CommentLetters(text + more);
    OnePiece(Open(text), more, m);
  }

  // ── What becomes of an element ──────────────────────────────────

  lemma {:induction false} FieldsAreMapped(fields: seq<Setting>, more: string, m: map<string, string>)
    requires forall i :: 0 <= i < |fields| ==> ValidSetting(fields[i])
    ensures MapValues(FieldsText(fields, more), m) == FieldsText(NewValues(fields, m), MapValues(more, m))
  {
    if fields != [] {
      var f := fields[0];
      var rest := FieldsText(fields[1..], more);
      FieldsAreMapped(fields[1..], more, m);
      HeadIsPlain(f.head);
      assert NoQuotes(HeadText(f.head));
      TextIsKept(HeadText(f.head), Quoted(f.quote, f.value, rest), m);
      ValueIsMapped(f.quote, f.value, rest, m);
      var changed := f.(value := if f.value in m then m[f.value] else f.value);
      assert NewValues(fields, m)[1..] == NewValues(fields[1..], m);
    }
  }

  lemma InnerIsMapped(inner: Inner, more: string, m: map<string, string>)
    requires ValidInner(inner)
    ensures MapValues(InnerText(inner) + more, m)
         == InnerText(inner.(fields := NewValues(inner.fields, m))) + MapValues(more, m)
  {
    var changed := inner.(fields := NewValues(inner.fields, m));
    InnerThen(inner, more);
    TextIsKept(inner.name, FieldsText(inner.fields, inner.tail + more), m);
    FieldsAreMapped(inner.fields, inner.tail + more, m);
    TextIsKept(inner.tail, more, m);
    InnerThen(changed, MapValues(more, m));
  }

  lemma ElementIsMapped(inner: Inner, open: string, slash: string, end: string, m: map<string, string>)
    requires ValidInner(inner) && NoQuotes(open) && NoQuotes(slash) && NoQuotes(end)
    ensures MapValues(open + (InnerText(inner) + slash + end), m)
         == open + (InnerText(inner.(fields := NewValues(inner.fields, m))) + slash + end)
  {
    TextIsKept(open, InnerText(inner) + slash + end, m);
    Associative(InnerText(inner), slash, end);
    InnerIsMapped(inner, slash + end, m);
    NothingMapped(slash + end, m);
    Associative(InnerText(inner.(fields := NewValues(inner.fields, m))), slash, end);
  }

  // ── Documents ───────────────────────────────────────────────────

  function ItemBodies(item: Item): seq<string> {
    if item.Element? then [InnerText(item.inner) + item.slash] else []
  }

  lemma FirstOfInner(inner: Inner, more: string)
    requires ValidInner(inner)
    ensures InnerText(inner) != [] && (InnerText(inner) + more)[0] == inner.name[0]
  {
  }

  lemma MarkupIsRead(inner: Inner, open: string, end: string, more: string, m: map<string, string>)
    requires |open| == |end| == 1 && open[0] == '<' && end[0] == '>' && ValidInner(inner)
    requires var text := open + (InnerText(inner) + end);
             inner.name[0] in {'/', '!', '?'} && !StartsWith(text, COMMENT) && !StartsWith(text, CDATA)
    ensures ReadAs(open + (InnerText(inner) + end), more, [], m, open + (InnerText(inner) + end))
  {
    var s := InnerText(inner);
    EmptyIsUnit(s);
    FirstOfInner(inner, []);
    TagEndsThere(inner, [], end, more);
    MarkupIsKept(open + (s + end), open, s, end, more, m);
  }

  lemma ElementIsFound(inner: Inner, open: string, slash: string, end: string, more: string, m: map<string, string>)
    requires |open| == |end| == 1 && open[0] == '<' && end[0] == '>'
    requires ValidInner(inner) && inner.name[0] !in {'/', '!', '?'} && (slash == [] || slash == "/")
    ensures var text := open + (InnerText(inner) + slash + end);
            ReadAs(text, more, [InnerText(inner) + slash], m, MapValues(text, m))
  {
    var body := InnerText(inner) + slash;
    FirstOfInner(inner, slash);
    TagEndsThere(inner, slash, end, more);
    ElementIsOpen(open + (body + end), open, body, end, more, m);
  }

  lemma SectionText(start: string, text: string, end: string)
    ensures StartsWith(start + text + end, start) && |start + text + end| == |start| + |text| + |end|
  {
  }

  /** How each item is read, and what becomes of it. */
  lemma ItemIsRead(item: Item, more: string, m: map<string, string>)
    requires ValidItem(item)
    ensures ReadAs(ItemText(item), more, ItemBodies(item), m, ItemText(NewItem(item, m)))
  {
    match item
    case Characters(text) => CharactersAreKept(text, more, m);
    case Comment(text) =>
      SectionText(COMMENT, text, COMMENT_END);
      SectionIsKept(ItemText(item), COMMENT, COMMENT_END, more, m);
    case CharacterData(text) =>
      SectionText(CDATA, text, CDATA_END);
      SectionIsKept(ItemText(item), CDATA, CDATA_END, more, m);
    case Markup(inner) => MarkupIsRead(inner, "<", ">", more, m);
    case Element(inner, slash) =>
      assert inner.name[0] in inner.name;
      ElementIsFound(inner, "<", slash, ">", more, m);
      ElementIsMapped(inner, "<", slash, ">", m);
  }

  lemma BodiesToTags(body: string, rest: seq<string>)
    ensures TagsOf([body] + rest) == [TagOf(body)] + TagsOf(rest)
  {
    assert ([body] + rest)[1..] == rest;
  }

  lemma TagsOfItem(item: Item, rest: seq<string>)
    requires ValidItem(item)
    ensures TagsOf(ItemBodies(item) + rest)
         == (if item.Element? then [Tag(NameOf(item.inner.name), Pairs(item.inner.fields))] else []) + TagsOf(rest)
  {
    if item.Element? {
      BodiesToTags(InnerText(item.inner) + item.slash, rest);
      ElementIsRead(item.inner, item.slash);
    } else {
      EmptyIsUnit(rest);
      EmptyIsUnit(TagsOf(rest));
    }
  }

  /** The tags of a written document are exactly its elements, with their attributes, in order. */
  lemma {:induction false} DocumentIsRead(items: seq<Item>)
    requires ValidItems(items)
    ensures DocTags(Text(items)) == ElementTags(items)
  {
    if items != [] {
      DocumentIsRead(items[1..]);
      ItemIsRead(items[0], Text(items[1..]), map[]);
      TagsOfItem(items[0], Bodies(Pieces(Text(items[1..]))));
    }
  }

  /** Rewriting changes exactly the attribute values of elements that are keys, and nothing else. */
  lemma {:induction false} DocumentIsRewritten(items: seq<Item>, m: map<string, string>)
    requires ValidItems(items)
    ensures Rewritten(Text(items), m) == Text(NewItems(items, m))
  {
    if items != [] {
      DocumentIsRewritten(items[1..], m);
      ItemIsRead(items[0], Text(items[1..]), m);
      NewFirst(items, m);
    }
  }

  lemma NewFirst(items: seq<Item>, m: map<string, string>)
    requires items != []
    ensures Text(NewItems(items, m)) == ItemText(NewItem(items[0], m)) + Text(NewItems(items[1..], m))
  {
    assert NewItems(items, m)[1..] == NewItems(items[1..], m);
  }

  /**
   Renumbering a written document: the map is built from its elements, and every attribute value of
   an element that is a key is replaced, once; comments, sections, markup, names, space and the
   quotes stay as they were.
   */
  lemma DocumentIsRenumbered(prefix: string, items: seq<Item>)
    requires ValidItems(items)
    ensures var built := Built(prefix, ElementTags(items));
            Renumbered(prefix, Text(items)) == if built.Err? then Err(built.error) else Ok(Text(NewItems(items, built.value)))
  {
    DocumentIsRead(items);
    var built := Built(prefix, ElementTags(items));
    if built.Ok? {
      DocumentIsRewritten(items, built.value);
    }
  }

  /** A document in which no tag ends has none. */
  lemma {:induction false} NothingIsOpen(s: string, m: map<string, string>)
    requires '>' !in s
    ensures DocTags(s) == [] && Rewritten(s, m) == s
    decreases |s|
  {
    if s != [] {
      var p := FirstPiece(s);
      var rest := s[|p.text|..];
      assert s == p.text + rest;
      NothingIsOpen(rest, m);
      OnlyVerbatim(s);
      BodiesOf(p, Pieces(rest));
      EmptyIsUnit(Bodies(Pieces(rest)));
      RewriteFirst(p, Pieces(rest), m);
    }
  }

  lemma OnlyVerbatim(s: string)
    requires s != [] && '>' !in s
    ensures FirstPiece(s).Verbatim?
  {
    NoEnd(s[1..], None);
  }

  lemma {:induction false} NoEnd(s: string, quote: Option<char>)
    requires '>' !in s
    ensures TagEnd(s, quote).None?
    decreases |s|
  {
    if s != [] {
      var inside :=
        if quote.Some? then (if s[0] == quote.value then None else quote)
        else if IsQuote(s[0]) then Some(s[0]) else None;
      NoEnd(s[1..], inside);
      assert s[0] in s;
    }
  }
}
