/**
 Renumbering of a whole document: scanning its tags, building the map, and rewriting the text.
 Where every quote of an open tag delimits an attribute value, the tags of the rewritten text are
 the renamed tags of the text, and what holds for renumbering tags holds for renumbering text.
 */
module RenumberText {
  import opened Basics
  import opened Decimal
  import opened XmlScan
  import opened XmlRewrite
  import opened XmlAttrs
  import opened Renumber
  import opened RenumberBuild
  import opened RenumberMaps
  import opened RenumberTwice
  import opened RenumberGraph
  import opened RenumberClash
  import Sanity

  // ── The tags of a document ──────────────────────────────────────

  function TagOf(body: string): Tag {
    Tag(NameOf(TagName(body)), ParseAttrs(body))
  }

  function TagsOf(bodies: seq<string>): seq<Tag> {
    if bodies == [] then [] else [TagOf(bodies[0])] + TagsOf(bodies[1..])
  }

  function DocTags(xml: string): seq<Tag> {
    TagsOf(Bodies(Pieces(xml)))
  }

  method ReadTags(bodies: seq<string>) returns (tags: seq<Tag>)
    ensures tags == TagsOf(bodies)
  {
    tags := [];
    assert bodies[0..] == bodies;
    EmptyIsUnit(TagsOf(bodies));
    for i := 0 to |bodies|
      invariant tags + TagsOf(bodies[i..]) == TagsOf(bodies)
    {
      var attrs := ReadAttrs(bodies[i]);
      var tag := Tag(NameOf(TagName(bodies[i])), attrs);
      assert bodies[i..][1..] == bodies[i + 1..];
      Associative(tags, [tag], TagsOf(bodies[i + 1..]));
      tags := tags + [tag];
    }
    EmptyIsUnit(tags);
  }

  /** The renumbered text, or what is wrong with the ids. */
  function Renumbered(prefix: string, xml: string): Result<string, Fault> {
    match Built(prefix, DocTags(xml))
    case Err(f) => Err(f)
    case Ok(m) => Ok(Rewritten(xml, m))
  }

  /** Renumber a document of the application program whose ids start with `prefix`. */
  method RenumberIds(prefix: string, xml: string) returns (r: Result<string, Fault>)
    ensures r == Renumbered(prefix, xml)
  {
    var bodies := OpenTags(xml);
    var tags := ReadTags(bodies);
    var built := BuildMap(prefix, tags);
    match built {
      case Err(f) => return Err(f);
      case Ok(m) =>
        var out := RewriteIds(xml, m);
        return Ok(out);
    }
  }

  // ── Rewriting text is renaming tags ─────────────────────────────

  predicate AllProper(bodies: seq<string>) {
    bodies == [] || (Proper(bodies[0]) && AllProper(bodies[1..]))
  }

  /** The quotes of open tags delimit attribute values. */
  predicate ProperDocument(xml: string) {
    AllProper(Bodies(Pieces(xml)))
  }

  predicate Angled(p: Piece) {
    p.Open? ==> |p.text| >= 2 && p.text[0] == '<' && p.text[|p.text| - 1] == '>'
  }

  predicate AllAngled(pieces: seq<Piece>) {
    pieces == [] || (Angled(pieces[0]) && AllAngled(pieces[1..]))
  }

  lemma {:induction false} PiecesAreAngled(s: string)
    ensures AllAngled(Pieces(s))
    decreases |s|
  {
    if s != [] {
      if FirstPiece(s).Open? {
        OpenIsLong(s);
      }
      var rest := s[|FirstPiece(s).text|..];
      PiecesAreAngled(rest);
      assert ([FirstPiece(s)] + Pieces(rest))[1..] == Pieces(rest);
    }
  }

  /** The tags of one piece. */
  function PieceTags(p: Piece): seq<Tag> {
    if p.Open? then [TagOf(Body(p.text))] else []
  }

  lemma TagsOfPieces(p: Piece, rest: seq<Piece>)
    ensures TagsOf(Bodies([p] + rest)) == PieceTags(p) + TagsOf(Bodies(rest))
    ensures AllProper(Bodies([p] + rest)) <==> (p.Open? ==> Proper(Body(p.text))) && AllProper(Bodies(rest))
  {
    BodiesOf(p, rest);
    if p.Open? {
      assert ([Body(p.text)] + Bodies(rest))[1..] == Bodies(rest);
    } else {
      EmptyIsUnit(Bodies(rest));
      EmptyIsUnit(TagsOf(Bodies(rest)));
    }
  }

  lemma PieceMapped(p: Piece, m: map<string, string>)
    requires Angled(p) && (p.Open? ==> Proper(Body(p.text))) && QuoteFree(m)
    ensures p.Open? ==> Proper(Body(MapPiece(p, m).text))
    ensures PieceTags(MapPiece(p, m)) == RenamedTags(m, PieceTags(p))
  {
    if p.Open? {
      OpenTagMapped(p.text, m, MapValues(p.text, m));
      OneRenamed(m, TagOf(Body(p.text)));
    }
  }

  lemma OpenTagMapped(text: string, m: map<string, string>, mapped: string)
    requires Angled(Open(text)) && Proper(Body(text)) && QuoteFree(m) && mapped == MapValues(text, m)
    ensures Proper(Body(mapped)) && TagOf(Body(mapped)) == RenamedTag(m, TagOf(Body(text)))
  {
    BracketsArePlain(text);
    BodyMapped(text, m);
    BodyTagMapped(Body(text), m);
  }

  lemma BracketsArePlain(text: string)
    requires Angled(Open(text))
    ensures |text| >= 2 && !IsQuote(text[0]) && !IsQuote(text[|text| - 1])
  {
  }

  lemma BodyTagMapped(body: string, m: map<string, string>)
    requires Proper(body) && QuoteFree(m)
    ensures Proper(MapValues(body, m)) && TagOf(MapValues(body, m)) == RenamedTag(m, TagOf(body))
  {
    TagMapped(body, m);
  }

  lemma OneRenamed(m: map<string, string>, t: Tag)
    ensures RenamedTags(m, [t]) == [RenamedTag(m, t)]
  {
  }

  lemma {:induction false} PiecesMapped(pieces: seq<Piece>, m: map<string, string>)
    requires AllAngled(pieces) && AllProper(Bodies(pieces)) && QuoteFree(m)
    ensures TagsOf(Bodies(MapPieces(pieces, m))) == RenamedTags(m, TagsOf(Bodies(pieces)))
    ensures AllProper(Bodies(MapPieces(pieces, m)))
  {
    if pieces != [] {
      var p, rest := pieces[0], pieces[1..];
      assert pieces == [p] + rest;
      TagsOfPieces(p, rest);
      PiecesMapped(rest, m);
      FirstPieceMapped(p, rest, MapPieces(rest, m), m);
    }
  }

  lemma FirstPieceMapped(p: Piece, rest: seq<Piece>, mapped: seq<Piece>, m: map<string, string>)
    requires Angled(p) && (p.Open? ==> Proper(Body(p.text))) && QuoteFree(m)
    requires TagsOf(Bodies(mapped)) == RenamedTags(m, TagsOf(Bodies(rest))) && AllProper(Bodies(mapped))
    ensures TagsOf(Bodies([MapPiece(p, m)] + mapped)) == RenamedTags(m, PieceTags(p) + TagsOf(Bodies(rest)))
    ensures AllProper(Bodies([MapPiece(p, m)] + mapped))
  {
    TagsOfPieces(MapPiece(p, m), mapped);
    PieceMapped(p, m);
    RenamedApart(m, PieceTags(p), TagsOf(Bodies(rest)));
  }

  lemma RenamedApart(m: map<string, string>, a: seq<Tag>, b: seq<Tag>)
    ensures RenamedTags(m, a + b) == RenamedTags(m, a) + RenamedTags(m, b)
  {
  }

  /**
   Rewriting is a simultaneous substitution that commutes with reading the tags: each keeps its name
   and the names of its attributes, and each value is mapped exactly once.
   */
  lemma ReadingRewritten(xml: string, m: map<string, string>)
    requires ProperDocument(xml) && QuoteFree(m)
    ensures DocTags(Rewritten(xml, m)) == RenamedTags(m, DocTags(xml))
    ensures ProperDocument(Rewritten(xml, m))
  {
    ScanningRewritten(xml, m);
    PiecesAreAngled(xml);
    PiecesMapped(Pieces(xml), m);
  }

  // ── New ids have no quotes ──────────────────────────────────────

  lemma PlainJoined(a: string, b: string)
    requires NoQuotes(a) && NoQuotes(b)
    ensures NoQuotes(a + b)
  {
  }

  lemma DigitsArePlain(s: string)
    requires IsDigits(s)
    ensures NoQuotes(s)
  {
  }

  lemma NewIdIsPlain(prefix: string, marker: Marker, n: nat)
    requires NoQuotes(prefix)
    ensures NoQuotes(NewId(prefix, marker, n))
  {
    DigitsArePlain(Digits(n));
    PlainJoined(prefix, Text(marker));
    PlainJoined(prefix + Text(marker), "-");
    PlainJoined(prefix + Text(marker) + "-", Digits(n));
  }

  lemma FollowingIsPlain(more: string)
    requires Sanity.Follows(more)
    ensures NoQuotes(more)
  {
    if more != [] {
      DigitsArePlain(more[3..]);
      assert more == BOUNDARY + more[3..];
      PlainJoined(BOUNDARY, more[3..]);
    }
  }

  lemma NewIdsAreQuoteFree(prefix: string, tags: seq<Tag>)
    requires NoQuotes(prefix)
    ensures QuoteFree(Renaming(prefix, tags))
  {
    forall id | id in Renaming(prefix, tags) ensures NoQuotes(Renaming(prefix, tags)[id]) {
      var marker, n, more := Sanity.ShapeOfNewId(prefix, tags, id);
      NewIdIsPlain(prefix, marker, n);
      FollowingIsPlain(more);
      PlainJoined(NewId(prefix, marker, n), more);
    }
  }

  // ── Renumbering text twice ──────────────────────────────────────

  lemma IdentityValue(value: string, m: map<string, string>)
    requires IsIdentity(m)
    ensures Lookup(m, value) == value
  {
  }

  lemma {:induction false} NothingReplaced(s: string, m: map<string, string>)
    requires IsIdentity(m)
    ensures MapValues(s, m) == s
    decreases |s|
  {
    if s != [] {
      if !IsQuote(s[0]) {
        NothingReplaced(s[1..], m);
      } else {
        var value := Before(s[1..], s[0]);
        BeforeIsStart(s[1..], s[0]);
        IdentityValue(value, m);
        if |value| + 2 <= |s| {
          NothingReplaced(s[|value| + 2..], m);
          MapQuoted(s, m);
          QuotedIs(s);
        } else {
          assert s == [s[0]] + value && s[1 + |value|..] == [];
        }
      }
    }
  }

  lemma {:induction false} NothingRewritten(xml: string, m: map<string, string>)
    requires IsIdentity(m)
    ensures Rewritten(xml, m) == xml
    decreases |xml|
  {
    if xml != [] {
      var text := FirstPiece(xml).text;
      NothingRewritten(xml[|text|..], m);
      FirstNotRewritten(xml, m, text, Rewritten(xml[|text|..], m));
    }
  }

  lemma FirstNotRewritten(xml: string, m: map<string, string>, text: string, rest: string)
    requires IsIdentity(m) && xml != [] && text == FirstPiece(xml).text
    requires rest == Rewritten(xml[|text|..], m) && rest == xml[|text|..]
    ensures Rewritten(xml, m) == xml
  {
    RewriteFirst(FirstPiece(xml), Pieces(xml[|text|..]), m);
    NothingReplaced(text, m);
    assert xml == text + xml[|text|..];
  }

  /** A renaming that is not the identity changes the tag that declares one of its keys. */
  lemma KeyIsChanged(prefix: string, tags: seq<Tag>)
    requires !IsIdentity(Renaming(prefix, tags))
    ensures RenamedTags(Renaming(prefix, tags), tags) != tags
  {
    var m := Renaming(prefix, tags);
    var id :| id in m && m[id] != id;
    var i := EntryFrom(prefix, tags, id);
    RenamedAttr(m, tags[i].attrs, "Id");
    assert RenamedTags(m, tags)[i] != tags[i];
  }

  lemma {:induction false} TagsTakeRoom(pieces: seq<Piece>)
    requires AllAngled(pieces)
    ensures 2 * |TagsOf(Bodies(pieces))| <= |Concat(pieces)|
  {
    if pieces != [] {
      var p, rest := pieces[0], pieces[1..];
      assert pieces == [p] + rest;
      TagsOfPieces(p, rest);
      TagsTakeRoom(rest);
    }
  }

  lemma {:induction false} PiecesMakeText(s: string)
    ensures Concat(Pieces(s)) == s
    decreases |s|
  {
    if s != [] {
      var p := FirstPiece(s);
      var rest := s[|p.text|..];
      PiecesMakeText(rest);
      assert ([p] + Pieces(rest))[1..] == Pieces(rest);
      assert s == p.text + rest;
    }
  }

  lemma FewTags(xml: string)
    ensures 2 * |DocTags(xml)| <= |xml|
  {
    PiecesAreAngled(xml);
    TagsTakeRoom(Pieces(xml));
    PiecesMakeText(xml);
  }

  /** What the tags of a renumbered document are. */
  lemma TagsOfRenumbered(prefix: string, xml: string)
    requires NoQuotes(prefix) && ProperDocument(xml) && Renumbered(prefix, xml).Ok?
    ensures DocTags(Renumbered(prefix, xml).value) == Again(prefix, DocTags(xml))
    ensures ProperDocument(Renumbered(prefix, xml).value)
  {
    NewIdsAreQuoteFree(prefix, DocTags(xml));
    ReadingRewritten(xml, Renaming(prefix, DocTags(xml)));
  }

  /**
   Idempotence of the text: renumbering a renumbered document succeeds, and gives the same text, if
   and only if there are no two parameter references under different com-objects with the same
   number, the later of which is not overtaken by another reference.
   */
  lemma RenumberingTextTwice(prefix: string, xml: string)
    requires Underscored(prefix) && NoQuotes(prefix) && |xml| <= U64_MAX
    requires ProperDocument(xml) && Renumbered(prefix, xml).Ok?
    ensures var out := Renumbered(prefix, xml).value;
            && Renumbered(prefix, out).Ok?
            && (Renumbered(prefix, out) == Ok(out) <==> !NumbersClash(prefix, DocTags(xml)))
  {
    var tags := DocTags(xml);
    var out := Renumbered(prefix, xml).value;
    FewTags(xml);
    TagsOfRenumbered(prefix, xml);
    RenumbersOnceExactlyWhen(prefix, tags);
    SecondTime(prefix, out);
  }

  lemma SecondTime(prefix: string, out: string)
    requires NoQuotes(prefix) && ProperDocument(out) && Renumbered(prefix, out).Ok?
    ensures Renumbered(prefix, out) == Ok(out) <==> IsIdentity(Built(prefix, DocTags(out)).value)
  {
    var m := Renaming(prefix, DocTags(out));
    if IsIdentity(m) {
      NothingRewritten(out, m);
    } else {
      TagsOfRenumbered(prefix, out);
      KeyIsChanged(prefix, DocTags(out));
    }
  }

  /** Where parameter references belong to parameters, renumbering text is idempotent. */
  lemma OwnKindTextTwice(prefix: string, xml: string)
    requires Underscored(prefix) && NoQuotes(prefix) && |xml| <= U64_MAX
    requires ProperDocument(xml) && Renumbered(prefix, xml).Ok? && OwnKind(prefix, DocTags(xml))
    ensures var out := Renumbered(prefix, xml).value; Renumbered(prefix, out) == Ok(out)
  {
    FewTags(xml);
    OwnKindRenumbersOnce(prefix, DocTags(xml));
    RenumbersOnceExactlyWhen(prefix, DocTags(xml));
    RenumberingTextTwice(prefix, xml);
  }

  // ── References in the text ──────────────────────────────────────

  /** No element has an id that is not renamed but equals a new id. */
  ghost predicate NothingCaptured(tags: seq<Tag>, m: map<string, string>) {
    forall id :: id in m ==> Captured(tags, m, m[id]) == {}
  }

  lemma {:induction false} ValueRenamed(m: map<string, string>, attrs: seq<(string, string)>, a: nat)
    requires a < |attrs|
    ensures |RenamedAttrs(m, attrs)| == |attrs|
    ensures RenamedAttrs(m, attrs)[a] == (attrs[a].0, Lookup(m, attrs[a].1))
    decreases attrs
  {
    if a > 0 {
      ValueRenamed(m, attrs[1..], a - 1);
    } else if |attrs| > 1 {
      ValueRenamed(m, attrs[1..], 0);
    }
  }

  /**
   References keep their element. In the text of a document whose new ids are all different, an
   attribute value that named an element by a renamed id names exactly the same element afterwards,
   as long as no id that is not renamed equals a new one.
   */
  lemma ReferencesInTextResolve(prefix: string, xml: string, i: nat, a: nat)
    requires NoQuotes(prefix) && ProperDocument(xml) && Renumbered(prefix, xml).Ok?
    requires DistinctIds(prefix, DocTags(xml)) && DistinctNumbers(prefix, DocTags(xml))
    requires NothingCaptured(DocTags(xml), Renaming(prefix, DocTags(xml)))
    requires i < |DocTags(xml)| && a < |DocTags(xml)[i].attrs|
    requires DocTags(xml)[i].attrs[a].1 in Renaming(prefix, DocTags(xml))
    ensures var tags := DocTags(xml);
            var after := DocTags(Renumbered(prefix, xml).value);
            && |after| == |tags| && |after[i].attrs| == |tags[i].attrs|
            && after[i].attrs[a].0 == tags[i].attrs[a].0
            && Elements(after, after[i].attrs[a].1) == Elements(tags, tags[i].attrs[a].1)
  {
    var tags := DocTags(xml);
    var m := Renaming(prefix, tags);
    TagsOfRenumbered(prefix, xml);
    InjectiveExactlyWhen(prefix, tags);
    ValueRenamed(m, tags[i].attrs, a);
    ReferencesResolve(tags, m, tags[i].attrs[a].1);
  }

  /** Without that, the new id names besides exactly the elements that had it all along. */
  lemma ReferencesInTextExactly(prefix: string, xml: string, id: string)
    requires NoQuotes(prefix) && ProperDocument(xml) && Renumbered(prefix, xml).Ok?
    requires DistinctIds(prefix, DocTags(xml)) && DistinctNumbers(prefix, DocTags(xml))
    requires id in Renaming(prefix, DocTags(xml))
    ensures var tags := DocTags(xml);
            var m := Renaming(prefix, tags);
            Elements(DocTags(Renumbered(prefix, xml).value), m[id]) == Elements(tags, id) + Captured(tags, m, m[id])
  {
    var tags := DocTags(xml);
    TagsOfRenumbered(prefix, xml);
    InjectiveExactlyWhen(prefix, tags);
    ReferencesResolve(tags, Renaming(prefix, tags), id);
  }
}
