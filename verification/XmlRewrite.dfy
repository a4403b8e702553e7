/**
 Rewriting attribute values in a single pass. For every document, scanning the rewritten text
 finds the same pieces as before, with the quoted values of open tags mapped once and every other
 character unchanged.
 */
module XmlRewrite {
  import opened Basics
  import opened XmlScan
  import Renumber

  /** The characters before the next `c`, or all of them. */
  function Before(s: string, c: char): (r: string)
    ensures |r| <= |s| && (|r| < |s| ==> s[|r|] == c)
  {
    if s == [] || s[0] == c then [] else [s[0]] + Before(s[1..], c)
  }

  lemma {:induction false} BeforeIsStart(s: string, c: char)
    ensures Before(s, c) <= s && forall i :: 0 <= i < |Before(s, c)| ==> Before(s, c)[i] != c
  {
    if s != [] && s[0] != c {
      BeforeIsStart(s[1..], c);
    }
  }

  /** A tag, or the rest of one, with each quoted value replaced that is a key. */
  function MapValues(s: string, m: map<string, string>): string
    decreases |s|
  {
    if s == [] then []
    else if !IsQuote(s[0]) then [s[0]] + MapValues(s[1..], m)
    else
      var value := Before(s[1..], s[0]);
      var rest := s[1 + |value|..];
      if rest == [] then [s[0]] + Renumber.Lookup(m, value)
      else [s[0]] + Renumber.Lookup(m, value) + [s[0]] + MapValues(rest[1..], m)
  }

  function MapPiece(p: Piece, m: map<string, string>): Piece {
    match p
    case Verbatim(text) => p
    case Open(text) => Open(MapValues(text, m))
  }

  function MapPieces(pieces: seq<Piece>, m: map<string, string>): seq<Piece> {
    if pieces == [] then [] else [MapPiece(pieces[0], m)] + MapPieces(pieces[1..], m)
  }

  function Concat(pieces: seq<Piece>): string {
    if pieces == [] then [] else pieces[0].text + Concat(pieces[1..])
  }

  /** The document with every attribute value mapped. */
  function Rewritten(xml: string, m: map<string, string>): string {
    Concat(MapPieces(Pieces(xml), m))
  }

  // ── The loops ───────────────────────────────────────────────────

  /** Append a tag to `out`, replacing attribute values. */
  method RewriteTagAttrs(tag: string, m: map<string, string>, out: string) returns (r: string)
    ensures r == out + MapValues(tag, m)
  {
    r := out;
    var last: nat, i: nat := 0, 0;
    ghost var done: string := [];
    assert tag[0..] == tag;
    while i < |tag|
      invariant Copied(r, out, done, tag, last, i, m)
    {
      var c := tag[i];
      if IsQuote(c) {
        r, last, i, done := ReplaceValue(tag, m, r, last, i, out, done);
      } else {
        done := CharacterStep(r, out, done, tag, last, i, m);
        i := i + 1;
      }
    }
    EmptyIsUnit(done);
    r := r + tag[last..];
  }

  /** Flush up to and including the opening quote at `i`, then the value; the closing quote stays in the next run. */
  method ReplaceValue(tag: string, m: map<string, string>, r: string, last: nat, i: nat, ghost out: string, ghost done: string)
    returns (r': string, last': nat, i': nat, ghost done': string)
    requires Copied(r, out, done, tag, last, i, m) && i < |tag| && IsQuote(tag[i])
    ensures Copied(r', out, done', tag, last', i', m) && i < i'
  {
    var valStart := i + 1;
    var j := ValueEnd(tag, valStart, tag[i]);
    var value := tag[valStart..j];
    done' := QuotedStep(r, out, done, tag, last, i, j, m);
    r' := r + tag[last..valStart];
    r' := r' + Renumber.Lookup(m, value);
    last' := j;
    i' := if j < |tag| then j + 1 else j;
  }

  /** Where the value ends that starts at `start`: at the next quote, or at the end of the tag. */
  method ValueEnd(tag: string, start: nat, quote: char) returns (j: nat)
    requires start <= |tag|
    ensures start <= j <= |tag| && (j < |tag| ==> tag[j] == quote)
    ensures forall k :: start <= k < j ==> tag[k] != quote
  {
    j := start;
    while j < |tag| && tag[j] != quote
      invariant start <= j <= |tag| && forall k :: start <= k < j ==> tag[k] != quote
    {
      j := j + 1;
    }
  }

  /**
   The rewriting loop before position `i`: what it emitted, with the verbatim run it has not
   flushed, is `out` and then `done`, the rewritten part of the tag.
   */
  ghost predicate Copied(r: string, out: string, done: string, tag: string, last: nat, i: nat, m: map<string, string>) {
    && last <= i <= |tag|
    && r + tag[last..i] == out + done
    && done + MapValues(tag[i..], m) == MapValues(tag, m)
  }

  lemma CharacterStep(r: string, out: string, done: string, tag: string, last: nat, i: nat, m: map<string, string>)
    returns (more: string)
    requires Copied(r, out, done, tag, last, i, m) && i < |tag| && !IsQuote(tag[i])
    ensures Copied(r, out, more, tag, last, i + 1, m)
  {
    more := done + [tag[i]];
    OneCharacter(tag, m, i);
    Run(r, out, done, tag, last, i);
    Associative(done, [tag[i]], MapValues(tag[i + 1..], m));
  }

  lemma QuotedStep(r: string, out: string, done: string, tag: string, last: nat, i: nat, j: nat, m: map<string, string>)
    returns (more: string)
    requires Copied(r, out, done, tag, last, i, m) && i < j <= |tag| && IsQuote(tag[i])
    requires (forall k :: i < k < j ==> tag[k] != tag[i]) && (j < |tag| ==> tag[j] == tag[i])
    ensures Copied(r + tag[last..i + 1] + Renumber.Lookup(m, tag[i + 1..j]), out, more, tag, j,
                   if j < |tag| then j + 1 else j, m)
  {
    var next := if j < |tag| then j + 1 else j;
    var value := Renumber.Lookup(m, tag[i + 1..j]);
    more := done + ([tag[i]] + value + tag[j..next]);
    OneValue(tag, m, i, j);
    QuotedRun(r, out, done, tag, last, i, j, value);
    Associative(done, [tag[i]] + value + tag[j..next], MapValues(tag[next..], m));
  }

  lemma OneCharacter(tag: string, m: map<string, string>, i: nat)
    requires i < |tag| && !IsQuote(tag[i])
    ensures MapValues(tag[i..], m) == [tag[i]] + MapValues(tag[i + 1..], m)
  {
    assert tag[i..][0] == tag[i] && tag[i..][1..] == tag[i + 1..];
  }

  /** One more character is copied verbatim. */
  lemma Run(r: string, out: string, done: string, tag: string, last: nat, i: nat)
    requires last <= i < |tag| && r + tag[last..i] == out + done
    ensures r + tag[last..i + 1] == out + (done + [tag[i]])
  {
    assert tag[last..i + 1] == tag[last..i] + [tag[i]];
    Associative(r, tag[last..i], [tag[i]]);
    Associative(out, done, [tag[i]]);
  }

  /** A value is replaced, between its quotes. */
  lemma QuotedRun(r: string, out: string, done: string, tag: string, last: nat, i: nat, j: nat, value: string)
    requires last <= i < j <= |tag| && r + tag[last..i] == out + done
    ensures var next := if j < |tag| then j + 1 else j;
            r + tag[last..i + 1] + value + tag[j..next] == out + (done + ([tag[i]] + value + tag[j..next]))
  {
    var next := if j < |tag| then j + 1 else j;
    Run(r, out, done, tag, last, i);
    Associative(out, done + [tag[i]], value);
    Associative(out, done + [tag[i]] + value, tag[j..next]);
    Associative(done, [tag[i]], value);
    Associative(done, [tag[i]] + value, tag[j..next]);
  }

  lemma {:induction false} BeforeIs(s: string, c: char, n: nat)
    requires n <= |s| && (forall k :: 0 <= k < n ==> s[k] != c) && (n < |s| ==> s[n] == c)
    ensures Before(s, c) == s[..n]
  {
    if n > 0 {
      BeforeIs(s[1..], c, n - 1);
      assert s[..n] == [s[0]] + s[1..][..n - 1];
    }
  }

  /** The value that starts behind the quote at `i` ends at `j`. */
  lemma OneValue(tag: string, m: map<string, string>, i: nat, j: nat)
    requires i < j <= |tag| && IsQuote(tag[i])
    requires (forall k :: i < k < j ==> tag[k] != tag[i]) && (j < |tag| ==> tag[j] == tag[i])
    ensures MapValues(tag[i..], m)
         == var next := if j < |tag| then j + 1 else j;
            [tag[i]] + Renumber.Lookup(m, tag[i + 1..j]) + tag[j..next] + MapValues(tag[next..], m)
  {
    var s, next := tag[i..], if j < |tag| then j + 1 else j;
    OneBefore(tag, i, j);
    assert s[1 + |tag[i + 1..j]|..] == tag[j..];
    if j < |tag| {
      assert tag[j..][1..] == tag[next..] && tag[j..next] == [tag[i]];
    } else {
      EmptyIsUnit([tag[i]] + Renumber.Lookup(m, tag[i + 1..j]));
    }
    MapQuote(s, m, tag[i + 1..j], tag[j..]);
  }

  /** A quote, the value behind it, and the rest from the closing quote on. */
  lemma MapQuote(s: string, m: map<string, string>, value: string, rest: string)
    requires s != [] && IsQuote(s[0]) && value == Before(s[1..], s[0]) && rest == s[1 + |value|..]
    ensures MapValues(s, m)
         == if rest == [] then [s[0]] + Renumber.Lookup(m, value)
            else [s[0]] + Renumber.Lookup(m, value) + [s[0]] + MapValues(rest[1..], m)
  {
  }

  lemma OneBefore(tag: string, i: nat, j: nat)
    requires i < j <= |tag|
    requires (forall k :: i < k < j ==> tag[k] != tag[i]) && (j < |tag| ==> tag[j] == tag[i])
    ensures Before(tag[i..][1..], tag[i]) == tag[i + 1..j]
  {
    assert tag[i..][1..] == tag[i + 1..];
    BeforeIs(tag[i + 1..], tag[i], j - i - 1);
    assert tag[i + 1..][..j - i - 1] == tag[i + 1..j];
  }

  /** Copy the document, and rewrite its open tags, in a single pass. */
  method RewriteIds(xml: string, m: map<string, string>) returns (out: string)
    ensures out == Rewritten(xml, m)
  {
    out := [];
    var last, i := 0, 0;
    ghost var done: string := [];
    assert xml[0..] == xml;
    while i < |xml|
      invariant last <= i <= |xml|
      invariant out + xml[last..i] == done && done + Rewritten(xml[i..], m) == Rewritten(xml, m)
    {
      var next, open := PieceAt(xml, i);
      RewriteOne(xml, m, i, next, open);
      if open {
        Associative(done, MapValues(xml[i..next], m), Rewritten(xml[next..], m));
        out := out + xml[last..i];
        out := RewriteTagAttrs(xml[i..next], m, out);
        last, done := next, out;
      } else {
        Associative(done, xml[i..next], Rewritten(xml[next..], m));
        VerbatimRun(out, xml, last, i, next);
        done := done + xml[i..next];
      }
      i := next;
    }
    EmptyIsUnit(done);
    out := out + xml[last..];
  }

  lemma VerbatimRun(out: string, xml: string, last: nat, i: nat, next: nat)
    requires last <= i <= next <= |xml|
    ensures out + xml[last..next] == out + xml[last..i] + xml[i..next]
  {
    assert xml[last..next] == xml[last..i] + xml[i..next];
    Associative(out, xml[last..i], xml[i..next]);
  }

  lemma RewriteOne(xml: string, m: map<string, string>, i: nat, next: nat, open: bool)
    requires i < next <= |xml|
    requires Pieces(xml[i..]) == [if open then Open(xml[i..next]) else Verbatim(xml[i..next])] + Pieces(xml[next..])
    ensures Rewritten(xml[i..], m)
         == (if open then MapValues(xml[i..next], m) else xml[i..next]) + Rewritten(xml[next..], m)
  {
    RewriteFirst(if open then Open(xml[i..next]) else Verbatim(xml[i..next]), Pieces(xml[next..]), m);
  }

  lemma RewriteFirst(p: Piece, rest: seq<Piece>, m: map<string, string>)
    ensures MapPieces([p] + rest, m) == [MapPiece(p, m)] + MapPieces(rest, m)
    ensures Concat(MapPieces([p] + rest, m)) == MapPiece(p, m).text + Concat(MapPieces(rest, m))
  {
    assert ([p] + rest)[1..] == rest;
    assert ([MapPiece(p, m)] + MapPieces(rest, m))[1..] == MapPieces(rest, m);
  }

  // ── Scanning the rewritten document ─────────────────────────────

  /** No new value contains a quote. */
  predicate QuoteFree(m: map<string, string>) {
    forall k :: k in m ==> NoQuotes(m[k])
  }

  predicate NoQuotes(s: string) {
    forall i :: 0 <= i < |s| ==> !IsQuote(s[i])
  }

  /** Where a tag ends does not depend on what follows. */
  lemma {:induction false} TagEndIsLocal(s: string, quote: Option<char>, more: string)
    requires TagEnd(s, quote).Some?
    ensures TagEnd(s[..TagEnd(s, quote).value + 1] + more, quote) == TagEnd(s, quote)
    decreases |s|
  {
    var k := TagEnd(s, quote).value;
    var t := s[..k + 1] + more;
    if !(quote.None? && s[0] == '>') {
      var inside :=
        if quote.Some? then (if s[0] == quote.value then None else quote)
        else if IsQuote(s[0]) then Some(s[0]) else None;
      TagEndIsLocal(s[1..], inside, more);
      assert t[1..] == s[1..][..k] + more;
    }
  }

  /** The first occurrence does not depend on what follows it. */
  lemma {:induction false} FindIsLocal(s: string, pattern: string, p: nat, t: string)
    requires pattern != [] && Find(s, pattern) == Some(p) && s[..p + |pattern|] <= t
    ensures Find(t, pattern) == Some(p)
    decreases |s|
  {
    assert forall i :: 0 <= i < p + |pattern| ==> t[i] == s[..p + |pattern|][i] == s[i];
    SameStart(s, t, pattern);
    if p > 0 {
      FindLater(s, pattern, p);
      assert s[1..][..p - 1 + |pattern|] == s[..p + |pattern|][1..] <= t[1..];
      FindIsLocal(s[1..], pattern, p - 1, t[1..]);
      FindLater(t, pattern, p);
    }
  }

  lemma SameStart(s: string, t: string, pattern: string)
    requires |pattern| <= |s| && |pattern| <= |t| && forall i :: 0 <= i < |pattern| ==> s[i] == t[i]
    ensures StartsWith(s, pattern) <==> StartsWith(t, pattern)
  {
  }

  lemma FindLater(s: string, pattern: string, p: nat)
    requires s != [] && 0 < p
    ensures Find(s, pattern) == Some(p) <==> !StartsWith(s, pattern) && Find(s[1..], pattern) == Some(p - 1)
  {
  }

  /** A string that starts with a pattern goes on doing so, and one that does not neither, if it is long enough. */
  lemma StartIsLocal(s: string, t: string, n: nat, more: string, pattern: string)
    requires n <= |s| && t == s[..n] + more && |pattern| <= n
    ensures StartsWith(t, pattern) <==> StartsWith(s, pattern)
  {
    assert forall i :: 0 <= i < n ==> t[i] == s[i];
  }

  /** A piece that ends with `>` does not start a longer pattern without one. */
  lemma NoLongerStart(s: string, e: nat, more: string, pattern: string)
    requires e < |s| && s[e] == '>' && '>' !in pattern && !StartsWith(s, pattern)
    ensures !StartsWith(s[..e + 1] + more, pattern)
  {
    var t := s[..e + 1] + more;
    if |pattern| <= e + 1 {
      StartIsLocal(s, t, e + 1, more, pattern);
    } else {
      assert t[e] == '>' && pattern[e] != '>';
    }
  }

  lemma CommentLetters(s: string)
    ensures StartsWith(s, COMMENT) ==> s[0] == '<' && s[1] == '!' && s[2] == '-' && s[3] == '-'
    ensures StartsWith(s, CDATA) ==> s[0] == '<' && s[1] == '!' && s[2] == '[' && !StartsWith(s, COMMENT)
    ensures '>' !in COMMENT && '>' !in CDATA && |COMMENT| == 4 && |CDATA| == 9
  {
  }

  /** The terminator of a comment or CDATA section lies behind its beginning. */
  lemma TerminatorBehind(s: string, start: string, end: string)
    requires (start == COMMENT && end == COMMENT_END) || (start == CDATA && end == CDATA_END)
    requires StartsWith(s, start) && Find(s, end).Some?
    ensures |start| <= Find(s, end).value + |end|
  {
    var p := Find(s, end).value;
    CommentLetters(s);
    EndLetters(s[p..], end);
    assert s[0..] == s;
  }

  lemma EndLetters(s: string, end: string)
    requires end == COMMENT_END || end == CDATA_END
    requires StartsWith(s, end)
    ensures |s| >= 3 && |end| == 3 && s[2] == '>' && s[1] == s[0] && s[0] in {'-', ']'}
  {
  }

  /** A verbatim piece that is not cut off by the end of the document is found again, whatever follows. */
  lemma VerbatimAgain(s: string, more: string)
    requires s != [] && FirstPiece(s).Verbatim? && (|FirstPiece(s).text| < |s| || more == [])
    ensures FirstPiece(s).text + more != [] && FirstPiece(FirstPiece(s).text + more) == FirstPiece(s)
  {
    var text := FirstPiece(s).text;
    var t := text + more;
    CommentLetters(s);
    CommentLetters(t);
    if |text| == |s| {
      assert t == s;
    } else if s[0] != '<' {
      assert t[..1] == s[..1];
    } else if StartsWith(s, COMMENT) {
      SectionAgain(s, more, COMMENT, COMMENT_END);
    } else if StartsWith(s, CDATA) {
      SectionAgain(s, more, CDATA, CDATA_END);
      StartIsLocal(s, t, |text|, more, COMMENT);
    } else {
      MarkupAgain(s, more);
    }
  }

  lemma SectionAgain(s: string, more: string, start: string, end: string)
    requires (start == COMMENT && end == COMMENT_END) || (start == CDATA && end == CDATA_END)
    requires StartsWith(s, start) && Find(s, end).Some?
    ensures var n := Through(s, end);
            && |start| <= n <= |s| && StartsWith(s[..n] + more, start)
            && Through(s[..n] + more, end) == n && (s[..n] + more)[..n] == s[..n]
  {
    var n := Through(s, end);
    TerminatorBehind(s, start, end);
    StartIsLocal(s, s[..n] + more, n, more, start);
    FindIsLocal(s, end, n - |end|, s[..n] + more);
  }

  lemma MarkupAgain(s: string, more: string)
    requires s != [] && s[0] == '<' && !StartsWith(s, COMMENT) && !StartsWith(s, CDATA) && TagEnd(s[1..], None).Some?
    ensures var n := TagEnd(s[1..], None).value + 2;
            var t := s[..n] + more;
            && n <= |s| && t[0] == '<' && !StartsWith(t, COMMENT) && !StartsWith(t, CDATA)
            && TagEnd(t[1..], None) == Some(n - 2) && (IsMarkup(t) <==> IsMarkup(s)) && t[..n] == s[..n]
  {
    var k := TagEnd(s[1..], None).value;
    var t := s[..k + 2] + more;
    TagEndIsLocal(s[1..], None, more);
    assert t[1..] == s[1..][..k + 1] + more;
    CommentLetters(s);
    assert s[1..][k] == s[k + 1];
    NoLongerStart(s, k + 1, more, COMMENT);
    NoLongerStart(s, k + 1, more, CDATA);
  }

  // Open tags.

  /** A quoted value is skipped up to its closing quote. */
  lemma {:induction false} SkipValue(value: string, q: char, more: string)
    requires forall i :: 0 <= i < |value| ==> value[i] != q
    ensures TagEnd(value + [q] + more, Some(q))
         == match TagEnd(more, None) case None => None case Some(k) => Some(|value| + 1 + k)
  {
    var s := value + [q] + more;
    if value == [] {
      assert s[1..] == more;
    } else {
      SkipValue(value[1..], q, more);
      assert s[1..] == value[1..] + [q] + more;
    }
  }

  /** A tag that ends closes its open quote before. */
  lemma {:induction false} QuoteCloses(s: string, q: char)
    requires TagEnd(s, Some(q)).Some?
    ensures var value := Before(s, q);
            && |value| < |s|
            && TagEnd(s[|value| + 1..], None).Some?
            && TagEnd(s, Some(q)).value == |value| + 1 + TagEnd(s[|value| + 1..], None).value
  {
    if s[0] != q {
      QuoteCloses(s[1..], q);
      assert Before(s, q) == [s[0]] + Before(s[1..], q);
      assert s[|Before(s, q)| + 1..] == s[1..][|Before(s[1..], q)| + 1..];
    }
  }

  /** The rewritten rest `t` of a tag ends where it is rewritten to. */
  lemma {:induction false} MappedTagEnds(s: string, m: map<string, string>, more: string, t: string)
    requires QuoteFree(m) && TagEnd(s, None) == Some(|s| - 1) && t == MapValues(s, m)
    ensures t != [] && t[0] == s[0] && TagEnd(t + more, None) == Some(|t| - 1)
    decreases |s|
  {
    if s[0] == '>' {
      EndStep(s, m, more);
    } else if !IsQuote(s[0]) {
      TagEndLater(s);
      MapPlain(s, m);
      var rest := MapValues(s[1..], m);
      MappedTagEnds(s[1..], m, more, rest);
      PlainStep(s[0], rest, more);
    } else {
      TagEndLater(s);
      var k := |Before(s[1..], s[0])| + 2;
      var rest := MapValues(s[k..], m);
      MappedTagEnds(s[k..], m, more, rest);
      QuotedTagEnds(s, m, more, k, rest);
    }
  }

  /** A quoted value in front of a rest that ends where it should. */
  lemma QuotedTagEnds(s: string, m: map<string, string>, more: string, k: nat, rest: string)
    requires QuoteFree(m) && s != [] && IsQuote(s[0]) && k == |Before(s[1..], s[0])| + 2 <= |s|
    requires rest == MapValues(s[k..], m) && rest != [] && TagEnd(rest + more, None) == Some(|rest| - 1)
    ensures var t := MapValues(s, m); t != [] && t[0] == s[0] && TagEnd(t + more, None) == Some(|t| - 1)
  {
    MapQuoted(s, m);
    NewValueFits(m, s[1..], s[0]);
    MappedValue(s[0], Renumber.Lookup(m, Before(s[1..], s[0])), rest, more, MapValues(s, m));
  }

  lemma EndStep(s: string, m: map<string, string>, more: string)
    requires s != [] && s[0] == '>' && TagEnd(s, None) == Some(|s| - 1)
    ensures MapValues(s, m) == ['>'] && TagEnd(MapValues(s, m) + more, None) == Some(0)
  {
    assert s == ['>'] && s[1..] == [];
  }

  lemma NewValueFits(m: map<string, string>, s: string, q: char)
    requires QuoteFree(m) && IsQuote(q)
    ensures forall i :: 0 <= i < |Renumber.Lookup(m, Before(s, q))| ==> Renumber.Lookup(m, Before(s, q))[i] != q
  {
    var value := Before(s, q);
    BeforeIsStart(s, q);
    if value in m {
      assert NoQuotes(m[value]);
    }
  }

  /** Behind its first character, a tag ends where it did; behind a quote, after the closing one. */
  lemma TagEndLater(s: string)
    requires s != [] && s[0] != '>' && TagEnd(s, None) == Some(|s| - 1)
    ensures if !IsQuote(s[0]) then |s| > 1 && TagEnd(s[1..], None) == Some(|s| - 2)
            else
              var value := Before(s[1..], s[0]);
              && |value| + 2 < |s| && TagEnd(s[|value| + 2..], None) == Some(|s| - |value| - 3)
  {
    if IsQuote(s[0]) {
      QuoteCloses(s[1..], s[0]);
      assert s[1..][|Before(s[1..], s[0])| + 1..] == s[|Before(s[1..], s[0])| + 2..];
    }
  }

  lemma MapPlain(s: string, m: map<string, string>)
    requires s != [] && !IsQuote(s[0])
    ensures MapValues(s, m) == [s[0]] + MapValues(s[1..], m)
  {
  }

  /** One more character outside of quotes. */
  lemma PlainStep(c: char, rest: string, more: string)
    requires !IsQuote(c) && c != '>' && rest != [] && TagEnd(rest + more, None) == Some(|rest| - 1)
    ensures TagEnd([c] + rest + more, None) == Some(|rest|)
  {
    assert ([c] + rest + more)[1..] == rest + more;
  }

  /** What becomes of a quoted value and the rest. */
  lemma MapQuoted(s: string, m: map<string, string>)
    requires s != [] && IsQuote(s[0]) && |Before(s[1..], s[0])| + 2 <= |s|
    ensures var value := Before(s[1..], s[0]);
            MapValues(s, m) == [s[0]] + Renumber.Lookup(m, value) + [s[0]] + MapValues(s[|value| + 2..], m)
  {
    var value := Before(s[1..], s[0]);
    assert s[1 + |value|..][1..] == s[|value| + 2..];
  }

  /** One quoted value in front of the rest. */
  lemma MappedValue(q: char, value: string, rest: string, more: string, t: string)
    requires IsQuote(q) && (forall i :: 0 <= i < |value| ==> value[i] != q) && t == [q] + value + [q] + rest
    requires rest != [] && TagEnd(rest + more, None) == Some(|rest| - 1)
    ensures t != [] && t[0] == q && TagEnd(t + more, None) == Some(|t| - 1)
  {
    QuotedThenMore(q, value, rest, more, t);
    EndsBehind(t + more, q, |value|, rest + more, |t|);
  }

  predicate QuotedAt(s: string, q: char, n: nat, rest: string) {
    && n + 2 <= |s| && s[0] == q && s[n + 1] == q && s[n + 2..] == rest
    && forall i :: 1 <= i <= n ==> s[i] != q
  }

  lemma QuotedThenMore(q: char, value: string, rest: string, more: string, t: string)
    requires (forall i :: 0 <= i < |value| ==> value[i] != q) && t == [q] + value + [q] + rest
    ensures |t| == |value| + 2 + |rest| && t[0] == q && QuotedAt(t + more, q, |value|, rest + more)
  {
    PartsOfQuoted(q, value, rest, t);
    Behind(t, more, |value| + 2);
  }

  lemma PartsOfQuoted(q: char, value: string, rest: string, t: string)
    requires t == [q] + value + [q] + rest
    ensures |t| == |value| + 2 + |rest| && t[0] == q && t[|value| + 1] == q && t[|value| + 2..] == rest
    ensures forall i :: 1 <= i <= |value| ==> t[i] == value[i - 1]
  {
  }

  lemma Behind(t: string, more: string, n: nat)
    requires n <= |t|
    ensures (t + more)[n..] == t[n..] + more
    ensures forall i :: 0 <= i < |t| ==> (t + more)[i] == t[i]
  {
  }

  lemma EndsBehind(s: string, q: char, n: nat, rest: string, length: nat)
    requires IsQuote(q) && QuotedAt(s, q, n, rest) && n + 2 <= length && TagEnd(rest, None) == Some(length - n - 3)
    ensures TagEnd(s, None) == Some(length - 1)
  {
    assert s[1..][n + 1..] == rest;
    SkipUpTo(s[1..], q, n);
  }

  lemma {:induction false} SkipUpTo(s: string, q: char, n: nat)
    requires n < |s| && s[n] == q && forall i :: 0 <= i < n ==> s[i] != q
    ensures TagEnd(s, Some(q))
         == match TagEnd(s[n + 1..], None) case None => None case Some(k) => Some(n + 1 + k)
    decreases n
  {
    if n > 0 {
      SkipUpTo(s[1..], q, n - 1);
      assert s[1..][n..] == s[n + 1..];
    }
  }

  /** A rewritten open tag is found again as an open tag, whatever follows. */
  lemma OpenAgain(s: string, m: map<string, string>, more: string)
    requires QuoteFree(m) && s != [] && FirstPiece(s).Open?
    ensures var text := MapValues(FirstPiece(s).text, m);
            text != [] && FirstPiece(text + more) == Open(text)
  {
    var text := FirstPiece(s).text;
    OpenShape(s);
    MapTag(text, m);
    var mapped := MapValues(text[1..], m);
    MappedTagEnds(text[1..], m, more, mapped);
    assert MapValues(text, m)[1..] == mapped;
    OpenTagAgain(mapped, more);
  }

  /** An open tag begins with an angle bracket, no markup character follows, and it ends where it should. */
  lemma OpenShape(s: string)
    requires s != [] && FirstPiece(s).Open?
    ensures var text := FirstPiece(s).text;
            && |text| >= 2 && text[0] == '<' && TagEnd(text[1..], None) == Some(|text| - 2)
            && text[1] !in {'/', '!', '?'}
  {
    var k := TagEnd(s[1..], None).value;
    TagEndsAgain(s[1..], s[..k + 2][1..], k);
  }

  lemma TagEndsAgain(s: string, t: string, k: nat)
    requires TagEnd(s, None) == Some(k) && t == s[..k + 1]
    ensures TagEnd(t, None) == Some(k)
  {
    TagEndIsLocal(s, None, []);
    EmptyIsUnit(t);
  }

  lemma MapTag(text: string, m: map<string, string>)
    requires text != [] && text[0] == '<'
    ensures MapValues(text, m) == ['<'] + MapValues(text[1..], m)
  {
  }

  lemma OpenTagAgain(inner: string, more: string)
    requires inner != [] && inner[0] !in {'/', '!', '?'} && TagEnd(inner + more, None) == Some(|inner| - 1)
    ensures FirstPiece(['<'] + inner + more) == Open(['<'] + inner)
  {
    var t := ['<'] + inner + more;
    CommentLetters(t);
    assert t[1..] == inner + more && t[1] == inner[0];
    assert t[..|inner| + 1] == ['<'] + inner;
  }

  /**
   Rewriting commutes with scanning, for every document: the pieces of the rewritten text are the
   pieces of the text, open tags with each quoted value mapped exactly once, everything else as it
   was.
   */
  lemma {:induction false} ScanningRewritten(xml: string, m: map<string, string>)
    requires QuoteFree(m)
    ensures Pieces(Rewritten(xml, m)) == MapPieces(Pieces(xml), m)
    decreases |xml|
  {
    if xml != [] {
      var p := FirstPiece(xml);
      var rest := xml[|p.text|..];
      ScanningRewritten(rest, m);
      RewriteFirst(p, Pieces(rest), m);
      if p.Open? {
        OpenAgain(xml, m, Rewritten(rest, m));
      } else {
        assert |p.text| == |xml| ==> rest == [];
        VerbatimAgain(xml, Rewritten(rest, m));
      }
      FirstOf(MapPiece(p, m), Rewritten(rest, m));
    }
  }

  lemma FirstOf(p: Piece, rest: string)
    requires p.text != [] && FirstPiece(p.text + rest) == p
    ensures Pieces(p.text + rest) == [p] + Pieces(rest)
  {
    assert (p.text + rest)[|p.text|..] == rest;
  }
}
