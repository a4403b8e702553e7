/**
 The order of siblings in the serialized program: two-level collation of sort keys, and why it is a
 total preorder.
 */
module Collation {
  import opened Basics

  datatype Ordering = Less | Equal | Greater

  function Flipped(o: Ordering): Ordering {
    match o
    case Less => Greater
    case Equal => Equal
    case Greater => Less
  }

  function CompareNat(a: nat, b: nat): Ordering {
    if a < b then Less else if a == b then Equal else Greater
  }

  /** Lexicographic order; a proper start comes first. */
  function Lex(a: seq<nat>, b: seq<nat>): Ordering {
    if a == [] then (if b == [] then Equal else Less)
    else if b == [] then Greater
    else if a[0] != b[0] then CompareNat(a[0], b[0])
    else Lex(a[1..], b[1..])
  }

  // ── Weights of characters ───────────────────────────────────────

  /** Primary weights of the symbols; control characters have none. */
  function SymbolWeight(c: char): nat {
    match c
    case ' ' => 1
    case '_' => 2
    case '-' => 3
    case ',' => 4
    case ';' => 5
    case ':' => 6
    case '!' => 7
    case '?' => 8
    case '.' => 9
    case '\'' => 10
    case '\"' => 11
    case '(' => 12
    case ')' => 13
    case '[' => 14
    case ']' => 15
    case '{' => 16
    case '}' => 17
    case '@' => 18
    case '*' => 19
    case '/' => 20
    case '\\' => 21
    case '&' => 22
    case '#' => 23
    case '%' => 24
    case '`' => 25
    case '^' => 26
    case '+' => 27
    case '<' => 28
    case '=' => 29
    case '>' => 30
    case '|' => 31
    case '~' => 32
    case '$' => 33
    case _ => 0
  }

  /** Primary weights of the characters below 128: symbols, digits, letters; both cases of a letter weigh the same. */
  function AsciiWeight(c: char): nat {
    if '0' <= c <= '9' then 34 + (c as int - '0' as int)
    else if 'A' <= c <= 'Z' then 44 + (c as int - 'A' as int)
    else if 'a' <= c <= 'z' then 44 + (c as int - 'a' as int)
    else SymbolWeight(c)
  }

  /** The base letter of an accented Latin one. */
  function BaseLetter(c: char): Option<char> {
    var n := c as int;
    if 0xE0 <= n <= 0xE6 || 0xC0 <= n <= 0xC6 then Some('a')
    else if 0xE8 <= n <= 0xEB || 0xC8 <= n <= 0xCB then Some('e')
    else if 0xEC <= n <= 0xEF || 0xCC <= n <= 0xCF then Some('i')
    else if 0xF2 <= n <= 0xF6 || 0xD2 <= n <= 0xD6 then Some('o')
    else if 0xF9 <= n <= 0xFC || 0xD9 <= n <= 0xDC then Some('u')
    else if n == 0xF1 || n == 0xD1 then Some('n')
    else if n == 0xDF then Some('s')
    else if n == 0xFD || n == 0xFF || n == 0xDD then Some('y')
    else None
  }

  function Min(a: nat, b: nat): nat {
    if a <= b then a else b
  }

  function PrimaryWeight(c: char): nat {
    if c as int < 128 then AsciiWeight(c)
    else
      match BaseLetter(c)
      case Some(base) => AsciiWeight(base)
      case None => 0x100 + Min(c as int % 0x1_0000, 0xFEFF)
  }

  function Weights(s: string): (w: seq<nat>)
    ensures |w| == |s|
  {
    seq(|s|, i requires 0 <= i < |s| => PrimaryWeight(s[i]))
  }

  /** The case of each character: lower case counts less. */
  function Cases(s: string, isUpper: char -> bool): (w: seq<nat>)
    ensures |w| == |s|
  {
    seq(|s|, i requires 0 <= i < |s| => if isUpper(s[i]) then 1 else 0)
  }

  function CmpInvariant(a: string, b: string, isUpper: char -> bool): Ordering {
    var primary := Lex(Weights(a), Weights(b));
    if primary != Equal then primary else Lex(Cases(a, isUpper), Cases(b, isUpper))
  }

  // ── Sort keys ───────────────────────────────────────────────────

  /** Ordered siblings come first, in their own order; the others are sorted by a string. */
  datatype SortKey = Ordered(position: nat) | Sorted(key: string)

  function CompareKeys(a: SortKey, b: SortKey, isUpper: char -> bool): Ordering {
    match (a, b)
    case (Ordered(i), Ordered(j)) => CompareNat(i, j)
    case (Sorted(s), Sorted(t)) => CmpInvariant(s, t, isUpper)
    case (Ordered(_), Sorted(_)) => Less
    case (Sorted(_), Ordered(_)) => Greater
  }

  predicate AtMost(a: SortKey, b: SortKey, isUpper: char -> bool) {
    CompareKeys(a, b, isUpper) != Greater
  }

  // ── A total preorder ────────────────────────────────────────────

  lemma {:induction false} LexEqual(a: seq<nat>, b: seq<nat>)
    ensures Lex(a, b) == Equal <==> a == b
  {
    if a != [] && b != [] && a[0] == b[0] {
      LexEqual(a[1..], b[1..]);
      assert a == [a[0]] + a[1..] && b == [b[0]] + b[1..];
    }
  }

  lemma {:induction false} LexFlips(a: seq<nat>, b: seq<nat>)
    ensures Lex(b, a) == Flipped(Lex(a, b))
  {
    if a != [] && b != [] && a[0] == b[0] {
      LexFlips(a[1..], b[1..]);
    }
  }

  lemma {:induction false} LexTransitive(a: seq<nat>, b: seq<nat>, c: seq<nat>)
    requires Lex(a, b) != Greater && Lex(b, c) != Greater
    ensures Lex(a, c) != Greater
    ensures Lex(a, c) == Equal ==> Lex(a, b) == Equal && Lex(b, c) == Equal
  {
    if a != [] && b != [] && c != [] && a[0] == b[0] && b[0] == c[0] {
      LexTransitive(a[1..], b[1..], c[1..]);
    }
  }

  /** Comparing in the other direction gives the opposite; so any two keys can be compared. */
  lemma KeysFlip(a: SortKey, b: SortKey, isUpper: char -> bool)
    ensures CompareKeys(b, a, isUpper) == Flipped(CompareKeys(a, b, isUpper))
  {
    if a.Sorted? && b.Sorted? {
      LexFlips(Weights(a.key), Weights(b.key));
      LexFlips(Cases(a.key, isUpper), Cases(b.key, isUpper));
    }
  }

  lemma CmpTransitive(a: string, b: string, c: string, isUpper: char -> bool)
    requires CmpInvariant(a, b, isUpper) != Greater && CmpInvariant(b, c, isUpper) != Greater
    ensures CmpInvariant(a, c, isUpper) != Greater
  {
    LexTransitive(Weights(a), Weights(b), Weights(c));
    if Lex(Weights(a), Weights(c)) == Equal {
      LexTransitive(Cases(a, isUpper), Cases(b, isUpper), Cases(c, isUpper));
    }
  }

  lemma KeysTransitive(a: SortKey, b: SortKey, c: SortKey, isUpper: char -> bool)
    requires AtMost(a, b, isUpper) && AtMost(b, c, isUpper)
    ensures AtMost(a, c, isUpper)
  {
    if a.Sorted? && b.Sorted? && c.Sorted? {
      CmpTransitive(a.key, b.key, c.key, isUpper);
    }
  }

  /** All that the comparison sees of a key. */
  datatype Rank = First(position: nat) | Then(weights: seq<nat>, cases: seq<nat>)

  function RankOf(k: SortKey, isUpper: char -> bool): Rank {
    match k
    case Ordered(i) => First(i)
    case Sorted(s) => Then(Weights(s), Cases(s, isUpper))
  }

  /** Keys compare equal exactly if they have the same weights and cases. */
  lemma EqualExactlyWhen(a: SortKey, b: SortKey, isUpper: char -> bool)
    ensures CompareKeys(a, b, isUpper) == Equal <==> RankOf(a, isUpper) == RankOf(b, isUpper)
  {
    if a.Sorted? && b.Sorted? {
      LexEqual(Weights(a.key), Weights(b.key));
      LexEqual(Cases(a.key, isUpper), Cases(b.key, isUpper));
    }
  }

  // ── Which keys are told apart ───────────────────────────────────

  predicate IsPrintable(c: char) {
    ' ' <= c <= '~'
  }

  predicate Printable(s: string) {
    forall i :: 0 <= i < |s| ==> IsPrintable(s[i])
  }

  predicate IsCapital(c: char) {
    'A' <= c <= 'Z'
  }

  /** The capital letters among the printable characters. */
  predicate KnowsCapitals(isUpper: char -> bool) {
    forall c :: IsPrintable(c) ==> (isUpper(c) <==> IsCapital(c))
  }

  /** The symbol of a weight. */
  function SymbolOf(w: nat): char {
    match w
    case 1 => ' '
    case 2 => '_'
    case 3 => '-'
    case 4 => ','
    case 5 => ';'
    case 6 => ':'
    case 7 => '!'
    case 8 => '?'
    case 9 => '.'
    case 10 => '\''
    case 11 => '\"'
    case 12 => '('
    case 13 => ')'
    case 14 => '['
    case 15 => ']'
    case 16 => '{'
    case 17 => '}'
    case 18 => '@'
    case 19 => '*'
    case 20 => '/'
    case 21 => '\\'
    case 22 => '&'
    case 23 => '#'
    case 24 => '%'
    case 25 => '`'
    case 26 => '^'
    case 27 => '+'
    case 28 => '<'
    case 29 => '='
    case 30 => '>'
    case 31 => '|'
    case 32 => '~'
    case 33 => '$'
    case _ => 'x'
  }

  lemma SymbolsAreDistinct(c: char, d: char)
    requires SymbolWeight(c) == SymbolWeight(d) > 0
    ensures c == d
  {
    assert SymbolOf(SymbolWeight(c)) == c;
    assert SymbolOf(SymbolWeight(d)) == d;
  }

  lemma SymbolsWeighLess(c: char)
    requires IsPrintable(c)
    ensures '0' <= c <= '9' || 'A' <= c <= 'Z' || 'a' <= c <= 'z' || 0 < SymbolWeight(c) < 34
  {
  }

  lemma PrintableWeights(c: char, d: char)
    requires IsPrintable(c) && IsPrintable(d) && PrimaryWeight(c) == PrimaryWeight(d)
    requires IsCapital(c) <==> IsCapital(d)
    ensures c == d
  {
    SymbolsWeighLess(c);
    SymbolsWeighLess(d);
    if 0 < SymbolWeight(c) == SymbolWeight(d) {
      SymbolsAreDistinct(c, d);
    }
  }

  /** Printable keys compare equal only if they are the same. */
  lemma PrintableKeysDiffer(a: string, b: string, isUpper: char -> bool)
    requires Printable(a) && Printable(b) && KnowsCapitals(isUpper)
    ensures CmpInvariant(a, b, isUpper) == Equal <==> a == b
  {
    EqualExactlyWhen(Sorted(a), Sorted(b), isUpper);
    if CmpInvariant(a, b, isUpper) == Equal {
      assert |Weights(a)| == |Weights(b)|;
      forall i | 0 <= i < |a| ensures a[i] == b[i] {
        assert Weights(a)[i] == Weights(b)[i] && Cases(a, isUpper)[i] == Cases(b, isUpper)[i];
        PrintableWeights(a[i], b[i]);
      }
    }
  }

  // ── Which keys come first ───────────────────────────────────────

  predicate IsLetter(c: char) {
    'a' <= c <= 'z' || 'A' <= c <= 'Z'
  }

  predicate IsDigit(c: char) {
    '0' <= c <= '9'
  }

  predicate IsSymbol(c: char) {
    IsPrintable(c) && !IsLetter(c) && !IsDigit(c)
  }

  /** The first characters that differ in their weight decide. */
  lemma FirstWeightDecides(start: string, c: char, d: char, x: string, y: string, isUpper: char -> bool)
    requires PrimaryWeight(c) < PrimaryWeight(d)
    ensures CmpInvariant(start + [c] + x, start + [d] + y, isUpper) == Less
  {
    var a, b := start + [c] + x, start + [d] + y;
    assert Weights(a)[..|start|] == Weights(start) == Weights(b)[..|start|];
    assert a[|start|] == c && b[|start|] == d;
    FirstDifference(Weights(a), Weights(b), |start|);
  }

  /** Control characters come first, then symbols, digits, letters, and at last all other characters. */
  lemma SymbolsDigitsLetters(c: char, d: char)
    ensures IsSymbol(c) && IsDigit(d) ==> 0 < PrimaryWeight(c) < PrimaryWeight(d)
    ensures IsDigit(c) && IsLetter(d) ==> PrimaryWeight(c) < PrimaryWeight(d)
    ensures c < ' ' || c == 0x7F as char ==> PrimaryWeight(c) == 0
    ensures c as int < 128 && d as int >= 128 && BaseLetter(d).None? ==> PrimaryWeight(c) < PrimaryWeight(d)
  {
    if IsSymbol(c) {
      SymbolsWeighLess(c);
    }
    assert SymbolWeight(c) < 34;
  }

  /** Digits ascend by value. */
  lemma DigitsAscend(c: char, d: char)
    requires IsDigit(c) && IsDigit(d)
    ensures PrimaryWeight(c) < PrimaryWeight(d) <==> c < d
  {
  }

  function LowerLetter(c: char): char
    requires IsLetter(c)
  {
    if 'A' <= c <= 'Z' then (c as int + 32) as char else c
  }

  /** Letters ascend by the alphabet, without regard to case. */
  lemma LettersAscend(c: char, d: char)
    requires IsLetter(c) && IsLetter(d)
    ensures PrimaryWeight(c) < PrimaryWeight(d) <==> LowerLetter(c) < LowerLetter(d)
  {
  }

  /** The order of the symbols. */
  lemma SymbolsAscend(w: nat)
    requires 1 <= w <= 33
    ensures PrimaryWeight(SymbolOf(w)) == w
  {
  }

  /** An accent alone does not tell keys apart. */
  lemma AccentsAreEqual(isUpper: char -> bool)
    requires !isUpper('e') && !isUpper(0xE9 as char)
    ensures CmpInvariant("e", [0xE9 as char], isUpper) == Equal
  {
    assert Weights("e") == Weights([0xE9 as char]) == [48];
    assert Cases("e", isUpper) == Cases([0xE9 as char], isUpper) == [0];
    LexEqual([48], [48]);
    LexEqual([0], [0]);
  }

  /** Of keys that differ in one letter's case, the one in lower case comes first. */
  lemma LowerCaseFirst(start: string, lower: char, upper: char, rest: string, isUpper: char -> bool)
    requires PrimaryWeight(lower) == PrimaryWeight(upper) && !isUpper(lower) && isUpper(upper)
    ensures CmpInvariant(start + [lower] + rest, start + [upper] + rest, isUpper) == Less
  {
    var a, b := start + [lower] + rest, start + [upper] + rest;
    assert Weights(a) == Weights(b) by {
      assert forall i :: 0 <= i < |a| && i != |start| ==> a[i] == b[i];
    }
    LexEqual(Weights(a), Weights(b));
    FirstDifference(Cases(a, isUpper), Cases(b, isUpper), |start|);
  }

  lemma {:induction false} FirstDifference(a: seq<nat>, b: seq<nat>, n: nat)
    requires n < |a| && n < |b| && a[..n] == b[..n] && a[n] < b[n]
    ensures Lex(a, b) == Less
  {
    if n > 0 {
      assert a[0] == a[..n][0] && b[0] == b[..n][0];
      assert a[1..][..n - 1] == a[..n][1..] && b[1..][..n - 1] == b[..n][1..];
      FirstDifference(a[1..], b[1..], n - 1);
    }
  }
}
