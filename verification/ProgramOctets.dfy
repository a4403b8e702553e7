/**
 What the hashed octets say: equal octets of two elements mean equal attribute values, one by one,
 and what an element contains shows in what it contributes.
 */
module ProgramOctets {
  import opened Basics
  import opened BinaryWriter
  import opened Collation
  import opened SiblingOrder
  import opened Siblings
  import opened SiblingOctets
  import opened ProgramId
  import opened ProgramHash
  import Cemi

  // ── What is assumed of the parameters ───────────────────────────

  /** How many octets a number of this type has. */
  function Width(form: AttrType): nat {
    match form
    case Byte => 1
    case UInt16 => 2
    case UInt32 | Int32 => 4
    case _ => 8
  }

  predicate IsNumber(form: AttrType) {
    form != Chars && form != ProgramId && form != Flag
  }

  const SENTINEL_OCTETS: Octets := [0x24, 0x3C, 0x6E, 0x75, 0x6C, 0x6C, 0x3E, 0x24]

  /** Different strings have different octets, ASCII its own, and the numbers of a type have one width. */
  ghost predicate Sound(f: Foreign) {
    && (forall s, t :: f.utf8(s) == f.utf8(t) ==> s == t)
    && f.utf8(NULL_SENTINEL) == SENTINEL_OCTETS
    && (forall form, v :: IsNumber(form) && f.number(form, v).Some? ==> |f.number(form, v).value| == Width(form))
  }

  /** All short names take less than 36 octets. */
  ghost predicate ShortNames(f: Foreign, infos: seq<AttrInfo>) {
    forall i :: 0 <= i < |infos| ==> |f.utf8(infos[i].short)| < 36
  }

  // ── Effective values ────────────────────────────────────────────

  /** The value if there is one that is not empty, else the default, if there is one. */
  function Effective(info: AttrInfo, attrs: map<string, string>): Option<string> {
    if info.name in attrs && attrs[info.name] != "" then Some(attrs[info.name]) else info.fallback
  }

  /** A text, or the sign that there is none. */
  function Shown(v: Option<string>): string {
    if v.Some? then v.value else "$<null>$"
  }

  function ShownId(v: Option<string>): string {
    if v.Some? then NormalizeId(v.value) else "$<null>$"
  }

  /** The effective values mean the same: ids up to their fingerprint, flags as booleans, numbers as numbers. */
  predicate SameMeaning(f: Foreign, info: AttrInfo, a: Option<string>, b: Option<string>) {
    match info.form
    case Chars => Shown(a) == Shown(b)
    case ProgramId => ShownId(a) == ShownId(b)
    case Flag => (a.Some? <==> b.Some?) && (a.Some? ==> (IsTrue(a.value) <==> IsTrue(b.value)))
    case _ => (a.Some? <==> b.Some?) && (a.Some? ==> f.number(info.form, a.value) == f.number(info.form, b.value))
  }

  /** The octets behind the short name. */
  function ValueOf(f: Foreign, info: AttrInfo, v: Option<string>): Result<Octets, Fault> {
    match v
    case None => Ok(Block(f.utf8("$<null>$")))
    case Some(value) =>
      match info.form
      case Chars => Ok(Block(f.utf8(value)))
      case ProgramId => Ok(Block(f.utf8(NormalizeId(value))))
      case Flag => Ok([if IsTrue(value) then 1 else 0])
      case _ =>
        match f.number(info.form, value)
        case None => Err(Unparseable(info.short, value))
        case Some(octets) => Ok(octets)
  }

  /** An attribute is its short name and its value, one behind the other. */
  lemma AttributeIs(f: Foreign, info: AttrInfo, attrs: map<string, string>)
    ensures AttrOctets(f, info, Get(attrs, info.name))
         == match ValueOf(f, info, Effective(info, attrs))
            case Err(e) => Err(e)
            case Ok(value) => Ok(Block(f.utf8(info.short)) + value)
  {
  }

  // ── Blocks and numbers apart ────────────────────────────────────

  /** A block ends where it says, whatever follows it. */
  lemma BlocksApart(x: Octets, r: Octets, y: Octets, s: Octets)
    requires Block(x) + r == Block(y) + s
    ensures x == y && r == s
  {
    BlockReadsBack(x, r);
    BlockReadsBack(y, s);
  }

  /** A short block starts with its length. */
  lemma ShortBlockStarts(x: Octets, r: Octets)
    requires |x| < 36
    ensures Block(x) + r != [] && (Block(x) + r)[0] < 36
  {
    Cemi.OctetHolds(|x|);
    assert Varint(|x|) == [|x| as bv8];
  }

  lemma SentinelBlock()
    ensures Block(SENTINEL_OCTETS) == [8] + SENTINEL_OCTETS
  {
  }

  /** What follows an attribute: nothing, or the short name of the next one. */
  predicate FollowsAttribute(rest: Octets) {
    rest == [] || rest[0] < 36
  }

  lemma SameBehind(v: Octets, r: Octets, w: Octets, s: Octets)
    requires v + r == w + s && |v| == |w|
    ensures v == w && r == s
  {
    assert v == (v + r)[..|v|] && w == (w + s)[..|w|];
    assert r == (v + r)[|v|..] && s == (w + s)[|w|..];
  }

  /** A number is never taken for the sign of a missing one. */
  lemma NumberIsNoSentinel(v: Octets, r: Octets, s: Octets)
    requires |v| in {1, 2, 4, 8} && FollowsAttribute(r)
    ensures v + r != [8] + SENTINEL_OCTETS + s
  {
    SentinelIsHigh(s);
    assert |v + r| >= 9 ==> r != [] && (v + r)[|v|] == r[0];
  }

  lemma SentinelIsHigh(s: Octets)
    ensures var w := [8] + SENTINEL_OCTETS + s;
            |w| >= 9 && w[1] >= 36 && w[2] >= 36 && w[4] >= 36 && w[8] >= 36
  {
    var w := [8] + SENTINEL_OCTETS + s;
    assert w[1] == 0x24 && w[2] == 0x3C && w[4] == 0x75 && w[8] == 0x24;
  }

  /** Two values of an attribute with the same octets, whatever may follow them, mean the same. */
  lemma ValuesApart(f: Foreign, info: AttrInfo, a: Option<string>, b: Option<string>, r: Octets, s: Octets)
    requires Sound(f) && ValueOf(f, info, a).Ok? && ValueOf(f, info, b).Ok?
    requires FollowsAttribute(r) && FollowsAttribute(s)
    requires ValueOf(f, info, a).value + r == ValueOf(f, info, b).value + s
    ensures SameMeaning(f, info, a, b) && r == s
  {
    match info.form
    case Chars => BlocksApart(f.utf8(Shown(a)), r, f.utf8(Shown(b)), s);
    case ProgramId => BlocksApart(f.utf8(ShownId(a)), r, f.utf8(ShownId(b)), s);
    case Flag => FlagsApart(f, info, a, b, r, s);
    case _ => NumbersApart(f, info, a, b, r, s);
  }

  lemma FlagsApart(f: Foreign, info: AttrInfo, a: Option<string>, b: Option<string>, r: Octets, s: Octets)
    requires Sound(f) && info.form == Flag && ValueOf(f, info, a).value + r == ValueOf(f, info, b).value + s
    ensures SameMeaning(f, info, a, b) && r == s
  {
    var v, w := ValueOf(f, info, a).value, ValueOf(f, info, b).value;
    SentinelBlock();
    assert v[0] == (v + r)[0] == (w + s)[0] == w[0];
    assert v[0] == if a.None? then 8 else if IsTrue(a.value) then 1 else 0;
    assert w[0] == if b.None? then 8 else if IsTrue(b.value) then 1 else 0;
    SameBehind(v, r, w, s);
  }

  lemma NumbersApart(f: Foreign, info: AttrInfo, a: Option<string>, b: Option<string>, r: Octets, s: Octets)
    requires Sound(f) && IsNumber(info.form) && ValueOf(f, info, a).Ok? && ValueOf(f, info, b).Ok?
    requires FollowsAttribute(r) && FollowsAttribute(s)
    requires ValueOf(f, info, a).value + r == ValueOf(f, info, b).value + s
    ensures SameMeaning(f, info, a, b) && r == s
  {
    var v, w := ValueOf(f, info, a).value, ValueOf(f, info, b).value;
    SentinelBlock();
    if a.Some? && b.None? {
      NumberIsNoSentinel(v, r, s);
    } else if a.None? && b.Some? {
      NumberIsNoSentinel(w, s, r);
    } else {
      SameBehind(v, r, w, s);
    }
  }

  // ── All attributes of an element ────────────────────────────────

  lemma AttributesFollow(f: Foreign, infos: seq<AttrInfo>, attrs: map<string, string>)
    requires ShortNames(f, infos) && AllAttrs(f, infos, attrs).Ok?
    ensures FollowsAttribute(AllAttrs(f, infos, attrs).value)
  {
    if infos != [] {
      AttributeIs(f, infos[0], attrs);
      var value := ValueOf(f, infos[0], Effective(infos[0], attrs)).value;
      var rest := AllAttrs(f, infos[1..], attrs).value;
      Associative(Block(f.utf8(infos[0].short)), value, rest);
      ShortBlockStarts(f.utf8(infos[0].short), value + rest);
    }
  }

  /** Equal octets of the attributes mean equal effective values, attribute by attribute. */
  lemma {:induction false} AttributesApart(f: Foreign, infos: seq<AttrInfo>, a: map<string, string>, b: map<string, string>, i: nat)
    requires Sound(f) && ShortNames(f, infos) && AllAttrs(f, infos, a).Ok? && AllAttrs(f, infos, a) == AllAttrs(f, infos, b)
    requires i < |infos|
    ensures SameMeaning(f, infos[i], Effective(infos[i], a), Effective(infos[i], b))
  {
    FirstApart(f, infos, a, b);
    if i > 0 {
      AttributesApart(f, infos[1..], a, b, i - 1);
    }
  }

  lemma FirstApart(f: Foreign, infos: seq<AttrInfo>, a: map<string, string>, b: map<string, string>)
    requires Sound(f) && ShortNames(f, infos) && AllAttrs(f, infos, a).Ok? && AllAttrs(f, infos, a) == AllAttrs(f, infos, b)
    requires infos != []
    ensures SameMeaning(f, infos[0], Effective(infos[0], a), Effective(infos[0], b))
    ensures ShortNames(f, infos[1..])
    ensures AllAttrs(f, infos[1..], a).Ok? && AllAttrs(f, infos[1..], a) == AllAttrs(f, infos[1..], b)
  {
    var info := infos[0];
    AttributeIs(f, info, a);
    AttributeIs(f, info, b);
    assert ShortNames(f, infos[1..]);
    var v, w := ValueOf(f, info, Effective(info, a)).value, ValueOf(f, info, Effective(info, b)).value;
    var r, s := AllAttrs(f, infos[1..], a).value, AllAttrs(f, infos[1..], b).value;
    AttributesFollow(f, infos[1..], a);
    AttributesFollow(f, infos[1..], b);
    var short := Block(f.utf8(info.short));
    Associative(short, v, r);
    Associative(short, w, s);
    SameBehind(short, v + r, short, w + s);
    ValuesApart(f, info, Effective(info, a), Effective(info, b), r, s);
  }

  /**
   Equal octets of two elements of one registered name mean that every registered attribute has the
   same effective value in both: ids up to their fingerprint, flags as booleans, numbers as numbers.
   */
  lemma SameOctetsSameAttributes(f: Foreign, registry: Registry, a: Node, b: Node, i: nat)
    requires Sound(f) && a.name == b.name && a.name in registry && registry[a.name].kind.Attrs?
    requires ShortNames(f, registry[a.name].kind.attrs) && i < |registry[a.name].kind.attrs|
    requires OwnOctets(f, registry, a).Ok? && OwnOctets(f, registry, a) == OwnOctets(f, registry, b)
    ensures var info := registry[a.name].kind.attrs[i];
            SameMeaning(f, info, Effective(info, a.attrs), Effective(info, b.attrs))
  {
    AttributesApart(f, registry[a.name].kind.attrs, a.attrs, b.attrs, i);
  }

  /** Equal octets of two elements with text mean the same text, or the same decoded octets. */
  lemma SameOctetsSameText(f: Foreign, registry: Registry, a: Node, b: Node)
    requires Sound(f) && a.name == b.name && a.name in registry && registry[a.name].kind.InnerText?
    requires Trim(a.text) != "" && Trim(b.text) != ""
    requires OwnOctets(f, registry, a).Ok? && OwnOctets(f, registry, a) == OwnOctets(f, registry, b)
    ensures if registry[a.name].kind.form.Base64? then f.decode64(Trim(a.text)) == f.decode64(Trim(b.text))
            else a.text == b.text
  {
    var form := registry[a.name].kind.form;
    var x, y := TextOctets(f, form, a.text).value, TextOctets(f, form, b.text).value;
    var tag := [registry[a.name].kind.tag];
    SameBehind(tag, x, tag, y);
    if !form.Base64? {
      EmptyIsUnit(x);
      EmptyIsUnit(y);
      BlocksApart(f.utf8(a.text), [], f.utf8(b.text), []);
    }
  }

  // ── What an element contains ────────────────────────────────────

  predicate HasKey(g: Generated) {
    g.key.Some?
  }

  /**
   The octets of an element are its own, followed by those of its children that have a key, each of
   them once.
   */
  lemma ElementIs(f: Foreign, registry: Registry, node: Node, parent: string) returns (blocks: seq<Octets>)
    requires Element(f, registry, node, parent).Ok? && HasChildren(registry, node)
    ensures OwnOctets(f, registry, node).Ok? && Collected(Results(f, registry, node)).Ok?
    ensures var gens := Collected(Results(f, registry, node)).value;
            && Element(f, registry, node, parent).value.bytes == OwnOctets(f, registry, node).value + Concat(blocks)
            && multiset(blocks) == multiset(GenBytes(Picked(gens, HasKey)))
  {
    var gens := Collected(Results(f, registry, node)).value;
    blocks := Siblings.Blocks(gens, f.isUpper);
    SortedIs(Entries(gens), f.isUpper);
    MappedAlike(StableSorted(Entries(gens), f.isUpper), Entries(gens), (e: Entry) => e.bytes);
    EntryBytesAre(gens);
    assert blocks == BytesOf(StableSorted(Entries(gens), f.isUpper));
  }

  lemma {:induction false} EntryBytesAre(gens: seq<Generated>)
    ensures BytesOf(Entries(gens)) == GenBytes(Picked(gens, HasKey))
  {
    if gens != [] {
      var n := |gens| - 1;
      EntryBytesAre(gens[..n]);
      BytesApart(Entries(gens[..n]), EntryOf(gens[n], OrderedCount(gens[..n])));
      GenBytesApart(Picked(gens[..n], HasKey), gens[n]);
      EmptyIsUnit(Entries(gens[..n]));
      EmptyIsUnit(Picked(gens[..n], HasKey));
    }
  }

  /** An element is sorted by its attribute for that, else by the digest of its octets, if it has any. */
  lemma KeyIs(f: Foreign, registry: Registry, node: Node, parent: string)
    requires Element(f, registry, node, parent).Ok?
    ensures var g := Element(f, registry, node, parent).value;
            g.key
            == if node.name in registry && registry[node.name].kind.Attrs? && registry[node.name].kind.sortBy.Some?
                  && registry[node.name].kind.sortBy.value in node.attrs then
                 Some(NormalizeId(node.attrs[registry[node.name].kind.sortBy.value]))
               else if g.bytes == [] then None
               else Some(f.digest(g.bytes))
  {
  }

  // ── A change of one child shows ─────────────────────────────────

  lemma InsertWithOther(s: seq<Entry>, e: Entry, x: Entry, isUpper: char -> bool) returns (j: nat)
    requires e.key == x.key
    ensures j <= |s| && Insert(s, e, isUpper)[j] == e && Insert(s, x, isUpper) == Insert(s, e, isUpper)[j := x]
  {
    var n := |s| - 1;
    if s == [] || AtMost(s[n].key, e.key, isUpper) {
      j := |s|;
    } else {
      j := InsertWithOther(s[..n], e, x, isUpper);
    }
  }

  lemma {:induction false} InsertIntoOther(s: seq<Entry>, k: nat, x: Entry, e: Entry, isUpper: char -> bool) returns (j: nat)
    requires k < |s| && x.key == s[k].key
    ensures j <= |s| && Insert(s, e, isUpper)[j] == s[k] && Insert(s[k := x], e, isUpper) == Insert(s, e, isUpper)[j := x]
  {
    var n := |s| - 1;
    if AtMost(s[n].key, e.key, isUpper) {
      j := k;
    } else if k == n {
      assert s[k := x][..n] == s[..n];
      j := |s|;
    } else {
      assert s[k := x][..n] == s[..n][k := x];
      j := InsertIntoOther(s[..n], k, x, e, isUpper);
    }
  }

  /** Other octets under the same key stand in the same place. */
  lemma {:induction false} SortedWithOther(s: seq<Entry>, k: nat, x: Entry, isUpper: char -> bool) returns (j: nat)
    requires k < |s| && x.key == s[k].key
    ensures j < |s| && StableSorted(s, isUpper)[j] == s[k]
    ensures StableSorted(s[k := x], isUpper) == StableSorted(s, isUpper)[j := x]
  {
    var n := |s| - 1;
    if k == n {
      assert s[k := x][..n] == s[..n];
      j := InsertWithOther(StableSorted(s[..n], isUpper), s[n], x, isUpper);
    } else {
      assert s[k := x][..n] == s[..n][k := x];
      var i := SortedWithOther(s[..n], k, x, isUpper);
      j := InsertIntoOther(StableSorted(s[..n], isUpper), i, x, s[n], isUpper);
    }
  }

  lemma OneBlockDiffers(blocks: seq<Octets>, j: nat, x: Octets)
    requires j < |blocks| && blocks[j] != x
    ensures Concat(blocks[j := x]) != Concat(blocks)
  {
    var a, y, b := blocks[..j], blocks[j], blocks[j + 1..];
    assert blocks == a + ([y] + b) && blocks[j := x] == a + ([x] + b);
    ConcatApart(a, [y] + b);
    ConcatApart(a, [x] + b);
    ConcatFirst(y, b);
    ConcatFirst(x, b);
    if Concat(a) + (x + Concat(b)) == Concat(a) + (y + Concat(b)) {
      SameBehind(Concat(a), x + Concat(b), Concat(a), y + Concat(b));
      assert |x| == |y|;
      SameBehind(x, Concat(b), y, Concat(b));
    }
  }

  lemma {:induction false} EntriesWithOther(gens: seq<Generated>, i: nat, g: Generated) returns (k: nat)
    requires i < |gens| && gens[i].key.Some? && g.key == gens[i].key && g.ordered == gens[i].ordered
    ensures k < |Entries(gens)| && Entries(gens)[k].bytes == gens[i].bytes
    ensures Entries(gens[i := g]) == Entries(gens)[k := Entry(Entries(gens)[k].key, g.bytes)]
    ensures OrderedCount(gens[i := g]) == OrderedCount(gens)
    decreases |gens|
  {
    var n := |gens| - 1;
    if i == n {
      assert gens[i := g][..n] == gens[..n];
      k := |Entries(gens[..n])|;
      LastWithOther(Entries(gens[..n]), gens[n], g, OrderedCount(gens[..n]));
    } else {
      assert gens[i := g][..n] == gens[..n][i := g];
      k := EntriesWithOther(gens[..n], i, g);
      EarlierWithOther(Entries(gens[..n]), k, g.bytes, EntryOf(gens[n], OrderedCount(gens[..n])));
    }
  }

  lemma LastWithOther(before: seq<Entry>, earlier: Generated, g: Generated, count: nat)
    requires earlier.key.Some? && g.key == earlier.key && g.ordered == earlier.ordered
    ensures var s := before + EntryOf(earlier, count);
            && |s| == |before| + 1 && s[|before|].bytes == earlier.bytes
            && before + EntryOf(g, count) == s[|before| := Entry(s[|before|].key, g.bytes)]
  {
  }

  lemma EarlierWithOther(before: seq<Entry>, k: nat, bytes: Octets, last: seq<Entry>)
    requires k < |before|
    ensures before[k := Entry(before[k].key, bytes)] + last == (before + last)[k := Entry(before[k].key, bytes)]
    ensures (before + last)[k] == before[k]
  {
  }

  /** A sibling with other octets under the same key changes the octets of all siblings together. */
  lemma SiblingShows(gens: seq<Generated>, i: nat, g: Generated, isUpper: char -> bool)
    requires i < |gens| && gens[i].key.Some? && g.key == gens[i].key && g.ordered == gens[i].ordered
    requires g.bytes != gens[i].bytes
    ensures Concat(Siblings.Blocks(gens[i := g], isUpper)) != Concat(Siblings.Blocks(gens, isUpper))
  {
    var k := EntriesWithOther(gens, i, g);
    var x := Entry(Entries(gens)[k].key, g.bytes);
    EntryShows(Entries(gens), k, x, isUpper);
  }

  lemma EntryShows(s: seq<Entry>, k: nat, x: Entry, isUpper: char -> bool)
    requires k < |s| && x.key == s[k].key && x.bytes != s[k].bytes
    ensures Concat(BytesOf(StableSorted(s[k := x], isUpper))) != Concat(BytesOf(StableSorted(s, isUpper)))
  {
    var j := SortedWithOther(s, k, x, isUpper);
    var sorted := StableSorted(s, isUpper);
    assert BytesOf(sorted[j := x]) == BytesOf(sorted)[j := x.bytes];
    OneBlockDiffers(BytesOf(sorted), j, x.bytes);
  }

  /** Two elements that differ in one child, which keeps its key and has other octets, have other octets below. */
  lemma ChildShows(f: Foreign, registry: Registry, a: Node, b: Node, i: nat)
    requires Collected(Results(f, registry, a)).Ok? && Collected(Results(f, registry, b)).Ok?
    requires var ga, gb := Collected(Results(f, registry, a)).value, Collected(Results(f, registry, b)).value;
             && |ga| == |gb| && i < |ga| && gb == ga[i := gb[i]]
             && ga[i].key.Some? && gb[i].key == ga[i].key && gb[i].ordered == ga[i].ordered && gb[i].bytes != ga[i].bytes
    ensures ChildOctets(f, registry, a) != ChildOctets(f, registry, b)
  {
    var ga, gb := Collected(Results(f, registry, a)).value, Collected(Results(f, registry, b)).value;
    SiblingShows(ga, i, gb[i], f.isUpper);
  }

  /** Without a collision of the digest, such documents have different registration hashes. */
  lemma HashShows(f: Foreign, registry: Registry, a: Node, b: Node, i: nat)
    requires Collected(Results(f, registry, a)).Ok? && Collected(Results(f, registry, b)).Ok?
    requires var ga, gb := Collected(Results(f, registry, a)).value, Collected(Results(f, registry, b)).value;
             && |ga| == |gb| && i < |ga| && gb == ga[i := gb[i]]
             && ga[i].key.Some? && gb[i].key == ga[i].key && gb[i].ordered == ga[i].ordered && gb[i].bytes != ga[i].bytes
    requires forall x, y :: f.digest(x) == f.digest(y) ==> x == y
    ensures Hash(f, registry, a) != Hash(f, registry, b)
  {
    ChildShows(f, registry, a, b, i);
  }
}
