/**
 The octets that are hashed for an application program: attributes of known elements, and the
 octets of the children, ordered or sorted. Moving siblings whose order is irrelevant and changing
 the fingerprint in ids leaves the octets as they are.
 */
module ProgramHash {
  import opened Basics
  import opened BinaryWriter
  import opened Collation
  import opened SiblingOrder
  import opened Siblings
  import opened SiblingOctets
  import opened ProgramId
  import XmlScan

  // ── The registry of elements ────────────────────────────────────

  datatype AttrType = Chars | ProgramId | Flag | UInt16 | UInt32 | Int32 | Int64 | Byte | Double

  datatype AttrInfo = AttrInfo(name: string, short: string, form: AttrType, fallback: Option<string>)

  datatype TextForm = Base64 | Number | Verbatim

  /** An element has attributes, and perhaps one that it is sorted by, or it has text. */
  datatype Kind =
    | Attrs(attrs: seq<AttrInfo>, sortBy: Option<string>)
    | InnerText(tag: bv8, form: TextForm)

  datatype ElementInfo = ElementInfo(kind: Kind, ordered: bool)

  type Registry = map<string, ElementInfo>

  /** What is computed elsewhere: case of characters, encoding of strings and numbers, MD5 in base64. */
  datatype Foreign = Foreign(
    isUpper: char -> bool,
    utf8: string -> Octets,
    number: (AttrType, string) -> Option<Octets>,
    decode64: string -> Option<Octets>,
    digest: Octets -> string)

  datatype Fault = Unparseable(short: string, value: string) | BadBase64(text: string)

  /** An element of the document. */
  datatype Node = Node(name: string, attrs: map<string, string>, text: string, children: seq<Node>)

  // ── Attributes ──────────────────────────────────────────────────

  const NULL_SENTINEL: string := "$<null>$"

  function Lower(c: char): char {
    if 'A' <= c <= 'Z' then (c as int + 32) as char else c
  }

  function LowerAll(s: string): string {
    seq(|s|, i requires 0 <= i < |s| => Lower(s[i]))
  }

  predicate IsTrue(v: string) {
    v == "1" || LowerAll(v) == "true"
  }

  function ValueOctets(f: Foreign, info: AttrInfo, v: string): Result<Octets, Fault> {
    match info.form
    case Chars => Ok(Block(f.utf8(v)))
    case ProgramId => Ok(Block(f.utf8(NormalizeId(v))))
    case Flag => Ok([if IsTrue(v) then 1 else 0])
    case _ =>
      match f.number(info.form, v)
      case None => Err(Unparseable(info.short, v))
      case Some(octets) => Ok(octets)
  }

  function Get(attrs: map<string, string>, name: string): Option<string> {
    if name in attrs then Some(attrs[name]) else None
  }

  /** One attribute: its short name, and its value, the default, or a sign that it is missing. */
  function AttrOctets(f: Foreign, info: AttrInfo, raw: Option<string>): Result<Octets, Fault> {
    var effective := if raw.Some? && raw.value != "" then raw else info.fallback;
    var value := match effective
      case None => Ok(Block(f.utf8(NULL_SENTINEL)))
      case Some(v) => ValueOctets(f, info, v);
    match value
    case Err(e) => Err(e)
    case Ok(octets) => Ok(Block(f.utf8(info.short)) + octets)
  }

  function AllAttrs(f: Foreign, infos: seq<AttrInfo>, attrs: map<string, string>): Result<Octets, Fault> {
    if infos == [] then Ok([])
    else
      match AttrOctets(f, infos[0], Get(attrs, infos[0].name))
      case Err(e) => Err(e)
      case Ok(first) =>
        match AllAttrs(f, infos[1..], attrs)
        case Err(e) => Err(e)
        case Ok(rest) => Ok(first + rest)
  }

  method WriteAttrs(f: Foreign, infos: seq<AttrInfo>, attrs: map<string, string>) returns (r: Result<Octets, Fault>)
    ensures r == AllAttrs(f, infos, attrs)
  {
    var buf: Octets := [];
    assert infos[0..] == infos;
    if AllAttrs(f, infos, attrs).Ok? {
      EmptyIsUnit(AllAttrs(f, infos, attrs).value);
    }
    for i := 0 to |infos|
      invariant AllAttrs(f, infos, attrs)
             == match AllAttrs(f, infos[i..], attrs) case Err(e) => Err(e) case Ok(rest) => Ok(buf + rest)
    {
      assert infos[i..][0] == infos[i] && infos[i..][1..] == infos[i + 1..];
      var one := AttrOctets(f, infos[i], Get(attrs, infos[i].name));
      if one.Err? {
        return Err(one.error);
      }
      if AllAttrs(f, infos[i + 1..], attrs).Ok? {
        Associative(buf, one.value, AllAttrs(f, infos[i + 1..], attrs).value);
      }
      buf := buf + one.value;
    }
    EmptyIsUnit(buf);
    return Ok(buf);
  }

  // ── Text ────────────────────────────────────────────────────────

  function TrimStart(s: string): string {
    if s != [] && XmlScan.IsSpace(s[0]) then TrimStart(s[1..]) else s
  }

  function TrimEnd(s: string): string {
    if s != [] && XmlScan.IsSpace(s[|s| - 1]) then TrimEnd(s[..|s| - 1]) else s
  }

  function Trim(s: string): string {
    TrimEnd(TrimStart(s))
  }

  function TextOctets(f: Foreign, form: TextForm, text: string): Result<Octets, Fault> {
    var trimmed := Trim(text);
    if trimmed == "" then Ok([])
    else if form.Base64? then
      match f.decode64(trimmed)
      case None => Err(BadBase64(trimmed))
      case Some(octets) => Ok(octets)
    else Ok(Block(f.utf8(text)))
  }

  // ── Elements ────────────────────────────────────────────────────

  predicate UnorderedParent(name: string) {
    name == "LParameters" || name == "RParameters"
  }

  /** Whether the order of an element among its siblings is relevant. */
  predicate OrderIsRelevant(registry: Registry, name: string, parent: string) {
    name in registry && registry[name].kind.Attrs? && registry[name].ordered
    && !(name == "ParameterRefRef" && UnorderedParent(parent))
  }

  /** What an element is sorted by, if that is one of its attributes. */
  function SortKeyOf(registry: Registry, node: Node): Option<string> {
    if node.name in registry && registry[node.name].kind.Attrs? then
      match registry[node.name].kind.sortBy
      case None => None
      case Some(name) => (match Get(node.attrs, name) case None => None case Some(v) => Some(NormalizeId(v)))
    else None
  }

  /** The octets of an element without its children. */
  function OwnOctets(f: Foreign, registry: Registry, node: Node): Result<Octets, Fault> {
    if node.name !in registry then Ok([])
    else
      match registry[node.name].kind
      case Attrs(infos, _) => AllAttrs(f, infos, node.attrs)
      case InnerText(tag, form) =>
        match TextOctets(f, form, node.text)
        case Err(e) => Err(e)
        case Ok(octets) => Ok([tag] + octets)
  }

  /** Elements with text have no other content. */
  predicate HasChildren(registry: Registry, node: Node) {
    node.name in registry ==> registry[node.name].kind.Attrs?
  }

  /**
   Elements with text have some, and no children, at every depth. Behind an empty one the XML
   reader would go on to the text of a later element.
   */
  predicate Readable(registry: Registry, node: Node)
    decreases node
  {
    && (!HasChildren(registry, node) ==> Trim(node.text) != "" && node.children == [])
    && forall i :: 0 <= i < |node.children| ==> Readable(registry, node.children[i])
  }

  /** All values, or the first fault. */
  function Collected(results: seq<Result<Generated, Fault>>): Result<seq<Generated>, Fault> {
    if results == [] then Ok([])
    else
      match results[0]
      case Err(e) => Err(e)
      case Ok(g) =>
        match Collected(results[1..])
        case Err(e) => Err(e)
        case Ok(rest) => Ok([g] + rest)
  }

  function Results(f: Foreign, registry: Registry, node: Node): (r: seq<Result<Generated, Fault>>)
    ensures |r| == |node.children|
    decreases node, 0
  {
    seq(|node.children|, i requires 0 <= i < |node.children| => Element(f, registry, node.children[i], node.name))
  }

  /** The octets of all children. */
  function ChildOctets(f: Foreign, registry: Registry, node: Node): Result<Octets, Fault>
    decreases node, 1
  {
    match Collected(Results(f, registry, node))
    case Err(e) => Err(e)
    case Ok(gens) => Ok(Concat(Siblings.Blocks(gens, f.isUpper)))
  }

  /** An element: without a key of its own it is sorted by the digest of its octets. */
  function Finished(f: Foreign, octets: Octets, key: Option<string>, ordered: bool): Generated {
    Generated(octets, if key.None? && octets != [] then Some(f.digest(octets)) else key, ordered)
  }

  function Element(f: Foreign, registry: Registry, node: Node, parent: string): Result<Generated, Fault>
    decreases node, 2
  {
    match OwnOctets(f, registry, node)
    case Err(e) => Err(e)
    case Ok(own) =>
      match if HasChildren(registry, node) then ChildOctets(f, registry, node) else Ok([])
      case Err(e) => Err(e)
      case Ok(below) =>
        Ok(Finished(f, own + below, SortKeyOf(registry, node), OrderIsRelevant(registry, node.name, parent)))
  }

  // ── The loops ───────────────────────────────────────────────────

  method ProcessElement(f: Foreign, registry: Registry, node: Node, parent: string) returns (r: Result<Generated, Fault>)
    requires Readable(registry, node)
    ensures r == Element(f, registry, node, parent)
    decreases node, 2
  {
    var stream := OwnOctets(f, registry, node);
    if stream.Err? {
      return Err(stream.error);
    }
    if !HasChildren(registry, node) {
      EmptyIsUnit(stream.value);
    } else {
      stream := ReadChildren(f, registry, node, stream.value);
      if stream.Err? {
        return Err(stream.error);
      }
    }
    return Ok(Finished(f, stream.value, SortKeyOf(registry, node), OrderIsRelevant(registry, node.name, parent)));
  }

  /** Append the children's octets: collect those with a key, sort them, and write them one by one. */
  method ReadChildren(f: Foreign, registry: Registry, node: Node, stream: Octets) returns (r: Result<Octets, Fault>)
    requires Readable(registry, node)
    ensures r == match ChildOctets(f, registry, node) case Err(e) => Err(e) case Ok(below) => Ok(stream + below)
    decreases node, 1
  {
    ghost var results := Results(f, registry, node);
    var entries: seq<Entry> := [];
    var counter := 0;
    ghost var gens: seq<Generated> := [];
    NothingRead(results);
    for i := 0 to |node.children|
      invariant Gathered(entries, counter, gens) && ReadSoFar(results, gens, i)
    {
      var result := ProcessElement(f, registry, node.children[i], node.name);
      OneMoreRead(results, gens, i);
      if result.Err? {
        return Err(result.error);
      }
      entries, counter, gens := Gather(entries, counter, result.value, gens);
    }
    AllRead(results, gens);
    var out := AppendAll(stream, StableSorted(entries, f.isUpper));
    return Ok(out);
  }

  /** What was collected from the first siblings. */
  predicate Gathered(entries: seq<Entry>, counter: nat, gens: seq<Generated>) {
    entries == Entries(gens) && counter == OrderedCount(gens)
  }

  /** Collect one more sibling, if it has a key; count it, if its order is relevant. */
  method Gather(entries: seq<Entry>, counter: nat, g: Generated, ghost gens: seq<Generated>)
    returns (entries': seq<Entry>, counter': nat, ghost gens': seq<Generated>)
    requires Gathered(entries, counter, gens)
    ensures gens' == gens + [g] && Gathered(entries', counter', gens')
  {
    entries', counter' := entries, counter;
    if g.key.Some? {
      var key := if g.ordered then Ordered(counter) else Sorted(g.key.value);
      counter' := if g.ordered then counter + 1 else counter;
      entries' := entries + [Entry(key, g.bytes)];
    }
    OneMoreGenerated(gens, g);
    gens' := gens + [g];
  }

  /** The results before `i` are these values; the others are still to be read. */
  ghost predicate ReadSoFar(results: seq<Result<Generated, Fault>>, gens: seq<Generated>, i: nat) {
    && i <= |results|
    && Collected(results) == match Collected(results[i..]) case Err(e) => Err(e) case Ok(rest) => Ok(gens + rest)
  }

  lemma NothingRead(results: seq<Result<Generated, Fault>>)
    ensures ReadSoFar(results, [], 0)
  {
    assert results[0..] == results;
    if Collected(results).Ok? {
      EmptyIsUnit(Collected(results).value);
    }
  }

  lemma OneMoreRead(results: seq<Result<Generated, Fault>>, gens: seq<Generated>, i: nat)
    requires i < |results| && ReadSoFar(results, gens, i)
    ensures match results[i]
            case Err(e) => Collected(results) == Err(e)
            case Ok(g) => ReadSoFar(results, gens + [g], i + 1)
  {
    assert results[i..][0] == results[i] && results[i..][1..] == results[i + 1..];
    if results[i].Ok? && Collected(results[i + 1..]).Ok? {
      Associative(gens, [results[i].value], Collected(results[i + 1..]).value);
    }
  }

  lemma AllRead(results: seq<Result<Generated, Fault>>, gens: seq<Generated>)
    requires ReadSoFar(results, gens, |results|)
    ensures Collected(results) == Ok(gens)
  {
    EmptyIsUnit(gens);
  }

  method AppendAll(stream: Octets, sorted: seq<Entry>) returns (out: Octets)
    ensures out == stream + Concat(BytesOf(sorted))
  {
    ghost var blocks := BytesOf(sorted);
    out := stream;
    assert blocks[0..] == blocks;
    for i := 0 to |sorted|
      invariant out + Concat(blocks[i..]) == stream + Concat(blocks)
    {
      assert blocks[i..][0] == sorted[i].bytes && blocks[i..][1..] == blocks[i + 1..];
      Associative(out, sorted[i].bytes, Concat(blocks[i + 1..]));
      out := out + sorted[i].bytes;
    }
    EmptyIsUnit(out);
  }

  lemma OneMoreGenerated(gens: seq<Generated>, g: Generated)
    ensures Entries(gens + [g]) == Entries(gens) + EntryOf(g, OrderedCount(gens))
    ensures OrderedCount(gens + [g]) == OrderedCount(gens) + if IsOrdered(g) then 1 else 0
  {
    assert (gens + [g])[..|gens|] == gens;
  }

  // ── The same program, written differently ───────────────────────

  /** The attribute is registered as a program id, if at all. */
  predicate IsProgramId(registry: Registry, element: string, attr: string) {
    && element in registry && registry[element].kind.Attrs?
    && var infos := registry[element].kind.attrs;
       forall i :: 0 <= i < |infos| && infos[i].name == attr ==> infos[i].form == ProgramId
  }

  /** The values are equal, or program ids that differ in their fingerprint. */
  predicate SameValue(registry: Registry, element: string, attr: string, a: string, b: string) {
    a == b || (IsProgramId(registry, element, attr) && a != "" && b != "" && NormalizeId(a) == NormalizeId(b))
  }

  predicate SameAttrs(registry: Registry, a: Node, b: Node) {
    && a.attrs.Keys == b.attrs.Keys
    && forall k :: k in a.attrs && k in b.attrs ==> SameValue(registry, a.name, k, a.attrs[k], b.attrs[k])
  }

  /** Children whose order is relevant keep their order. */
  predicate KeepsRelevant(registry: Registry, node: Node, p: seq<nat>) {
    forall i, j :: 0 <= i < j < |p| && p[i] < |node.children| && p[j] < |node.children|
                   && OrderIsRelevant(registry, node.children[p[i]].name, node.name)
                   && OrderIsRelevant(registry, node.children[p[j]].name, node.name)
                   ==> p[i] < p[j]
  }

  /** The elements differ in fingerprints, and in the order of siblings whose order is irrelevant, at every depth. */
  ghost predicate SameProgram(registry: Registry, a: Node, b: Node)
    decreases a
  {
    && a.name == b.name && a.text == b.text && SameAttrs(registry, a, b)
    && exists p: seq<nat> ::
         && IsPermutation(p, |a.children|) && |b.children| == |p| && KeepsRelevant(registry, a, p)
         && forall i :: 0 <= i < |p| ==> p[i] < |a.children| && SameProgram(registry, a.children[p[i]], b.children[i])
  }

  /** At every depth, siblings that are sorted under equal keys can be written in either order. */
  ghost predicate SiblingsCommute(f: Foreign, registry: Registry, node: Node)
    decreases node
  {
    && (Collected(Results(f, registry, node)).Ok? ==>
          EqualKeysCommute(Collected(Results(f, registry, node)).value, f.isUpper))
    && forall i :: 0 <= i < |node.children| ==> SiblingsCommute(f, registry, node.children[i])
  }

  /** Both succeed with the same value, or both fail. */
  predicate Alike<T(==)>(a: Result<T, Fault>, b: Result<T, Fault>) {
    if a.Ok? then b == a else b.Err?
  }

  lemma SameOwnAttr(f: Foreign, registry: Registry, a: Node, b: Node, info: AttrInfo)
    requires a.name == b.name && SameAttrs(registry, a, b)
    requires a.name in registry && registry[a.name].kind.Attrs? && info in registry[a.name].kind.attrs
    ensures AttrOctets(f, info, Get(a.attrs, info.name)) == AttrOctets(f, info, Get(b.attrs, info.name))
  {
  }

  lemma {:induction false} SameAllAttrs(f: Foreign, registry: Registry, a: Node, b: Node, infos: seq<AttrInfo>)
    requires a.name == b.name && SameAttrs(registry, a, b)
    requires a.name in registry && registry[a.name].kind.Attrs?
    requires forall info :: info in infos ==> info in registry[a.name].kind.attrs
    ensures AllAttrs(f, infos, a.attrs) == AllAttrs(f, infos, b.attrs)
  {
    if infos != [] {
      SameOwnAttr(f, registry, a, b, infos[0]);
      SameAllAttrs(f, registry, a, b, infos[1..]);
    }
  }

  lemma SameOwn(f: Foreign, registry: Registry, a: Node, b: Node)
    requires a.name == b.name && a.text == b.text && SameAttrs(registry, a, b)
    ensures OwnOctets(f, registry, a) == OwnOctets(f, registry, b)
    ensures SortKeyOf(registry, a) == SortKeyOf(registry, b)
  {
    if a.name in registry && registry[a.name].kind.Attrs? {
      SameAllAttrs(f, registry, a, b, registry[a.name].kind.attrs);
    }
  }

  lemma {:induction false} CollectedIs(results: seq<Result<Generated, Fault>>)
    requires Collected(results).Ok?
    ensures |Collected(results).value| == |results|
    ensures forall i :: 0 <= i < |results| ==> results[i] == Ok(Collected(results).value[i])
  {
    if results != [] {
      CollectedIs(results[1..]);
      assert forall i :: 1 <= i < |results| ==> results[i] == results[1..][i - 1];
      assert forall i :: 0 <= i < |results| - 1 ==> results[1..][i] == results[i + 1];
    }
  }

  lemma PermutationCovers(p: seq<nat>, n: nat)
    requires IsPermutation(p, n)
    ensures |p| == n && forall i :: 0 <= i < n ==> p[i] < n
    ensures forall k :: 0 <= k < n ==> k in p
  {
    SameEmpty(p, Identity(n));
    forall i | 0 <= i < n ensures p[i] < n {
      assert p[i] in multiset(Identity(n));
    }
    forall k | 0 <= k < n ensures k in p {
      assert Identity(n)[k] in multiset(p);
    }
  }

  lemma MovedResults(ra: seq<Result<Generated, Fault>>, rb: seq<Result<Generated, Fault>>, p: seq<nat>)
    requires IsPermutation(p, |ra|) && |rb| == |p|
    requires forall i :: 0 <= i < |p| ==> p[i] < |ra| && Alike(ra[p[i]], rb[i])
    ensures Collected(ra).Ok? <==> Collected(rb).Ok?
    ensures Collected(ra).Ok? ==> Collected(rb).value == Permuted(p, Collected(ra).value)
  {
    PermutationCovers(p, |ra|);
    if Collected(ra).Ok? {
      CollectedIs(ra);
      MovedValues(Collected(ra).value, rb, p);
    } else {
      var k := OneFails(ra);
      MovedFault(ra, rb, p, k);
    }
  }

  lemma MovedFault(ra: seq<Result<Generated, Fault>>, rb: seq<Result<Generated, Fault>>, p: seq<nat>, k: nat)
    requires k in p && |rb| == |p| && k < |ra| && ra[k].Err?
    requires forall i :: 0 <= i < |p| ==> p[i] < |ra| && Alike(ra[p[i]], rb[i])
    ensures Collected(rb).Err?
  {
    var i :| 0 <= i < |p| && p[i] == k;
    assert rb[i].Err?;
    if Collected(rb).Ok? {
      CollectedIs(rb);
    }
  }

  lemma {:induction false} OneFails(results: seq<Result<Generated, Fault>>) returns (k: nat)
    requires Collected(results).Err?
    ensures k < |results| && results[k].Err?
  {
    if results[0].Err? {
      k := 0;
    } else {
      var j := OneFails(results[1..]);
      k := j + 1;
    }
  }

  lemma {:induction false} CollectedOf(results: seq<Result<Generated, Fault>>, gens: seq<Generated>)
    requires |results| == |gens| && forall i :: 0 <= i < |gens| ==> results[i] == Ok(gens[i])
    ensures Collected(results) == Ok(gens)
  {
    if gens != [] {
      CollectedOf(results[1..], gens[1..]);
      assert gens == [gens[0]] + gens[1..];
    }
  }

  lemma MovedValues(gens: seq<Generated>, rb: seq<Result<Generated, Fault>>, p: seq<nat>)
    requires |rb| == |p| && forall i :: 0 <= i < |p| ==> p[i] < |gens| && rb[i] == Ok(gens[p[i]])
    ensures Collected(rb) == Ok(Permuted(p, gens))
  {
    CollectedOf(rb, Permuted(p, gens));
  }

  lemma OrderedAsRelevant(f: Foreign, registry: Registry, node: Node, p: seq<nat>)
    requires Collected(Results(f, registry, node)).Ok? && KeepsRelevant(registry, node, p)
    ensures KeepsOrder(p, Collected(Results(f, registry, node)).value)
  {
    var gens := Collected(Results(f, registry, node)).value;
    CollectedIs(Results(f, registry, node));
    forall k | 0 <= k < |gens| ensures gens[k].ordered == OrderIsRelevant(registry, node.children[k].name, node.name) {
      assert Results(f, registry, node)[k] == Ok(gens[k]);
    }
  }

  /** The children of the same program have the same octets. */
  lemma SameChildren(f: Foreign, registry: Registry, a: Node, b: Node, p: seq<nat>)
    requires SiblingsCommute(f, registry, a)
    requires IsPermutation(p, |a.children|) && |b.children| == |p| && KeepsRelevant(registry, a, p)
    requires forall i :: 0 <= i < |p| ==>
               p[i] < |a.children| && Alike(Results(f, registry, a)[p[i]], Results(f, registry, b)[i])
    ensures Alike(ChildOctets(f, registry, a), ChildOctets(f, registry, b))
  {
    var ra, rb := Results(f, registry, a), Results(f, registry, b);
    MovedResults(ra, rb, p);
    if Collected(ra).Ok? {
      CollectedIs(ra);
      OrderedAsRelevant(f, registry, a, p);
      MovingKeepsOctets(p, Collected(ra).value, f.isUpper);
    }
  }

  /** The children of the same program are the same, in an order that is allowed. */
  lemma ChildrenMatch(registry: Registry, a: Node, b: Node) returns (p: seq<nat>)
    requires SameProgram(registry, a, b)
    ensures IsPermutation(p, |a.children|) && |b.children| == |p| && KeepsRelevant(registry, a, p)
    ensures forall i :: 0 <= i < |p| ==> p[i] < |a.children| && SameProgram(registry, a.children[p[i]], b.children[i])
  {
    p :|
      && IsPermutation(p, |a.children|) && |b.children| == |p| && KeepsRelevant(registry, a, p)
      && forall i :: 0 <= i < |p| ==> p[i] < |a.children| && SameProgram(registry, a.children[p[i]], b.children[i]);
  }

  /**
   The serialized octets of an element stay the same when siblings are reordered at any depth, as
   long as those whose order is relevant keep it, and when ids get another fingerprint; provided
   siblings that are sorted under equal keys can be written in either order.
   */
  lemma {:induction false} SameProgramSameOctets(f: Foreign, registry: Registry, a: Node, b: Node, parent: string)
    requires SameProgram(registry, a, b) && SiblingsCommute(f, registry, a)
    ensures Alike(Element(f, registry, a, parent), Element(f, registry, b, parent))
    ensures Alike(ChildOctets(f, registry, a), ChildOctets(f, registry, b))
    decreases a
  {
    var p := ChildrenMatch(registry, a, b);
    forall i | 0 <= i < |p| ensures Alike(Results(f, registry, a)[p[i]], Results(f, registry, b)[i]) {
      SameProgramSameOctets(f, registry, a.children[p[i]], b.children[i], a.name);
    }
    SameChildren(f, registry, a, b, p);
    SameOwn(f, registry, a, b);
  }

  lemma {:induction false} SameIsReadable(registry: Registry, a: Node, b: Node)
    requires SameProgram(registry, a, b) && Readable(registry, a)
    ensures Readable(registry, b)
    decreases a
  {
    var p := ChildrenMatch(registry, a, b);
    PermutationCovers(p, |a.children|);
    forall i | 0 <= i < |p| ensures Readable(registry, b.children[i]) {
      SameIsReadable(registry, a.children[p[i]], b.children[i]);
    }
  }

  /** What is hashed for a document: the octets below its list of application programs. */
  function Hash(f: Foreign, registry: Registry, programs: Node): Result<string, Fault> {
    match ChildOctets(f, registry, programs)
    case Err(e) => Err(e)
    case Ok(octets) => Ok(f.digest(octets))
  }

  /**
   The registration hash of a document without empty text elements does not depend on the order of
   siblings whose order is irrelevant, nor on the fingerprints in its ids, which are made from it.
   */
  lemma SameProgramSameHash(f: Foreign, registry: Registry, a: Node, b: Node)
    requires Readable(registry, a) && SameProgram(registry, a, b) && SiblingsCommute(f, registry, a)
    ensures Readable(registry, b) && Alike(Hash(f, registry, a), Hash(f, registry, b))
  {
    SameIsReadable(registry, a, b);
    SameProgramSameOctets(f, registry, a, b, "");
  }

  // ── When the order of children shows ────────────────────────────

  /** The element `b` is `a` with its children in another order, which keeps those whose order is relevant. */
  ghost predicate ChildrenMoved(registry: Registry, a: Node, b: Node, p: seq<nat>) {
    && IsPermutation(p, |a.children|) && KeepsRelevant(registry, a, p)
    && b == a.(children := MovedNodes(a.children, p))
  }

  function MovedNodes(nodes: seq<Node>, p: seq<nat>): (r: seq<Node>)
    ensures |r| == |p|
  {
    seq(|p|, i requires 0 <= i < |p| => if p[i] < |nodes| then nodes[p[i]] else Node("", map[], "", []))
  }

  lemma {:induction false} SameAsItself(registry: Registry, a: Node)
    ensures SameProgram(registry, a, a)
    decreases a
  {
    var p := Identity(|a.children|);
    forall i | 0 <= i < |p| ensures p[i] < |a.children| && SameProgram(registry, a.children[p[i]], a.children[i]) {
      SameAsItself(registry, a.children[i]);
    }
    assert KeepsRelevant(registry, a, p);
    assert IsPermutation(p, |a.children|);
  }

  /** Moving children gives the same program. */
  lemma MovedIsSameProgram(registry: Registry, a: Node, b: Node, p: seq<nat>)
    requires ChildrenMoved(registry, a, b, p)
    ensures SameProgram(registry, a, b)
  {
    PermutationCovers(p, |a.children|);
    forall i | 0 <= i < |p| ensures p[i] < |a.children| && SameProgram(registry, a.children[p[i]], b.children[i]) {
      SameAsItself(registry, a.children[p[i]]);
    }
    assert IsPermutation(p, |a.children|) && |b.children| == |p| && KeepsRelevant(registry, a, p);
  }

  lemma MovedOctets(f: Foreign, registry: Registry, a: Node, b: Node, p: seq<nat>)
    requires ChildrenMoved(registry, a, b, p) && Collected(Results(f, registry, a)).Ok?
    ensures ChildOctets(f, registry, b)
         == Ok(Concat(Siblings.Blocks(Permuted(p, Collected(Results(f, registry, a)).value), f.isUpper)))
  {
    var ra, rb := Results(f, registry, a), Results(f, registry, b);
    PermutationCovers(p, |a.children|);
    forall i | 0 <= i < |p| ensures p[i] < |ra| && Alike(ra[p[i]], rb[i]) {
    }
    MovedResults(ra, rb, p);
  }

  lemma RelevantAsOrdered(f: Foreign, registry: Registry, node: Node, p: seq<nat>)
    requires Collected(Results(f, registry, node)).Ok?
    requires KeepsOrder(p, Collected(Results(f, registry, node)).value)
    ensures KeepsRelevant(registry, node, p)
  {
    var gens := Collected(Results(f, registry, node)).value;
    CollectedIs(Results(f, registry, node));
    forall k | 0 <= k < |gens| ensures gens[k].ordered == OrderIsRelevant(registry, node.children[k].name, node.name) {
      assert Results(f, registry, node)[k] == Ok(gens[k]);
    }
  }

  /**
   The octets below an element stay the same however its children are moved, as long as those whose
   order is relevant keep it, exactly if the others can be written in either order wherever their
   keys compare equal.
   */
  lemma ChildOctetsKeptExactlyWhen(f: Foreign, registry: Registry, node: Node)
    requires Collected(Results(f, registry, node)).Ok?
    ensures (forall b, p :: ChildrenMoved(registry, node, b, p) ==> ChildOctets(f, registry, b) == ChildOctets(f, registry, node))
            <==> EqualKeysCommute(Collected(Results(f, registry, node)).value, f.isUpper)
  {
    var gens := Collected(Results(f, registry, node)).value;
    CollectedIs(Results(f, registry, node));
    if EqualKeysCommute(gens, f.isUpper) {
      forall b, p | ChildrenMoved(registry, node, b, p) ensures ChildOctets(f, registry, b) == ChildOctets(f, registry, node) {
        OrderedAsRelevant(f, registry, node, p);
        MovedOctets(f, registry, node, b, p);
        MovingKeepsOctets(p, gens, f.isUpper);
      }
    } else {
      var p := AReorderingShows(gens, f.isUpper);
      RelevantAsOrdered(f, registry, node, p);
      var b := node.(children := MovedNodes(node.children, p));
      assert ChildrenMoved(registry, node, b, p);
      MovedOctets(f, registry, node, b, p);
    }
  }

  /** Where the condition fails, the same program written differently has other octets. */
  lemma ASameProgramDiffers(f: Foreign, registry: Registry, node: Node) returns (b: Node)
    requires Collected(Results(f, registry, node)).Ok?
    requires !EqualKeysCommute(Collected(Results(f, registry, node)).value, f.isUpper)
    ensures SameProgram(registry, node, b) && !Alike(ChildOctets(f, registry, node), ChildOctets(f, registry, b))
  {
    ChildOctetsKeptExactlyWhen(f, registry, node);
    var p;
    b, p :| ChildrenMoved(registry, node, b, p) && ChildOctets(f, registry, b) != ChildOctets(f, registry, node);
    MovedIsSameProgram(registry, node, b, p);
    MovedOctets(f, registry, node, b, p);
  }

  /** Free siblings with different printable keys satisfy the condition. */
  lemma DifferentKeysAlike(gens: seq<Generated>, isUpper: char -> bool)
    requires KnowsCapitals(isUpper)
    requires forall i :: 0 <= i < |gens| && IsFree(gens[i]) ==> Printable(gens[i].key.value)
    requires forall i, j :: 0 <= i < j < |gens| && IsFree(gens[i]) && IsFree(gens[j]) ==> gens[i].key != gens[j].key
    ensures EqualKeysAlike(gens, isUpper) && EqualKeysCommute(gens, isUpper)
  {
    forall i, j | 0 <= i < j < |gens| && IsFree(gens[i]) && IsFree(gens[j])
      ensures CmpInvariant(gens[i].key.value, gens[j].key.value, isUpper) != Equal
    {
      PrintableKeysDiffer(gens[i].key.value, gens[j].key.value, isUpper);
    }
    AlikeCommute(gens, isUpper);
  }
}
