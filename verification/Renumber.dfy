/**
 Renumbering of the ids of an application program: from the open tags of a document to the map
 from old ids to new ones. Parameters, com-objects, blocks and separators are numbered first;
 references to parameters and com-objects are named after the id they belong to.
 */
module Renumber {
  import opened Basics
  import opened Decimal

  /** The tag names that matter here. */
  datatype Name =
    | Parameter
    | ComObject
    | ParameterBlock
    | ParameterSeparator
    | ParameterRef
    | ComObjectRef
    | OtherName

  function NameOf(tag: string): Name {
    if tag == "Parameter" then Parameter
    else if tag == "ComObject" then ComObject
    else if tag == "ParameterBlock" then ParameterBlock
    else if tag == "ParameterSeparator" then ParameterSeparator
    else if tag == "ParameterRef" then ParameterRef
    else if tag == "ComObjectRef" then ComObjectRef
    else OtherName
  }

  /** An open tag: its name and its attributes in order. */
  datatype Tag = Tag(name: Name, attrs: seq<(string, string)>)

  // ── What a renaming does to attributes ──────────────────────────

  function Lookup(m: map<string, string>, v: string): string {
    if v in m then m[v] else v
  }

  function RenamedAttrs(m: map<string, string>, attrs: seq<(string, string)>): seq<(string, string)> {
    if attrs == [] then [] else [(attrs[0].0, Lookup(m, attrs[0].1))] + RenamedAttrs(m, attrs[1..])
  }

  // ── Types of ids ────────────────────────────────────────────────

  /** The types of numbered ids. */
  datatype Marker = UP | P | O | PB | PS

  function Text(m: Marker): string {
    match m
    case UP => "UP"
    case P => "P"
    case O => "O"
    case PB => "PB"
    case PS => "PS"
  }

  datatype Fault =
    | NoNumber(id: string)
    | BadNumber(id: string)
    | UndeclaredParent(id: string)
    | NoIndex(id: string)

  // ── Tags ────────────────────────────────────────────────────────

  function GetAttr(attrs: seq<(string, string)>, name: string): Option<string> {
    if attrs == [] then None
    else if attrs[0].0 == name then Some(attrs[0].1)
    else GetAttr(attrs[1..], name)
  }

  /** The id of a tag, if it has one under the prefix of the application program. */
  function ScopedId(prefix: string, t: Tag): (id: Option<string>)
    ensures id.Some? ==> StartsWith(id.value, prefix)
  {
    match GetAttr(t.attrs, "Id")
    case Some(id) => if StartsWith(id, prefix) then Some(id) else None
    case None => None
  }

  /** The type of an id that a tag of this name declares, read from what follows the prefix. */
  function MarkerIn(name: Name, suffix: string): Option<Marker> {
    match name
    case Parameter => if StartsWith(suffix, "UP-") then Some(UP) else if StartsWith(suffix, "P-") then Some(P) else None
    case ComObject => if StartsWith(suffix, "O-") then Some(O) else None
    case ParameterBlock => if StartsWith(suffix, "PB-") then Some(PB) else None
    case ParameterSeparator => if StartsWith(suffix, "PS-") then Some(PS) else None
    case _ => None
  }

  /** The type of the id a tag declares, if it declares one that is numbered. */
  function Declares(prefix: string, t: Tag): Option<Marker> {
    match ScopedId(prefix, t)
    case Some(id) => MarkerIn(t.name, id[|prefix|..])
    case None => None
  }

  /** Parameters and com-objects have a number that references are built from. */
  predicate HasIndex(t: Tag) {
    t.name == Parameter || t.name == ComObject
  }

  predicate IsRef(prefix: string, t: Tag) {
    (t.name == ParameterRef || t.name == ComObjectRef) && ScopedId(prefix, t).Some?
  }

  function Id(prefix: string, t: Tag): string
    requires Declares(prefix, t).Some? || IsRef(prefix, t)
  {
    ScopedId(prefix, t).value
  }

  // ── First pass ──────────────────────────────────────────────────

  /** What is wrong with a declaration: a com-object has to have an integer number. */
  function DeclarationFault(prefix: string, t: Tag): Option<Fault> {
    if Declares(prefix, t).Some? && t.name == ComObject then
      match GetAttr(t.attrs, "Number")
      case None => Some(NoNumber(Id(prefix, t)))
      case Some(number) => if ParseU64(number).None? then Some(BadNumber(Id(prefix, t))) else None
    else None
  }

  /** How many declarations with this tag name there are. */
  function Count(prefix: string, tags: seq<Tag>, name: Name): nat {
    if tags == [] then 0
    else
      var last := tags[|tags| - 1];
      Count(prefix, tags[..|tags| - 1], name) + (if last.name == name && Declares(prefix, last).Some? then 1 else 0)
  }

  /** The number of a declaration that follows `before`; a com-object brings its own. */
  function Number(prefix: string, before: seq<Tag>, t: Tag): nat {
    if t.name == ComObject then
      match GetAttr(t.attrs, "Number")
      case Some(number) => (match ParseU64(number) case Some(n) => n case None => 0)
      case None => 0
    else Count(prefix, before, t.name) + 1
  }

  function NewId(prefix: string, marker: Marker, n: nat): string {
    prefix + Text(marker) + "-" + Digits(n)
  }

  /** What a declaration that follows `before` is renamed to. */
  function Declared(prefix: string, before: seq<Tag>, t: Tag): string
    requires Declares(prefix, t).Some?
  {
    NewId(prefix, Declares(prefix, t).value, Number(prefix, before, t))
  }

  // ── Maps that are filled entry by entry ─────────────────────────

  /** A map after the given entries were inserted in order; the last one for a key counts. */
  function Inserted<V>(base: map<string, V>, entries: seq<Option<(string, V)>>): map<string, V> {
    if entries == [] then base
    else
      var n := |entries| - 1;
      var m := Inserted(base, entries[..n]);
      match entries[n]
      case None => m
      case Some((key, value)) => m[key := value]
  }

  /** The entry of the declaration at position `i`. */
  function DeclarationEntry(prefix: string, tags: seq<Tag>, i: nat): Option<(string, string)>
    requires i < |tags|
  {
    if Declares(prefix, tags[i]).Some? then Some((Id(prefix, tags[i]), Declared(prefix, tags[..i], tags[i]))) else None
  }

  function DeclarationEntries(prefix: string, tags: seq<Tag>): seq<Option<(string, string)>> {
    seq(|tags|, i requires 0 <= i < |tags| => DeclarationEntry(prefix, tags, i))
  }

  /** The map after the first pass. */
  function Parents(prefix: string, tags: seq<Tag>): map<string, string> {
    Inserted(map[], DeclarationEntries(prefix, tags))
  }

  function IndexEntry(prefix: string, tags: seq<Tag>, i: nat): Option<(string, nat)>
    requires i < |tags|
  {
    if Declares(prefix, tags[i]).Some? && HasIndex(tags[i]) then
      Some((Id(prefix, tags[i]), Number(prefix, tags[..i], tags[i])))
    else None
  }

  function IndexEntries(prefix: string, tags: seq<Tag>): seq<Option<(string, nat)>> {
    seq(|tags|, i requires 0 <= i < |tags| => IndexEntry(prefix, tags, i))
  }

  /** The numbers of parameters and com-objects. */
  function Indexes(prefix: string, tags: seq<Tag>): map<string, nat> {
    Inserted(map[], IndexEntries(prefix, tags))
  }

  // ── Splitting a reference ───────────────────────────────────────

  const BOUNDARY: string := "_R-"

  predicate BoundaryAt(id: string, p: nat) {
    p + 3 <= |id| && id[p..p + 3] == BOUNDARY
  }

  predicate SplitsAt(id: string, keys: set<string>, p: nat) {
    BoundaryAt(id, p) && id[..p] in keys
  }

  /** The first boundary at or after `from` whose left side is a key. */
  function SplitFrom(id: string, keys: set<string>, from: nat): (p: Option<nat>)
    ensures p.Some? ==> from <= p.value && SplitsAt(id, keys, p.value)
    ensures p.Some? ==> forall q :: from <= q < p.value ==> !SplitsAt(id, keys, q)
    ensures p.None? ==> forall q :: from <= q ==> !SplitsAt(id, keys, q)
    decreases |id| - from
  {
    if from + 3 > |id| then None
    else if SplitsAt(id, keys, from) then Some(from)
    else SplitFrom(id, keys, from + 1)
  }

  /** The parent a reference belongs to. */
  function ParentOf(id: string, keys: set<string>): Option<string> {
    match SplitFrom(id, keys, 0)
    case None => None
    case Some(p) => Some(id[..p])
  }

  /** What follows the boundary behind the parent. */
  function SuffixOf(id: string, keys: set<string>): string
    requires ParentOf(id, keys).Some?
  {
    id[SplitFrom(id, keys, 0).value + 3..]
  }

  lemma FirstSplit(id: string, keys: set<string>, p: nat)
    requires SplitsAt(id, keys, p) && forall q :: 0 <= q < p ==> !SplitsAt(id, keys, q)
    ensures SplitFrom(id, keys, 0) == Some(p)
  {
  }

  /**
   Keys that are references themselves do not change how any id is split: where such a key ends,
   its own boundary comes earlier.
   */
  lemma ReferencesDoNotSplit(id: string, keys: set<string>, more: set<string>)
    requires forall x :: x in more ==> ParentOf(x, keys).Some?
    ensures SplitFrom(id, keys + more, 0) == SplitFrom(id, keys, 0)
  {
    match SplitFrom(id, keys + more, 0)
    case None =>
      forall q: nat ensures !SplitsAt(id, keys, q) {
        assert !SplitsAt(id, keys + more, q);
      }
    case Some(p) =>
      if id[..p] !in keys {
        var q := SplitFrom(id[..p], keys, 0).value;
        assert id[..p][..q] == id[..q] && id[..p][q..q + 3] == id[q..q + 3];
        assert SplitsAt(id, keys + more, q);
      }
      forall q: nat | q < p ensures !SplitsAt(id, keys, q) {
        assert !SplitsAt(id, keys + more, q);
      }
      FirstSplit(id, keys, p);
  }

  // ── Second pass ─────────────────────────────────────────────────

  /** What is wrong with a reference: its parent has to be declared, that of a parameter reference with a number. */
  function RefFault(prefix: string, keys: set<string>, indexed: set<string>, t: Tag): Option<Fault> {
    if !IsRef(prefix, t) then None
    else
      var id := Id(prefix, t);
      match ParentOf(id, keys)
      case None => Some(UndeclaredParent(id))
      case Some(parent) => if t.name == ParameterRef && parent !in indexed then Some(NoIndex(id)) else None
  }

  predicate RefUnder(prefix: string, keys: set<string>, t: Tag, name: Name, parent: string) {
    t.name == name && IsRef(prefix, t) && ParentOf(Id(prefix, t), keys) == Some(parent)
  }

  /** How many parameter references belong to `parent`. */
  function Instances(prefix: string, keys: set<string>, tags: seq<Tag>, parent: string): nat {
    if tags == [] then 0
    else
      var n := |tags| - 1;
      Instances(prefix, keys, tags[..n], parent)
      + (if RefUnder(prefix, keys, tags[n], ParameterRef, parent) then 1 else 0)
  }

  /** The number a com-object reference already carries, if it is one. */
  function Kept(prefix: string, keys: set<string>, t: Tag): Option<nat>
    requires IsRef(prefix, t) && ParentOf(Id(prefix, t), keys).Some?
  {
    ParseU64(SuffixOf(Id(prefix, t), keys))
  }

  /** The numbers the com-object references of `parent` already carry. */
  function Carried(prefix: string, keys: set<string>, tags: seq<Tag>, parent: string): set<nat> {
    if tags == [] then {}
    else
      var n := |tags| - 1;
      Carried(prefix, keys, tags[..n], parent)
      + (if RefUnder(prefix, keys, tags[n], ComObjectRef, parent) && Kept(prefix, keys, tags[n]).Some? then
           {Kept(prefix, keys, tags[n]).value}
         else {})
  }

  /** The next number after `n` that is not used. */
  function NextFree(used: set<nat>, n: nat): (m: nat)
    ensures n < m && m !in used
    ensures forall k :: n < k < m ==> k in used
    decreases |used - Below(n, used)|
  {
    if n + 1 in used then
      assert Below(n + 1, used) == Below(n, used) + {n + 1};
      assert used - Below(n + 1, used) < used - Below(n, used);
      SmallerSet(used - Below(n + 1, used), used - Below(n, used));
      NextFree(used, n + 1)
    else n + 1
  }

  function Below(n: nat, used: set<nat>): set<nat> {
    set k | k in used && k <= n
  }

  lemma SmallerSet(a: set<nat>, b: set<nat>)
    requires a < b
    ensures |a| < |b|
  {
    assert b == a + (b - a);
  }

  /** The numbers of one parent's com-object references: those in use, and the last one handed out. */
  datatype Supply = Supply(used: set<nat>, last: nat)

  /** The references of `parent` among `tags` that carry no number get the next free ones. */
  function SupplyAfter(prefix: string, keys: set<string>, all: seq<Tag>, tags: seq<Tag>, parent: string): Supply {
    if tags == [] then Supply(Carried(prefix, keys, all, parent), 0)
    else
      var n := |tags| - 1;
      var s := SupplyAfter(prefix, keys, all, tags[..n], parent);
      if RefUnder(prefix, keys, tags[n], ComObjectRef, parent) && Kept(prefix, keys, tags[n]).None? then
        var m := NextFree(s.used, s.last);
        Supply(s.used + {m}, m)
      else s
  }

  /** The new suffix of a reference at position `i`. */
  function NewSuffix(prefix: string, tags: seq<Tag>, i: nat): string
    requires i < |tags| && IsRef(prefix, tags[i])
    requires ParentOf(Id(prefix, tags[i]), Parents(prefix, tags).Keys).Some?
  {
    var keys := Parents(prefix, tags).Keys;
    var parent := ParentOf(Id(prefix, tags[i]), keys).value;
    if tags[i].name == ParameterRef then
      var indexes := Indexes(prefix, tags);
      Digits(if parent in indexes then indexes[parent] else 0)
      + TwoDigits(Instances(prefix, keys, tags[..i + 1], parent))
    else
      match Kept(prefix, keys, tags[i])
      case Some(n) => Digits(n)
      case None => Digits(SupplyAfter(prefix, keys, tags, tags[..i + 1], parent).last)
  }

  /** What the reference at position `i` is renamed to. */
  function NewRef(prefix: string, tags: seq<Tag>, i: nat): string
    requires i < |tags| && IsRef(prefix, tags[i])
    requires ParentOf(Id(prefix, tags[i]), Parents(prefix, tags).Keys).Some?
  {
    var parents := Parents(prefix, tags);
    parents[ParentOf(Id(prefix, tags[i]), parents.Keys).value] + BOUNDARY + NewSuffix(prefix, tags, i)
  }

  /** The entry of the reference at position `i`. */
  function RefEntry(prefix: string, tags: seq<Tag>, i: nat): Option<(string, string)>
    requires i < |tags|
  {
    if IsRef(prefix, tags[i]) && ParentOf(Id(prefix, tags[i]), Parents(prefix, tags).Keys).Some? then
      Some((Id(prefix, tags[i]), NewRef(prefix, tags, i)))
    else None
  }

  function RefEntries(prefix: string, tags: seq<Tag>): seq<Option<(string, string)>> {
    seq(|tags|, i requires 0 <= i < |tags| => RefEntry(prefix, tags, i))
  }

  /** The map after both passes. */
  function Renaming(prefix: string, tags: seq<Tag>): map<string, string> {
    Inserted(Parents(prefix, tags), RefEntries(prefix, tags))
  }

  /** The first fault of a pass. */
  function FirstFault(faults: seq<Option<Fault>>): Option<Fault> {
    if faults == [] then None else if faults[0].Some? then faults[0] else FirstFault(faults[1..])
  }

  function DeclarationFaults(prefix: string, tags: seq<Tag>): seq<Option<Fault>> {
    seq(|tags|, i requires 0 <= i < |tags| => DeclarationFault(prefix, tags[i]))
  }

  function RefFaults(prefix: string, tags: seq<Tag>): seq<Option<Fault>> {
    seq(|tags|, i requires 0 <= i < |tags| => RefFaultAt(prefix, tags, i))
  }

  function RefFaultAt(prefix: string, tags: seq<Tag>, i: nat): Option<Fault>
    requires i < |tags|
  {
    RefFault(prefix, Parents(prefix, tags).Keys, Indexes(prefix, tags).Keys, tags[i])
  }

  /** The map, or the first thing that is wrong. */
  function Built(prefix: string, tags: seq<Tag>): Result<map<string, string>, Fault> {
    match FirstFault(DeclarationFaults(prefix, tags))
    case Some(f) => Err(f)
    case None =>
      match FirstFault(RefFaults(prefix, tags))
      case Some(f) => Err(f)
      case None => Ok(Renaming(prefix, tags))
  }
}
