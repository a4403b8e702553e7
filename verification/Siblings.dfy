/**
 What siblings contribute to the serialized program, and when they may be moved: the octets stay
 the same under every reordering that keeps those whose order is relevant in their order, exactly
 if siblings whose keys compare equal have equal octets.
 */
module Siblings {
  import opened Basics
  import opened Collation
  import opened SiblingOrder

  /** What an element contributes: its octets, its key, and whether its order is relevant. */
  datatype Generated = Generated(bytes: Octets, key: Option<string>, ordered: bool)

  predicate IsOrdered(g: Generated) {
    g.key.Some? && g.ordered
  }

  predicate IsFree(g: Generated) {
    g.key.Some? && !g.ordered
  }

  function OrderedCount(gens: seq<Generated>): nat {
    if gens == [] then 0
    else OrderedCount(gens[..|gens| - 1]) + if IsOrdered(gens[|gens| - 1]) then 1 else 0
  }

  /** An element without a key is left out. */
  function EntryOf(g: Generated, count: nat): seq<Entry> {
    match g.key
    case None => []
    case Some(key) => [Entry(if g.ordered then Ordered(count) else Sorted(key), g.bytes)]
  }

  function Entries(gens: seq<Generated>): seq<Entry> {
    if gens == [] then []
    else
      var n := |gens| - 1;
      Entries(gens[..n]) + EntryOf(gens[n], OrderedCount(gens[..n]))
  }

  function BytesOf(s: seq<Entry>): seq<Octets> {
    Mapped(s, (e: Entry) => e.bytes)
  }

  /** The octets of the siblings, one block each, in the order they are written. */
  function Blocks(gens: seq<Generated>, isUpper: char -> bool): seq<Octets> {
    BytesOf(StableSorted(Entries(gens), isUpper))
  }

  // ── Ordered siblings first, the others sorted behind them ───────

  function OrderedEntries(gens: seq<Generated>): seq<Entry> {
    if gens == [] then []
    else
      var n := |gens| - 1;
      OrderedEntries(gens[..n]) + (if IsOrdered(gens[n]) then EntryOf(gens[n], OrderedCount(gens[..n])) else [])
  }

  function FreeEntry(g: Generated): Entry {
    Entry(Sorted(if g.key.Some? then g.key.value else ""), g.bytes)
  }

  function FreeEntries(gens: seq<Generated>): seq<Entry> {
    Mapped(Picked(gens, IsFree), FreeEntry)
  }

  lemma {:induction false} InsertBetween(a: seq<Entry>, b: seq<Entry>, e: Entry, isUpper: char -> bool)
    requires forall i :: 0 <= i < |a| ==> AtMost(a[i].key, e.key, isUpper)
    requires forall i :: 0 <= i < |b| ==> !AtMost(b[i].key, e.key, isUpper)
    ensures Insert(a + b, e, isUpper) == a + [e] + b
  {
    if b == [] {
      EmptyIsUnit(a);
      EmptyIsUnit(a + [e]);
    } else {
      LastApart(a, b);
      InsertBetween(a, b[..|b| - 1], e, isUpper);
      LastApart(a + [e], b);
      assert (a + b)[..|a + b| - 1] == a + b[..|b| - 1];
    }
  }

  lemma {:induction false} InsertBehind(a: seq<Entry>, b: seq<Entry>, e: Entry, isUpper: char -> bool)
    requires forall i :: 0 <= i < |a| ==> AtMost(a[i].key, e.key, isUpper)
    ensures Insert(a + b, e, isUpper) == a + Insert(b, e, isUpper)
  {
    if b == [] {
      EmptyIsUnit(a);
    } else if AtMost(b[|b| - 1].key, e.key, isUpper) {
      Associative(a, b, [e]);
    } else {
      LastApart(a, b);
      InsertBehind(a, b[..|b| - 1], e, isUpper);
      Associative(a, Insert(b[..|b| - 1], e, isUpper), [b[|b| - 1]]);
      assert (a + b)[..|a + b| - 1] == a + b[..|b| - 1];
    }
  }

  lemma {:induction false} OrderedAreCounted(gens: seq<Generated>)
    ensures forall i :: 0 <= i < |OrderedEntries(gens)| ==>
              && OrderedEntries(gens)[i].key.Ordered?
              && OrderedEntries(gens)[i].key.position < OrderedCount(gens)
  {
    if gens != [] {
      OrderedAreCounted(gens[..|gens| - 1]);
    }
  }

  lemma FreeAreSorted(gens: seq<Generated>, isUpper: char -> bool)
    ensures forall i :: 0 <= i < |FreeEntries(gens)| ==> StableSorted(FreeEntries(gens), isUpper)[i].key.Sorted?
  {
    var s := FreeEntries(gens);
    SortedIs(s, isUpper);
    forall i | 0 <= i < |s| ensures StableSorted(s, isUpper)[i].key.Sorted? {
      assert StableSorted(s, isUpper)[i] in multiset(s);
      var j := FreeEntryFrom(gens, StableSorted(s, isUpper)[i]);
    }
  }

  lemma FreeEntriesLast(gens: seq<Generated>)
    requires gens != []
    ensures var n := |gens| - 1;
            FreeEntries(gens) == FreeEntries(gens[..n]) + if IsFree(gens[n]) then [FreeEntry(gens[n])] else []
  {
  }

  lemma SortedLast(s: seq<Entry>, e: Entry, isUpper: char -> bool)
    ensures StableSorted(s + [e], isUpper) == Insert(StableSorted(s, isUpper), e, isUpper)
  {
    assert (s + [e])[..|s|] == s;
  }

  lemma {:induction false} SortedApart(gens: seq<Generated>, isUpper: char -> bool)
    ensures StableSorted(Entries(gens), isUpper) == OrderedEntries(gens) + StableSorted(FreeEntries(gens), isUpper)
  {
    if gens != [] {
      var n := |gens| - 1;
      SortedApart(gens[..n], isUpper);
      if gens[n].key.None? {
        EmptyIsUnit(Entries(gens[..n]));
      } else {
        SortedLast(Entries(gens[..n]), EntryOf(gens[n], OrderedCount(gens[..n]))[0], isUpper);
      }
      OneMoreSibling(gens, isUpper);
    }
  }

  lemma OneMoreSibling(gens: seq<Generated>, isUpper: char -> bool)
    requires gens != []
    ensures var n := |gens| - 1;
            var before := OrderedEntries(gens[..n]) + StableSorted(FreeEntries(gens[..n]), isUpper);
            OrderedEntries(gens) + StableSorted(FreeEntries(gens), isUpper)
            == if gens[n].key.None? then before
               else Insert(before, EntryOf(gens[n], OrderedCount(gens[..n]))[0], isUpper)
  {
    var n := |gens| - 1;
    FreeEntriesLast(gens);
    EmptyIsUnit(FreeEntries(gens[..n]));
    EmptyIsUnit(OrderedEntries(gens[..n]));
    if IsOrdered(gens[n]) {
      OneMoreOrdered(gens[..n], EntryOf(gens[n], OrderedCount(gens[..n]))[0], isUpper);
    } else if IsFree(gens[n]) {
      OneMoreFree(gens[..n], FreeEntry(gens[n]), isUpper);
    }
  }

  lemma OneMoreOrdered(gens: seq<Generated>, e: Entry, isUpper: char -> bool)
    requires e.key == Ordered(OrderedCount(gens))
    ensures var first, free := OrderedEntries(gens), StableSorted(FreeEntries(gens), isUpper);
            Insert(first + free, e, isUpper) == first + [e] + free
  {
    OrderedAreCounted(gens);
    FreeAreSorted(gens, isUpper);
    InsertBetween(OrderedEntries(gens), StableSorted(FreeEntries(gens), isUpper), e, isUpper);
  }

  lemma OneMoreFree(gens: seq<Generated>, e: Entry, isUpper: char -> bool)
    requires e.key.Sorted?
    ensures Insert(OrderedEntries(gens) + StableSorted(FreeEntries(gens), isUpper), e, isUpper)
         == OrderedEntries(gens) + StableSorted(FreeEntries(gens) + [e], isUpper)
  {
    OrderedAreCounted(gens);
    SortedLast(FreeEntries(gens), e, isUpper);
    InsertBehind(OrderedEntries(gens), StableSorted(FreeEntries(gens), isUpper), e, isUpper);
  }

  function GenBytes(gens: seq<Generated>): seq<Octets> {
    Mapped(gens, (g: Generated) => g.bytes)
  }

  lemma {:induction false} OrderedBytes(gens: seq<Generated>)
    ensures BytesOf(OrderedEntries(gens)) == GenBytes(Picked(gens, IsOrdered))
  {
    if gens != [] {
      var n := |gens| - 1;
      var g := gens[n];
      OrderedBytes(gens[..n]);
      BytesApart(OrderedEntries(gens[..n]), EntryOf(g, OrderedCount(gens[..n])));
      GenBytesApart(Picked(gens[..n], IsOrdered), g);
      EmptyIsUnit(OrderedEntries(gens[..n]));
      EmptyIsUnit(Picked(gens[..n], IsOrdered));
    }
  }

  lemma GenBytesApart(gens: seq<Generated>, g: Generated)
    ensures GenBytes(gens + [g]) == GenBytes(gens) + [g.bytes]
  {
  }

  lemma BytesApart(a: seq<Entry>, b: seq<Entry>)
    ensures BytesOf(a + b) == BytesOf(a) + BytesOf(b)
  {
  }

  /** First the ordered siblings in document order, then the others, sorted. */
  lemma BlocksApart(gens: seq<Generated>, isUpper: char -> bool)
    ensures Blocks(gens, isUpper)
         == GenBytes(Picked(gens, IsOrdered)) + BytesOf(StableSorted(FreeEntries(gens), isUpper))
  {
    SortedApart(gens, isUpper);
    OrderedBytes(gens);
    BytesApart(OrderedEntries(gens), StableSorted(FreeEntries(gens), isUpper));
  }

  // ── Reordering ──────────────────────────────────────────────────

  function Identity(n: nat): (p: seq<nat>)
    ensures |p| == n && forall i :: 0 <= i < n ==> p[i] == i
  {
    seq(n, i requires 0 <= i < n => i)
  }

  predicate IsPermutation(p: seq<nat>, n: nat) {
    multiset(p) == multiset(Identity(n))
  }

  /** The sibling at a position. */
  function Nth(gens: seq<Generated>, k: nat): Generated {
    if k < |gens| then gens[k] else Generated([], None, false)
  }

  function Permuted(p: seq<nat>, gens: seq<Generated>): (r: seq<Generated>)
    ensures |r| == |p|
  {
    Mapped(p, (k: nat) => Nth(gens, k))
  }

  /** Siblings whose order is relevant keep their order. */
  predicate KeepsOrder(p: seq<nat>, gens: seq<Generated>) {
    forall i, j :: 0 <= i < j < |p| && Nth(gens, p[i]).ordered && Nth(gens, p[j]).ordered ==> p[i] < p[j]
  }

  predicate Reorders(p: seq<nat>, gens: seq<Generated>) {
    IsPermutation(p, |gens|) && KeepsOrder(p, gens)
  }

  /** Free siblings whose keys compare equal have equal octets. */
  predicate EqualKeysAlike(gens: seq<Generated>, isUpper: char -> bool) {
    forall i, j :: 0 <= i < j < |gens| && IsFree(gens[i]) && IsFree(gens[j])
                   && CmpInvariant(gens[i].key.value, gens[j].key.value, isUpper) == Equal
                   ==> gens[i].bytes == gens[j].bytes
  }

  lemma {:induction false} PickedOfPermuted(p: seq<nat>, gens: seq<Generated>, keep: Generated -> bool, keepAt: nat -> bool)
    requires forall k :: keepAt(k) == keep(Nth(gens, k))
    ensures Picked(Permuted(p, gens), keep) == Permuted(Picked(p, keepAt), gens)
  {
    if p != [] {
      var n := |p| - 1;
      PickedOfPermuted(p[..n], gens, keep, keepAt);
      assert Permuted(p, gens)[..n] == Permuted(p[..n], gens);
    }
  }

  predicate Ascending(p: seq<nat>) {
    forall i, j :: 0 <= i < j < |p| ==> p[i] < p[j]
  }

  lemma {:induction false} PickedIsPart(s: seq<nat>, keep: nat -> bool)
    ensures forall x :: x in Picked(s, keep) ==> x in s && keep(x)
  {
    if s != [] {
      PickedIsPart(s[..|s| - 1], keep);
    }
  }

  lemma {:induction false} PickedAscends(s: seq<nat>, keep: nat -> bool)
    requires forall i, j :: 0 <= i < j < |s| && keep(s[i]) && keep(s[j]) ==> s[i] < s[j]
    ensures Ascending(Picked(s, keep))
  {
    if s != [] {
      var n := |s| - 1;
      var before := Picked(s[..n], keep);
      PickedAscends(s[..n], keep);
      PickedIsPart(s[..n], keep);
      if keep(s[n]) {
        forall k | 0 <= k < |before| ensures before[k] < s[n] {
          assert before[k] in before;
          var i :| 0 <= i < n && s[..n][i] == before[k];
        }
      }
    }
  }

  lemma {:induction false} AscendingIsUnique(a: seq<nat>, b: seq<nat>)
    requires Ascending(a) && Ascending(b) && multiset(a) == multiset(b)
    ensures a == b
  {
    SameEmpty(a, b);
    if a != [] {
      var n := |a| - 1;
      SameGreatest(a, b);
      Without(a, n);
      Without(b, n);
      EmptyIsUnit(a[..n]);
      EmptyIsUnit(b[..n]);
      AscendingIsUnique(a[..n], b[..n]);
      LastApart([], a);
      LastApart([], b);
    }
  }

  lemma SameGreatest(a: seq<nat>, b: seq<nat>)
    requires a != [] && |a| == |b| && Ascending(a) && Ascending(b) && multiset(a) == multiset(b)
    ensures a[|a| - 1] == b[|b| - 1]
  {
    assert a[|a| - 1] in multiset(b) && b[|b| - 1] in multiset(a);
  }

  lemma OrderedStay(p: seq<nat>, gens: seq<Generated>)
    requires Reorders(p, gens)
    ensures Picked(Permuted(p, gens), IsOrdered) == Picked(gens, IsOrdered)
  {
    var id := Identity(|gens|);
    var keep := (k: nat) => IsOrdered(Nth(gens, k));
    assert Permuted(id, gens) == gens;
    PickedOfPermuted(p, gens, IsOrdered, keep);
    PickedOfPermuted(id, gens, IsOrdered, keep);
    PickedAscends(p, keep);
    PickedAscends(id, keep);
    PickedAlike(p, id, keep);
    AscendingIsUnique(Picked(p, keep), Picked(id, keep));
  }

  lemma FreeEntriesAlike(p: seq<nat>, gens: seq<Generated>)
    requires IsPermutation(p, |gens|)
    ensures multiset(FreeEntries(Permuted(p, gens))) == multiset(FreeEntries(gens))
  {
    var id := Identity(|gens|);
    assert Permuted(id, gens) == gens;
    MappedAlike(p, id, (k: nat) => Nth(gens, k));
    PickedAlike(Permuted(p, gens), gens, IsFree);
    MappedAlike(Picked(Permuted(p, gens), IsFree), Picked(gens, IsFree), FreeEntry);
  }

  lemma {:induction false} FreeEntryFrom(gens: seq<Generated>, e: Entry) returns (i: nat)
    requires e in FreeEntries(gens)
    ensures i < |gens| && IsFree(gens[i]) && e == FreeEntry(gens[i])
  {
    var n := |gens| - 1;
    FreeEntriesLast(gens);
    if IsFree(gens[n]) && e == FreeEntry(gens[n]) {
      i := n;
    } else {
      i := FreeEntryFrom(gens[..n], e);
    }
  }

  lemma AlikeByRank(gens: seq<Generated>, isUpper: char -> bool)
    requires EqualKeysAlike(gens, isUpper)
    ensures RankedAlike(StableSorted(FreeEntries(gens), isUpper), isUpper)
  {
    var s := StableSorted(FreeEntries(gens), isUpper);
    SortedIs(FreeEntries(gens), isUpper);
    forall e, f | e in s && f in s && RankOf(e.key, isUpper) == RankOf(f.key, isUpper) ensures e.bytes == f.bytes {
      assert e in multiset(FreeEntries(gens)) && f in multiset(FreeEntries(gens));
      var i := FreeEntryFrom(gens, e);
      var j := FreeEntryFrom(gens, f);
      EqualExactlyWhen(e.key, f.key, isUpper);
      EqualExactlyWhen(f.key, e.key, isUpper);
      assert i < j || i == j || j < i;
    }
  }

  lemma MarksOfSorted(a: seq<Entry>, b: seq<Entry>, isUpper: char -> bool)
    requires multiset(a) == multiset(b)
    ensures multiset(Marks(StableSorted(a, isUpper), isUpper)) == multiset(Marks(StableSorted(b, isUpper), isUpper))
  {
    SortedIs(a, isUpper);
    SortedIs(b, isUpper);
    MappedAlike(StableSorted(a, isUpper), StableSorted(b, isUpper), (e: Entry) => Mark(e, isUpper));
  }

  lemma BytesByMarks(a: seq<Entry>, b: seq<Entry>, isUpper: char -> bool)
    requires Marks(a, isUpper) == Marks(b, isUpper)
    ensures BytesOf(a) == BytesOf(b)
  {
    assert |a| == |Marks(a, isUpper)| == |b|;
    forall i | 0 <= i < |a| ensures a[i].bytes == b[i].bytes {
      assert Marks(a, isUpper)[i] == Marks(b, isUpper)[i];
    }
  }

  /** Reordering keeps the octets, where free siblings with equal keys have equal ones. */
  lemma MovingKeeps(p: seq<nat>, gens: seq<Generated>, isUpper: char -> bool)
    requires Reorders(p, gens) && EqualKeysAlike(gens, isUpper)
    ensures Blocks(Permuted(p, gens), isUpper) == Blocks(gens, isUpper)
  {
    var moved := Permuted(p, gens);
    var a, b := FreeEntries(gens), FreeEntries(moved);
    OrderedStay(p, gens);
    FreeEntriesAlike(p, gens);
    AlikeByRank(gens, isUpper);
    MarksOfSorted(a, b, isUpper);
    SortedIs(a, isUpper);
    SortedIs(b, isUpper);
    OrderIsUnique(StableSorted(a, isUpper), StableSorted(b, isUpper), isUpper);
    BytesByMarks(StableSorted(a, isUpper), StableSorted(b, isUpper), isUpper);
    BlocksApart(gens, isUpper);
    BlocksApart(moved, isUpper);
  }

  // ── When reordering shows ───────────────────────────────────────

  /** The octets of the free siblings of one rank, in order. */
  function FreeOfRank(gens: seq<Generated>, rank: Rank, isUpper: char -> bool): seq<Octets> {
    OfRank(FreeEntries(gens), rank, isUpper)
  }

  lemma FreeOfRankLast(gens: seq<Generated>, g: Generated, rank: Rank, isUpper: char -> bool)
    ensures FreeOfRank(gens + [g], rank, isUpper)
         == FreeOfRank(gens, rank, isUpper)
            + if IsFree(g) && RankOf(FreeEntry(g).key, isUpper) == rank then [g.bytes] else []
  {
    assert (gens + [g])[..|gens|] == gens;
    FreeEntriesLast(gens + [g]);
    if IsFree(g) {
      OfRankLast(FreeEntries(gens), FreeEntry(g), rank, isUpper);
    } else {
      EmptyIsUnit(FreeEntries(gens));
      EmptyIsUnit(FreeOfRank(gens, rank, isUpper));
    }
  }

  /** What stands at the beginning stays there when more siblings follow. */
  lemma {:induction false} FreeOfRankStarts(gens: seq<Generated>, n: nat, rank: Rank, isUpper: char -> bool)
    requires n <= |gens|
    ensures FreeOfRank(gens[..n], rank, isUpper) <= FreeOfRank(gens, rank, isUpper)
  {
    if n == |gens| {
      assert gens[..n] == gens;
    } else {
      var k := |gens| - 1;
      FreeOfRankStarts(gens[..k], n, rank, isUpper);
      assert gens[..k][..n] == gens[..n] && gens == gens[..k] + [gens[k]];
      FreeOfRankLast(gens[..k], gens[k], rank, isUpper);
    }
  }

  /** The next free sibling of a rank stands behind those before it. */
  lemma NextOfRank(gens: seq<Generated>, i: nat, rank: Rank, isUpper: char -> bool)
    requires i < |gens| && IsFree(gens[i]) && RankOf(FreeEntry(gens[i]).key, isUpper) == rank
    ensures var before := FreeOfRank(gens[..i], rank, isUpper);
            && |before| < |FreeOfRank(gens, rank, isUpper)|
            && FreeOfRank(gens, rank, isUpper)[|before|] == gens[i].bytes
  {
    var before := FreeOfRank(gens[..i], rank, isUpper);
    assert gens[..i + 1] == gens[..i] + [gens[i]];
    FreeOfRankLast(gens[..i], gens[i], rank, isUpper);
    FreeOfRankStarts(gens, i + 1, rank, isUpper);
    assert (before + [gens[i].bytes])[|before|] == gens[i].bytes;
  }

  /** Two siblings change places. */
  function Exchange(n: nat, i: nat, j: nat): (p: seq<nat>)
    requires i < j < n
    ensures |p| == n && p[i] == j && p[j] == i && forall k :: 0 <= k < n && k != i && k != j ==> p[k] == k
  {
    Identity(n)[i := j][j := i]
  }

  lemma ExchangeReorders(gens: seq<Generated>, i: nat, j: nat)
    requires i < j < |gens| && IsFree(gens[i]) && IsFree(gens[j])
    ensures Reorders(Exchange(|gens|, i, j), gens)
  {
    var p := Exchange(|gens|, i, j);
    assert IsPermutation(p, |gens|);
    forall a, b | 0 <= a < b < |p| && Nth(gens, p[a]).ordered && Nth(gens, p[b]).ordered ensures p[a] < p[b] {
      assert a != i && a != j && b != i && b != j;
    }
  }

  function Erased(s: seq<Entry>): seq<Entry> {
    Mapped(s, (e: Entry) => Entry(e.key, []))
  }

  function RankAlone(m: (Rank, Octets)): (Rank, Octets) {
    (m.0, [])
  }

  lemma MarksOfErased(s: seq<Entry>, isUpper: char -> bool)
    ensures Marks(Erased(s), isUpper) == Mapped(Marks(s, isUpper), RankAlone)
  {
    forall i | 0 <= i < |s| ensures Marks(Erased(s), isUpper)[i] == RankAlone(Marks(s, isUpper)[i]) {
      assert Erased(s)[i] == Entry(s[i].key, []);
    }
  }

  /** The ranks of sorted entries do not depend on the order they are found in. */
  lemma RanksAreFixed(a: seq<Entry>, b: seq<Entry>, isUpper: char -> bool)
    requires multiset(a) == multiset(b)
    ensures Marks(Erased(StableSorted(a, isUpper)), isUpper) == Marks(Erased(StableSorted(b, isUpper)), isUpper)
  {
    var sa, sb := StableSorted(a, isUpper), StableSorted(b, isUpper);
    SortedIs(a, isUpper);
    SortedIs(b, isUpper);
    MarksOfSorted(a, b, isUpper);
    MarksOfErased(sa, isUpper);
    MarksOfErased(sb, isUpper);
    MappedAlike(Marks(sa, isUpper), Marks(sb, isUpper), RankAlone);
    OrderIsUnique(Erased(sa), Erased(sb), isUpper);
  }

  /** Ranks and octets together are the marks. */
  lemma MarksFromParts(a: seq<Entry>, b: seq<Entry>, isUpper: char -> bool)
    requires Marks(Erased(a), isUpper) == Marks(Erased(b), isUpper) && BytesOf(a) == BytesOf(b)
    ensures Marks(a, isUpper) == Marks(b, isUpper)
  {
    assert |a| == |BytesOf(a)| == |b|;
    forall i | 0 <= i < |a| ensures Mark(a[i], isUpper) == Mark(b[i], isUpper) {
      assert Marks(Erased(a), isUpper)[i] == Marks(Erased(b), isUpper)[i];
      assert BytesOf(a)[i] == BytesOf(b)[i];
    }
  }

  /** Equal octets of siblings that were moved mean that those of one rank are where they were. */
  lemma SameOfRank(p: seq<nat>, gens: seq<Generated>, rank: Rank, isUpper: char -> bool)
    requires Reorders(p, gens) && Blocks(Permuted(p, gens), isUpper) == Blocks(gens, isUpper)
    ensures FreeOfRank(Permuted(p, gens), rank, isUpper) == FreeOfRank(gens, rank, isUpper)
  {
    var moved := Permuted(p, gens);
    var a, b := FreeEntries(gens), FreeEntries(moved);
    var sa, sb := StableSorted(a, isUpper), StableSorted(b, isUpper);
    BlocksApart(gens, isUpper);
    BlocksApart(moved, isUpper);
    OrderedStay(p, gens);
    FreeEntriesAlike(p, gens);
    SameBehind(GenBytes(Picked(gens, IsOrdered)), BytesOf(sa), BytesOf(sb));
    RanksAreFixed(a, b, isUpper);
    MarksFromParts(sa, sb, isUpper);
    OfRankByMarks(sa, sb, rank, isUpper);
    SortingIsStable(a, rank, isUpper);
    SortingIsStable(b, rank, isUpper);
  }

  lemma SameBehind<T>(a: seq<T>, b: seq<T>, c: seq<T>)
    requires a + b == a + c
    ensures b == c
  {
    assert (a + b)[|a|..] == b && (a + c)[|a|..] == c;
  }

  /** Exchanging free siblings with equal keys and different octets changes the octets. */
  lemma ExchangeShows(gens: seq<Generated>, i: nat, j: nat, isUpper: char -> bool)
    requires i < j < |gens| && IsFree(gens[i]) && IsFree(gens[j]) && gens[i].bytes != gens[j].bytes
    requires CmpInvariant(gens[i].key.value, gens[j].key.value, isUpper) == Equal
    ensures Blocks(Permuted(Exchange(|gens|, i, j), gens), isUpper) != Blocks(gens, isUpper)
  {
    var p := Exchange(|gens|, i, j);
    var moved := Permuted(p, gens);
    var rank := RankOf(FreeEntry(gens[i]).key, isUpper);
    EqualExactlyWhen(FreeEntry(gens[i]).key, FreeEntry(gens[j]).key, isUpper);
    ExchangeReorders(gens, i, j);
    NextOfRank(gens, i, rank, isUpper);
    assert moved[..i] == gens[..i] && moved[i] == gens[j];
    NextOfRank(moved, i, rank, isUpper);
    if Blocks(moved, isUpper) == Blocks(gens, isUpper) {
      SameOfRank(p, gens, rank, isUpper);
    }
  }

  /**
   Siblings may be moved in every way that keeps the order of those whose order is relevant, exactly
   if the other ones have equal octets wherever their keys compare equal.
   */
  lemma MovingKeepsExactlyWhen(gens: seq<Generated>, isUpper: char -> bool)
    ensures (forall p :: Reorders(p, gens) ==> Blocks(Permuted(p, gens), isUpper) == Blocks(gens, isUpper))
            <==> EqualKeysAlike(gens, isUpper)
  {
    if EqualKeysAlike(gens, isUpper) {
      forall p | Reorders(p, gens) ensures Blocks(Permuted(p, gens), isUpper) == Blocks(gens, isUpper) {
        MovingKeeps(p, gens, isUpper);
      }
    } else {
      var i, j :| 0 <= i < j < |gens| && IsFree(gens[i]) && IsFree(gens[j])
                  && CmpInvariant(gens[i].key.value, gens[j].key.value, isUpper) == Equal
                  && gens[i].bytes != gens[j].bytes;
      ExchangeReorders(gens, i, j);
      ExchangeShows(gens, i, j, isUpper);
    }
  }
}
