/**
 The exact condition for moving siblings, on the octets they end up as: wherever the keys of two
 siblings that are sorted compare equal, it makes no difference which of them is written first.
 */
module SiblingOctets {
  import opened Basics
  import opened Collation
  import opened SiblingOrder
  import opened Siblings

  /** Written in either order, the octets are the same. */
  predicate Commute(a: Octets, b: Octets) {
    a + b == b + a
  }

  /** Free siblings whose keys compare equal can be written in either order. */
  predicate EqualKeysCommute(gens: seq<Generated>, isUpper: char -> bool) {
    forall i, j :: 0 <= i < j < |gens| && IsFree(gens[i]) && IsFree(gens[j])
                   && CmpInvariant(gens[i].key.value, gens[j].key.value, isUpper) == Equal
                   ==> Commute(gens[i].bytes, gens[j].bytes)
  }

  lemma AlikeCommute(gens: seq<Generated>, isUpper: char -> bool)
    requires EqualKeysAlike(gens, isUpper)
    ensures EqualKeysCommute(gens, isUpper)
  {
  }

  // ── Octets of marks ─────────────────────────────────────────────

  function Concat(blocks: seq<Octets>): Octets {
    if blocks == [] then [] else blocks[0] + Concat(blocks[1..])
  }

  lemma {:induction false} ConcatApart(a: seq<Octets>, b: seq<Octets>)
    ensures Concat(a + b) == Concat(a) + Concat(b)
  {
    if a == [] {
      EmptyIsUnit(b);
      EmptyIsUnit(Concat(b));
    } else {
      ConcatApart(a[1..], b);
      assert (a + b)[1..] == a[1..] + b;
      Associative(a[0], Concat(a[1..]), Concat(b));
    }
  }

  lemma ConcatOne(x: Octets)
    ensures Concat([x]) == x
  {
    EmptyIsUnit(x);
  }

  lemma ConcatFirst(x: Octets, rest: seq<Octets>)
    ensures Concat([x] + rest) == x + Concat(rest)
  {
    assert ([x] + rest)[1..] == rest;
  }

  /** A block that commutes with all blocks before it can be written first. */
  lemma {:induction false} WrittenFirst(blocks: seq<Octets>, j: nat)
    requires j < |blocks| && forall i :: 0 <= i < j ==> Commute(blocks[i], blocks[j])
    ensures Concat(blocks) == blocks[j] + Concat(blocks[..j] + blocks[j + 1..])
  {
    if j == 0 {
      EmptyIsUnit(blocks[1..]);
    } else {
      var first, rest := blocks[0], blocks[1..];
      WrittenFirst(rest, j - 1);
      assert blocks[..j] + blocks[j + 1..] == [first] + (rest[..j - 1] + rest[j..]);
      ConcatFirst(first, rest[..j - 1] + rest[j..]);
      Associative(first, blocks[j], Concat(rest[..j - 1] + rest[j..]));
      Associative(blocks[j], first, Concat(rest[..j - 1] + rest[j..]));
    }
  }

  // ── Enough ──────────────────────────────────────────────────────

  /** Entries of one rank can be written in either order. */
  ghost predicate RankedCommute(s: seq<Entry>, isUpper: char -> bool) {
    forall e, f :: e in s && f in s && RankOf(e.key, isUpper) == RankOf(f.key, isUpper) ==> Commute(e.bytes, f.bytes)
  }

  lemma MarkFrom(a: seq<Entry>, b: seq<Entry>, i: nat, isUpper: char -> bool) returns (x: nat)
    requires multiset(Marks(a, isUpper)) == multiset(Marks(b, isUpper)) && i < |b|
    ensures x < |a| && Mark(a[x], isUpper) == Mark(b[i], isUpper)
  {
    assert Marks(b, isUpper)[i] in multiset(Marks(a, isUpper));
    x :| 0 <= x < |a| && Marks(a, isUpper)[x] == Mark(b[i], isUpper);
  }

  /** Whatever stands in `b` before the first entry of `a` has its rank, and commutes with it. */
  lemma BeforeFirst(a: seq<Entry>, b: seq<Entry>, i: nat, j: nat, isUpper: char -> bool)
    requires a != [] && InOrder(a, isUpper) && InOrder(b, isUpper) && RankedCommute(a, isUpper)
    requires multiset(Marks(a, isUpper)) == multiset(Marks(b, isUpper))
    requires i < j < |b| && Mark(b[j], isUpper) == Mark(a[0], isUpper)
    ensures Commute(b[i].bytes, b[j].bytes)
  {
    var x := MarkFrom(a, b, i, isUpper);
    LeastIsFixed(a[0].key, a[x].key, b[i].key, b[j].key, isUpper);
    assert a[x] in a && a[0] in a;
  }

  lemma WithoutKeepsOrder(s: seq<Entry>, j: nat, isUpper: char -> bool)
    requires InOrder(s, isUpper) && j < |s|
    ensures InOrder(s[..j] + s[j + 1..], isUpper)
  {
    var r := s[..j] + s[j + 1..];
    forall x, y | 0 <= x < y < |r| ensures AtMost(r[x].key, r[y].key, isUpper) {
      var x', y' := if x < j then x else x + 1, if y < j then y else y + 1;
      assert r[x] == s[x'] && r[y] == s[y'];
    }
  }

  lemma MarksWithout(s: seq<Entry>, j: nat, isUpper: char -> bool)
    requires j < |s|
    ensures multiset(Marks(s[..j] + s[j + 1..], isUpper)) == multiset(Marks(s, isUpper)) - multiset{Mark(s[j], isUpper)}
  {
    var t := Marks(s, isUpper);
    Without(t, j);
    assert Marks(s[..j] + s[j + 1..], isUpper) == t[..j] + t[j + 1..];
  }

  lemma FirstIsWritten(a: seq<Entry>, b: seq<Entry>, j: nat, isUpper: char -> bool)
    requires a != [] && InOrder(a, isUpper) && InOrder(b, isUpper) && RankedCommute(a, isUpper)
    requires multiset(Marks(a, isUpper)) == multiset(Marks(b, isUpper))
    requires j < |b| && Mark(b[j], isUpper) == Mark(a[0], isUpper)
    ensures Concat(BytesOf(b)) == a[0].bytes + Concat(BytesOf(b[..j] + b[j + 1..]))
  {
    forall i | 0 <= i < j ensures Commute(BytesOf(b)[i], BytesOf(b)[j]) {
      BeforeFirst(a, b, i, j, isUpper);
    }
    WrittenFirst(BytesOf(b), j);
    assert BytesOf(b[..j] + b[j + 1..]) == BytesOf(b)[..j] + BytesOf(b)[j + 1..];
  }

  /** There is one result of putting entries in order, where those of one rank commute. */
  lemma {:induction false} OctetsAreUnique(a: seq<Entry>, b: seq<Entry>, isUpper: char -> bool)
    requires InOrder(a, isUpper) && InOrder(b, isUpper) && RankedCommute(a, isUpper)
    requires multiset(Marks(a, isUpper)) == multiset(Marks(b, isUpper))
    ensures Concat(BytesOf(a)) == Concat(BytesOf(b))
  {
    SameEmpty(Marks(a, isUpper), Marks(b, isUpper));
    if a != [] {
      var j := MarkFrom(b, a, 0, isUpper);
      var rest := b[..j] + b[j + 1..];
      FirstIsWritten(a, b, j, isUpper);
      OtherMarks(a, isUpper);
      MarksWithout(b, j, isUpper);
      WithoutKeepsOrder(b, j, isUpper);
      RestIsInOrder(a, isUpper);
      OctetsAreUnique(a[1..], rest, isUpper);
      OctetsOfFirst(a);
    }
  }

  lemma RestIsInOrder(a: seq<Entry>, isUpper: char -> bool)
    requires a != [] && InOrder(a, isUpper) && RankedCommute(a, isUpper)
    ensures InOrder(a[1..], isUpper) && RankedCommute(a[1..], isUpper)
  {
  }

  lemma OctetsOfFirst(a: seq<Entry>)
    requires a != []
    ensures Concat(BytesOf(a)) == a[0].bytes + Concat(BytesOf(a[1..]))
  {
    assert BytesOf(a) == [a[0].bytes] + BytesOf(a[1..]);
    ConcatFirst(a[0].bytes, BytesOf(a[1..]));
  }

  lemma CommuteByRank(gens: seq<Generated>, isUpper: char -> bool)
    requires EqualKeysCommute(gens, isUpper)
    ensures RankedCommute(StableSorted(FreeEntries(gens), isUpper), isUpper)
  {
    var s := StableSorted(FreeEntries(gens), isUpper);
    SortedIs(FreeEntries(gens), isUpper);
    forall e, f | e in s && f in s && RankOf(e.key, isUpper) == RankOf(f.key, isUpper) ensures Commute(e.bytes, f.bytes) {
      assert e in multiset(FreeEntries(gens)) && f in multiset(FreeEntries(gens));
      var i := FreeEntryFrom(gens, e);
      var j := FreeEntryFrom(gens, f);
      EqualExactlyWhen(e.key, f.key, isUpper);
      EqualExactlyWhen(f.key, e.key, isUpper);
      assert i < j || i == j || j < i;
    }
  }

  lemma OctetsApart(gens: seq<Generated>, isUpper: char -> bool)
    ensures Concat(Blocks(gens, isUpper))
         == Concat(GenBytes(Picked(gens, IsOrdered))) + Concat(BytesOf(StableSorted(FreeEntries(gens), isUpper)))
  {
    BlocksApart(gens, isUpper);
    ConcatApart(GenBytes(Picked(gens, IsOrdered)), BytesOf(StableSorted(FreeEntries(gens), isUpper)));
  }

  /** Reordering keeps the octets, where free siblings with equal keys commute. */
  lemma MovingKeepsOctets(p: seq<nat>, gens: seq<Generated>, isUpper: char -> bool)
    requires Reorders(p, gens) && EqualKeysCommute(gens, isUpper)
    ensures Concat(Blocks(Permuted(p, gens), isUpper)) == Concat(Blocks(gens, isUpper))
  {
    var moved := Permuted(p, gens);
    var a, b := FreeEntries(gens), FreeEntries(moved);
    OrderedStay(p, gens);
    FreeEntriesAlike(p, gens);
    CommuteByRank(gens, isUpper);
    MarksOfSorted(a, b, isUpper);
    SortedIs(a, isUpper);
    SortedIs(b, isUpper);
    OctetsAreUnique(StableSorted(a, isUpper), StableSorted(b, isUpper), isUpper);
    OctetsApart(gens, isUpper);
    OctetsApart(moved, isUpper);
  }

  // ── Needed ──────────────────────────────────────────────────────

  lemma SameComparison(x: SortKey, y: SortKey, e: SortKey, isUpper: char -> bool)
    requires RankOf(x, isUpper) == RankOf(y, isUpper)
    ensures AtMost(x, e, isUpper) <==> AtMost(y, e, isUpper)
  {
    EqualExactlyWhen(x, y, isUpper);
    EqualExactlyWhen(y, x, isUpper);
    if AtMost(x, e, isUpper) {
      KeysTransitive(y, x, e, isUpper);
    }
    if AtMost(y, e, isUpper) {
      KeysTransitive(x, y, e, isUpper);
    }
  }

  lemma InsertLast(s: seq<Entry>, x: Entry, e: Entry, isUpper: char -> bool)
    ensures Insert(s + [x], e, isUpper)
         == if AtMost(x.key, e.key, isUpper) then s + [x] + [e] else Insert(s, e, isUpper) + [x]
  {
    assert (s + [x])[..|s|] == s;
  }

  /** Nothing is inserted between two entries of one rank, whichever of them comes first. */
  lemma {:induction false} InsertAround(a: seq<Entry>, x: Entry, y: Entry, b: seq<Entry>, e: Entry, isUpper: char -> bool)
    returns (a': seq<Entry>, b': seq<Entry>)
    requires RankOf(x.key, isUpper) == RankOf(y.key, isUpper)
    ensures Insert(a + [x] + [y] + b, e, isUpper) == a' + [x] + [y] + b'
    ensures Insert(a + [y] + [x] + b, e, isUpper) == a' + [y] + [x] + b'
    decreases |b|
  {
    if b == [] {
      SameComparison(x.key, y.key, e.key, isUpper);
      EmptyIsUnit(a + [x] + [y]);
      EmptyIsUnit(a + [y] + [x]);
      InsertLast(a + [x], y, e, isUpper);
      InsertLast(a + [y], x, e, isUpper);
      if AtMost(x.key, e.key, isUpper) {
        a', b' := a, [e];
      } else {
        InsertLast(a, x, e, isUpper);
        InsertLast(a, y, e, isUpper);
        a', b' := Insert(a, e, isUpper), [];
        EmptyIsUnit(a' + [x] + [y]);
        EmptyIsUnit(a' + [y] + [x]);
      }
    } else {
      var init, last := b[..|b| - 1], b[|b| - 1];
      LastApart(a + [x] + [y], b);
      LastApart(a + [y] + [x], b);
      InsertLast(a + [x] + [y] + init, last, e, isUpper);
      InsertLast(a + [y] + [x] + init, last, e, isUpper);
      if AtMost(last.key, e.key, isUpper) {
        a', b' := a, b + [e];
        Associative(a + [x] + [y], b, [e]);
        Associative(a + [y] + [x], b, [e]);
      } else {
        var c;
        a', c := InsertAround(a, x, y, init, e, isUpper);
        b' := c + [last];
        Associative(a' + [x] + [y], c, [last]);
        Associative(a' + [y] + [x], c, [last]);
      }
    }
  }

  /** Two entries of one rank that come first stay together, in their order. */
  lemma {:induction false} SortedAround(x: Entry, y: Entry, r: seq<Entry>, isUpper: char -> bool)
    returns (a: seq<Entry>, b: seq<Entry>)
    requires RankOf(x.key, isUpper) == RankOf(y.key, isUpper)
    ensures StableSorted([x, y] + r, isUpper) == a + [x] + [y] + b
    ensures StableSorted([y, x] + r, isUpper) == a + [y] + [x] + b
  {
    if r == [] {
      SortedPair(x, y, isUpper);
      SortedPair(y, x, isUpper);
      a, b := [], [];
      assert [x, y] + r == [x, y] && [y, x] + r == [y, x];
    } else {
      var init, last := r[..|r| - 1], r[|r| - 1];
      var c, d := SortedAround(x, y, init, isUpper);
      LastApart([x, y], r);
      LastApart([y, x], r);
      SortedLast([x, y] + init, last, isUpper);
      SortedLast([y, x] + init, last, isUpper);
      a, b := InsertAround(c, x, y, d, last, isUpper);
    }
  }

  lemma SortedPair(x: Entry, y: Entry, isUpper: char -> bool)
    requires RankOf(x.key, isUpper) == RankOf(y.key, isUpper)
    ensures StableSorted([x, y], isUpper) == [x, y]
  {
    EqualExactlyWhen(x.key, y.key, isUpper);
    assert [x, y][..1] == [x] && [x][..0] == [];
    assert StableSorted([x], isUpper) == [x];
  }

  /** All positions but two. */
  function Others(n: nat, low: nat, high: nat): seq<nat>
    requires low < high < n
  {
    Identity(n)[..low] + Identity(n)[low + 1..high] + Identity(n)[high + 1..]
  }

  /** Two siblings, which are free, in front of the others. */
  function InFront(n: nat, i: nat, j: nat): seq<nat>
    requires i < n && j < n && i != j
  {
    [i, j] + Others(n, if i < j then i else j, if i < j then j else i)
  }

  lemma Rearranged(a: seq<nat>, x: nat, b: seq<nat>, y: nat, c: seq<nat>)
    ensures multiset([x, y] + (a + b + c)) == multiset(a + [x] + b + [y] + c)
    ensures multiset([y, x] + (a + b + c)) == multiset(a + [x] + b + [y] + c)
  {
  }

  lemma AllButTwo(n: nat, low: nat, high: nat)
    requires low < high < n
    ensures IsPermutation([low, high] + Others(n, low, high), n)
    ensures IsPermutation([high, low] + Others(n, low, high), n)
  {
    var id := Identity(n);
    Rearranged(id[..low], low, id[low + 1..high], high, id[high + 1..]);
    assert id == id[..low] + [low] + id[low + 1..high] + [high] + id[high + 1..];
  }

  lemma OthersAscend(n: nat, low: nat, high: nat)
    requires low < high < n
    ensures Ascending(Others(n, low, high))
  {
    var others := Others(n, low, high);
    assert |others| == n - 2;
    forall k | 0 <= k < n - 2 ensures others[k] == if k < low then k else if k < high - 1 then k + 1 else k + 2 {
    }
  }

  lemma TwoFreeInFront(gens: seq<Generated>, x: nat, y: nat, others: seq<nat>)
    requires x < |gens| && y < |gens| && IsFree(gens[x]) && IsFree(gens[y]) && Ascending(others)
    ensures KeepsOrder([x, y] + others, gens)
  {
    var p := [x, y] + others;
    forall a, b | 0 <= a < b < |p| && Nth(gens, p[a]).ordered && Nth(gens, p[b]).ordered ensures p[a] < p[b] {
      assert p[0] == x && p[1] == y;
      assert a >= 2 && p[a] == others[a - 2] && p[b] == others[b - 2];
    }
  }

  lemma InFrontReorders(gens: seq<Generated>, i: nat, j: nat)
    requires i < |gens| && j < |gens| && i != j && IsFree(gens[i]) && IsFree(gens[j])
    ensures Reorders(InFront(|gens|, i, j), gens)
  {
    var low, high := if i < j then i else j, if i < j then j else i;
    AllButTwo(|gens|, low, high);
    OthersAscend(|gens|, low, high);
    TwoFreeInFront(gens, i, j, Others(|gens|, low, high));
  }

  lemma MappedApart<T, U>(a: seq<T>, b: seq<T>, f: T -> U)
    ensures Mapped(a + b, f) == Mapped(a, f) + Mapped(b, f)
  {
  }

  lemma PermutedApart(gens: seq<Generated>, a: seq<nat>, b: seq<nat>)
    ensures Permuted(a + b, gens) == Permuted(a, gens) + Permuted(b, gens)
  {
  }

  lemma FreeEntriesApart(a: seq<Generated>, b: seq<Generated>)
    ensures FreeEntries(a + b) == FreeEntries(a) + FreeEntries(b)
  {
    PickedApart(a, b, IsFree);
    MappedApart(Picked(a, IsFree), Picked(b, IsFree), FreeEntry);
  }

  /** The free entries, when two free siblings come first. */
  lemma FreeInFront(gens: seq<Generated>, i: nat, j: nat, others: seq<nat>)
    requires i < |gens| && j < |gens| && IsFree(gens[i]) && IsFree(gens[j])
    ensures FreeEntries(Permuted([i, j] + others, gens))
         == [FreeEntry(gens[i]), FreeEntry(gens[j])] + FreeEntries(Permuted(others, gens))
  {
    PermutedApart(gens, [i, j], others);
    assert Permuted([i, j], gens) == [gens[i], gens[j]];
    FreeEntriesApart([gens[i], gens[j]], Permuted(others, gens));
    FreePair(gens[i], gens[j]);
  }

  lemma FreePair(g: Generated, h: Generated)
    requires IsFree(g) && IsFree(h)
    ensures FreeEntries([g, h]) == [FreeEntry(g), FreeEntry(h)]
  {
    PickedPair(g, h);
  }

  lemma PickedPair(g: Generated, h: Generated)
    requires IsFree(g) && IsFree(h)
    ensures Picked([g, h], IsFree) == [g, h]
  {
    assert [g, h] == [g] + [h];
    PickedApart([g], [h], IsFree);
    PickedOne(g, IsFree);
    PickedOne(h, IsFree);
  }

  lemma OctetsAround(a: seq<Entry>, x: Entry, y: Entry, b: seq<Entry>)
    ensures Concat(BytesOf(a + [x] + [y] + b))
         == Concat(BytesOf(a)) + (x.bytes + y.bytes) + Concat(BytesOf(b))
  {
    assert BytesOf(a + [x] + [y] + b) == BytesOf(a) + ([x.bytes] + [y.bytes]) + BytesOf(b);
    ConcatApart(BytesOf(a) + ([x.bytes] + [y.bytes]), BytesOf(b));
    ConcatApart(BytesOf(a), [x.bytes] + [y.bytes]);
    ConcatFirst(x.bytes, [y.bytes]);
    ConcatOne(y.bytes);
  }

  lemma DiffersBetween(start: Octets, a: Octets, u: Octets, v: Octets, b: Octets)
    requires |u| == |v| && u != v
    ensures start + (a + u + b) != start + (a + v + b)
  {
    var s, t := start + (a + u + b), start + (a + v + b);
    var n := |start| + |a|;
    assert s[n..n + |u|] == u && t[n..n + |v|] == v;
  }

  /** Which of two free siblings with equal keys comes first shows, unless they commute. */
  lemma FrontShows(gens: seq<Generated>, i: nat, j: nat, isUpper: char -> bool)
    requires i < |gens| && j < |gens| && i != j && IsFree(gens[i]) && IsFree(gens[j])
    requires CmpInvariant(gens[i].key.value, gens[j].key.value, isUpper) == Equal
    requires !Commute(gens[i].bytes, gens[j].bytes)
    ensures Concat(Blocks(Permuted(InFront(|gens|, i, j), gens), isUpper))
         != Concat(Blocks(Permuted(InFront(|gens|, j, i), gens), isUpper))
  {
    var low, high := if i < j then i else j, if i < j then j else i;
    var others := Others(|gens|, low, high);
    var x, y := FreeEntry(gens[i]), FreeEntry(gens[j]);
    EqualExactlyWhen(x.key, y.key, isUpper);
    InFrontReorders(gens, i, j);
    InFrontReorders(gens, j, i);
    FreeInFront(gens, i, j, others);
    FreeInFront(gens, j, i, others);
    TwoFronts(gens, InFront(|gens|, i, j), InFront(|gens|, j, i), x, y, FreeEntries(Permuted(others, gens)), isUpper);
  }

  lemma TwoFronts(gens: seq<Generated>, p: seq<nat>, q: seq<nat>, x: Entry, y: Entry, r: seq<Entry>, isUpper: char -> bool)
    requires Reorders(p, gens) && FreeEntries(Permuted(p, gens)) == [x, y] + r
    requires Reorders(q, gens) && FreeEntries(Permuted(q, gens)) == [y, x] + r
    requires RankOf(x.key, isUpper) == RankOf(y.key, isUpper) && !Commute(x.bytes, y.bytes)
    ensures Concat(Blocks(Permuted(p, gens), isUpper)) != Concat(Blocks(Permuted(q, gens), isUpper))
  {
    var a, b := SortedAround(x, y, r, isUpper);
    FrontOctets(gens, p, a, x, y, b, isUpper);
    FrontOctets(gens, q, a, y, x, b, isUpper);
    DiffersBetween(Concat(GenBytes(Picked(gens, IsOrdered))), Concat(BytesOf(a)), x.bytes + y.bytes, y.bytes + x.bytes,
                   Concat(BytesOf(b)));
  }

  lemma FrontOctets(gens: seq<Generated>, p: seq<nat>, a: seq<Entry>, x: Entry, y: Entry, b: seq<Entry>,
                    isUpper: char -> bool)
    requires Reorders(p, gens) && StableSorted(FreeEntries(Permuted(p, gens)), isUpper) == a + [x] + [y] + b
    ensures Concat(Blocks(Permuted(p, gens), isUpper))
         == Concat(GenBytes(Picked(gens, IsOrdered)))
            + (Concat(BytesOf(a)) + (x.bytes + y.bytes) + Concat(BytesOf(b)))
  {
    OrderedStay(p, gens);
    OctetsApart(Permuted(p, gens), isUpper);
    OctetsAround(a, x, y, b);
  }

  /** A reordering that changes the octets, if two free siblings with equal keys do not commute. */
  lemma AReorderingShows(gens: seq<Generated>, isUpper: char -> bool) returns (p: seq<nat>)
    requires !EqualKeysCommute(gens, isUpper)
    ensures Reorders(p, gens) && Concat(Blocks(Permuted(p, gens), isUpper)) != Concat(Blocks(gens, isUpper))
  {
    var i, j :| 0 <= i < j < |gens| && IsFree(gens[i]) && IsFree(gens[j])
                && CmpInvariant(gens[i].key.value, gens[j].key.value, isUpper) == Equal
                && !Commute(gens[i].bytes, gens[j].bytes);
    FrontShows(gens, i, j, isUpper);
    InFrontReorders(gens, i, j);
    InFrontReorders(gens, j, i);
    p := InFront(|gens|, i, j);
    if Concat(Blocks(Permuted(p, gens), isUpper)) == Concat(Blocks(gens, isUpper)) {
      p := InFront(|gens|, j, i);
    }
  }

  /**
   The octets of siblings stay the same under every reordering that keeps those whose order is
   relevant in their order, exactly if the others commute wherever their keys compare equal.
   */
  lemma OctetsKeptExactlyWhen(gens: seq<Generated>, isUpper: char -> bool)
    ensures (forall p :: Reorders(p, gens) ==> Concat(Blocks(Permuted(p, gens), isUpper)) == Concat(Blocks(gens, isUpper)))
            <==> EqualKeysCommute(gens, isUpper)
  {
    if EqualKeysCommute(gens, isUpper) {
      forall p | Reorders(p, gens)
        ensures Concat(Blocks(Permuted(p, gens), isUpper)) == Concat(Blocks(gens, isUpper))
      {
        MovingKeepsOctets(p, gens, isUpper);
      }
    } else {
      var p := AReorderingShows(gens, isUpper);
    }
  }
}
