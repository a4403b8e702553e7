/**
 Siblings in the serialized program: those whose order is relevant come first, in document order,
 the others sorted by their keys. Moving siblings around does not change the result, exactly if
 those with equal keys have equal octets.
 */
module SiblingOrder {
  import opened Basics
  import opened Collation

  // ── Lists ───────────────────────────────────────────────────────

  function Picked<T>(s: seq<T>, keep: T -> bool): seq<T> {
    if s == [] then []
    else
      var n := |s| - 1;
      Picked(s[..n], keep) + (if keep(s[n]) then [s[n]] else [])
  }

  function Mapped<T, U>(s: seq<T>, f: T -> U): (r: seq<U>)
    ensures |r| == |s|
  {
    seq(|s|, i requires 0 <= i < |s| => f(s[i]))
  }

  lemma Around<T>(s: seq<T>, k: nat)
    requires k < |s|
    ensures s == s[..k] + [s[k]] + s[k + 1..]
  {
  }

  lemma Without<T>(s: seq<T>, k: nat)
    requires k < |s|
    ensures multiset(s) == multiset(s[..k] + s[k + 1..]) + multiset{s[k]}
    ensures multiset(s[..k] + s[k + 1..]) == multiset(s) - multiset{s[k]}
  {
    assert s == s[..k] + [s[k]] + s[k + 1..];
  }

  /** Where the first element of `a` is in `b`, if both have the same elements; the others are the same, too. */
  lemma FirstIn<T>(a: seq<T>, b: seq<T>) returns (k: nat)
    requires a != [] && multiset(a) == multiset(b)
    ensures k < |b| && b[k] == a[0] && multiset(a[1..]) == multiset(b[..k] + b[k + 1..])
  {
    assert a[0] in multiset(b);
    k :| 0 <= k < |b| && b[k] == a[0];
    WithoutFirst(a);
    Without(b, k);
  }

  lemma WithoutFirst<T>(s: seq<T>)
    requires s != []
    ensures multiset(s[1..]) == multiset(s) - multiset{s[0]}
  {
    assert s == [s[0]] + s[1..];
  }

  lemma SameEmpty<T>(a: seq<T>, b: seq<T>)
    requires multiset(a) == multiset(b)
    ensures |a| == |b|
  {
    assert |multiset(a)| == |a| && |multiset(b)| == |b|;
  }

  lemma {:induction false} PickedApart<T>(a: seq<T>, b: seq<T>, keep: T -> bool)
    ensures Picked(a + b, keep) == Picked(a, keep) + Picked(b, keep)
  {
    if b == [] {
      EmptyIsUnit(a);
    } else {
      LastApart(a, b);
      PickedApart(a, b[..|b| - 1], keep);
      assert (a + b)[..|a + b| - 1] == a + b[..|b| - 1];
    }
  }

  lemma PickedOne<T>(x: T, keep: T -> bool)
    ensures Picked([x], keep) == if keep(x) then [x] else []
  {
    assert [x][..0] == [];
  }

  lemma PickedWithout<T>(s: seq<T>, k: nat, keep: T -> bool)
    requires k < |s|
    ensures multiset(Picked(s, keep))
         == multiset(Picked(s[..k] + s[k + 1..], keep)) + multiset(if keep(s[k]) then [s[k]] else [])
  {
    Around(s, k);
    PickedAround(s[..k], s[k], s[k + 1..], keep);
  }

  lemma PickedAround<T>(a: seq<T>, x: T, b: seq<T>, keep: T -> bool)
    ensures multiset(Picked(a + [x] + b, keep)) == multiset(Picked(a + b, keep)) + multiset(if keep(x) then [x] else [])
  {
    PickedBetween(a, x, b, keep);
    Middle(Picked(a, keep), if keep(x) then [x] else [], Picked(b, keep));
  }

  lemma Middle<T>(a: seq<T>, x: seq<T>, b: seq<T>)
    ensures multiset(a + x + b) == multiset(a + b) + multiset(x)
  {
  }

  lemma PickedBetween<T>(a: seq<T>, x: T, b: seq<T>, keep: T -> bool)
    ensures Picked(a + [x] + b, keep) == Picked(a, keep) + (if keep(x) then [x] else []) + Picked(b, keep)
    ensures Picked(a + b, keep) == Picked(a, keep) + Picked(b, keep)
  {
    PickedApart(a + [x], b, keep);
    PickedApart(a, [x], keep);
    PickedOne(x, keep);
    PickedApart(a, b, keep);
  }

  lemma {:induction false} PickedAlike<T>(a: seq<T>, b: seq<T>, keep: T -> bool)
    requires multiset(a) == multiset(b)
    ensures multiset(Picked(a, keep)) == multiset(Picked(b, keep))
  {
    SameEmpty(a, b);
    if a != [] {
      var k := FirstIn(a, b);
      PickedAlike(a[1..], b[..k] + b[k + 1..], keep);
      PickedWithout(a, 0, keep);
      EmptyIsUnit(a[1..]);
      PickedWithout(b, k, keep);
    }
  }

  lemma MappedWithout<T, U>(s: seq<T>, k: nat, f: T -> U)
    requires k < |s|
    ensures multiset(Mapped(s, f)) == multiset(Mapped(s[..k] + s[k + 1..], f)) + multiset{f(s[k])}
  {
    var t := Mapped(s, f);
    Without(t, k);
    assert Mapped(s[..k] + s[k + 1..], f) == t[..k] + t[k + 1..];
  }

  lemma {:induction false} MappedAlike<T, U>(a: seq<T>, b: seq<T>, f: T -> U)
    requires multiset(a) == multiset(b)
    ensures multiset(Mapped(a, f)) == multiset(Mapped(b, f))
  {
    SameEmpty(a, b);
    if a != [] {
      var k := FirstIn(a, b);
      MappedAlike(a[1..], b[..k] + b[k + 1..], f);
      MappedWithout(a, 0, f);
      EmptyIsUnit(a[1..]);
      MappedWithout(b, k, f);
    }
  }

  // ── Sorting ─────────────────────────────────────────────────────

  datatype Entry = Entry(key: SortKey, bytes: Octets)

  /** Behind all entries that are not greater. */
  function Insert(s: seq<Entry>, e: Entry, isUpper: char -> bool): (r: seq<Entry>)
    ensures |r| == |s| + 1
  {
    var n := |s| - 1;
    if s == [] || AtMost(s[n].key, e.key, isUpper) then s + [e]
    else Insert(s[..n], e, isUpper) + [s[n]]
  }

  function StableSorted(s: seq<Entry>, isUpper: char -> bool): (r: seq<Entry>)
    ensures |r| == |s|
  {
    if s == [] then []
    else
      var n := |s| - 1;
      Insert(StableSorted(s[..n], isUpper), s[n], isUpper)
  }

  ghost predicate InOrder(s: seq<Entry>, isUpper: char -> bool) {
    forall i, j :: 0 <= i < j < |s| ==> AtMost(s[i].key, s[j].key, isUpper)
  }

  lemma {:induction false} InsertKeepsAll(s: seq<Entry>, e: Entry, isUpper: char -> bool)
    ensures multiset(Insert(s, e, isUpper)) == multiset(s) + multiset{e}
  {
    if s != [] {
      var n := |s| - 1;
      assert s == s[..n] + [s[n]];
      InsertKeepsAll(s[..n], e, isUpper);
    }
  }

  lemma InsertedFrom(s: seq<Entry>, e: Entry, isUpper: char -> bool, i: nat)
    requires i <= |s|
    ensures Insert(s, e, isUpper)[i] == e || exists j :: 0 <= j < |s| && Insert(s, e, isUpper)[i] == s[j]
  {
    InsertKeepsAll(s, e, isUpper);
    assert Insert(s, e, isUpper)[i] in multiset(s) + multiset{e};
  }

  lemma {:induction false} InsertKeepsOrder(s: seq<Entry>, e: Entry, isUpper: char -> bool)
    requires InOrder(s, isUpper)
    ensures InOrder(Insert(s, e, isUpper), isUpper)
  {
    var n := |s| - 1;
    if s == [] {
    } else if AtMost(s[n].key, e.key, isUpper) {
      forall i | 0 <= i <= n ensures AtMost(s[i].key, e.key, isUpper) {
        if i < n {
          KeysTransitive(s[i].key, s[n].key, e.key, isUpper);
        }
      }
    } else {
      KeysFlip(s[n].key, e.key, isUpper);
      InsertKeepsOrder(s[..n], e, isUpper);
      var r := Insert(s[..n], e, isUpper);
      forall i | 0 <= i < |r| ensures AtMost(r[i].key, s[n].key, isUpper) {
        InsertedFrom(s[..n], e, isUpper, i);
      }
    }
  }

  lemma {:induction false} SortedIs(s: seq<Entry>, isUpper: char -> bool)
    ensures InOrder(StableSorted(s, isUpper), isUpper)
    ensures multiset(StableSorted(s, isUpper)) == multiset(s)
  {
    if s != [] {
      var n := |s| - 1;
      SortedIs(s[..n], isUpper);
      InsertKeepsOrder(StableSorted(s[..n], isUpper), s[n], isUpper);
      InsertKeepsAll(StableSorted(s[..n], isUpper), s[n], isUpper);
      assert s == s[..n] + [s[n]];
    }
  }

  // ── What sorting leaves open ────────────────────────────────────

  /** What the comparison sees of an entry, and its octets. */
  function Mark(e: Entry, isUpper: char -> bool): (Rank, Octets) {
    (RankOf(e.key, isUpper), e.bytes)
  }

  function Marks(s: seq<Entry>, isUpper: char -> bool): (r: seq<(Rank, Octets)>)
    ensures |r| == |s|
  {
    Mapped(s, (e: Entry) => Mark(e, isUpper))
  }

  /** Entries of one rank have the same octets. */
  ghost predicate RankedAlike(s: seq<Entry>, isUpper: char -> bool) {
    forall e, f :: e in s && f in s && RankOf(e.key, isUpper) == RankOf(f.key, isUpper) ==> e.bytes == f.bytes
  }

  /** The first of two lists of the same marks that are in order. */
  lemma FirstIsFixed(a: seq<Entry>, b: seq<Entry>, isUpper: char -> bool)
    requires a != [] && b != [] && InOrder(a, isUpper) && InOrder(b, isUpper) && RankedAlike(a, isUpper)
    requires multiset(Marks(a, isUpper)) == multiset(Marks(b, isUpper))
    ensures Mark(a[0], isUpper) == Mark(b[0], isUpper)
  {
    var ma, mb := Marks(a, isUpper), Marks(b, isUpper);
    assert ma[0] in multiset(mb) && mb[0] in multiset(ma);
    var j :| 0 <= j < |mb| && mb[j] == ma[0];
    var i :| 0 <= i < |ma| && ma[i] == mb[0];
    LeastIsFixed(a[0].key, a[i].key, b[0].key, b[j].key, isUpper);
  }

  lemma LeastIsFixed(a: SortKey, x: SortKey, b: SortKey, y: SortKey, isUpper: char -> bool)
    requires AtMost(a, x, isUpper) || a == x
    requires AtMost(b, y, isUpper) || b == y
    requires RankOf(x, isUpper) == RankOf(b, isUpper) && RankOf(y, isUpper) == RankOf(a, isUpper)
    ensures RankOf(a, isUpper) == RankOf(b, isUpper)
  {
    EqualExactlyWhen(a, a, isUpper);
    EqualExactlyWhen(b, b, isUpper);
    EqualExactlyWhen(x, b, isUpper);
    EqualExactlyWhen(y, a, isUpper);
    KeysTransitive(a, x, b, isUpper);
    KeysTransitive(b, y, a, isUpper);
    KeysFlip(a, b, isUpper);
    EqualExactlyWhen(a, b, isUpper);
  }

  /** There is one way to put marks in order, where entries of one rank have the same octets. */
  lemma {:induction false} OrderIsUnique(a: seq<Entry>, b: seq<Entry>, isUpper: char -> bool)
    requires InOrder(a, isUpper) && InOrder(b, isUpper) && RankedAlike(a, isUpper)
    requires multiset(Marks(a, isUpper)) == multiset(Marks(b, isUpper))
    ensures Marks(a, isUpper) == Marks(b, isUpper)
  {
    SameEmpty(Marks(a, isUpper), Marks(b, isUpper));
    if a != [] {
      FirstIsFixed(a, b, isUpper);
      OtherMarks(a, isUpper);
      OtherMarks(b, isUpper);
      OrderIsUnique(a[1..], b[1..], isUpper);
    }
  }

  lemma OtherMarks(s: seq<Entry>, isUpper: char -> bool)
    requires s != []
    ensures Marks(s, isUpper) == [Mark(s[0], isUpper)] + Marks(s[1..], isUpper)
    ensures multiset(Marks(s[1..], isUpper)) == multiset(Marks(s, isUpper)) - multiset{Mark(s[0], isUpper)}
  {
    var t := Marks(s, isUpper);
    Without(t, 0);
    assert t[..0] + t[1..] == Marks(s[1..], isUpper);
  }

  // ── Stability ───────────────────────────────────────────────────

  /** The octets of the entries of one rank, in order. */
  function OfRank(s: seq<Entry>, rank: Rank, isUpper: char -> bool): seq<Octets> {
    if s == [] then []
    else
      var n := |s| - 1;
      OfRank(s[..n], rank, isUpper) + (if RankOf(s[n].key, isUpper) == rank then [s[n].bytes] else [])
  }

  lemma OfRankLast(s: seq<Entry>, e: Entry, rank: Rank, isUpper: char -> bool)
    ensures OfRank(s + [e], rank, isUpper)
         == OfRank(s, rank, isUpper) + if RankOf(e.key, isUpper) == rank then [e.bytes] else []
  {
    assert (s + [e])[..|s|] == s;
  }

  lemma {:induction false} InsertIsStable(s: seq<Entry>, e: Entry, rank: Rank, isUpper: char -> bool)
    ensures OfRank(Insert(s, e, isUpper), rank, isUpper) == OfRank(s + [e], rank, isUpper)
  {
    var n := |s| - 1;
    if s != [] && !AtMost(s[n].key, e.key, isUpper) {
      EqualExactlyWhen(s[n].key, e.key, isUpper);
      InsertIsStable(s[..n], e, rank, isUpper);
      OfRankLast(Insert(s[..n], e, isUpper), s[n], rank, isUpper);
      OfRankLast(s[..n], e, rank, isUpper);
      OfRankLast(s, e, rank, isUpper);
    }
  }

  /** Sorting keeps the order of the entries of one rank. */
  lemma {:induction false} SortingIsStable(s: seq<Entry>, rank: Rank, isUpper: char -> bool)
    ensures OfRank(StableSorted(s, isUpper), rank, isUpper) == OfRank(s, rank, isUpper)
  {
    if s != [] {
      var n := |s| - 1;
      SortingIsStable(s[..n], rank, isUpper);
      InsertIsStable(StableSorted(s[..n], isUpper), s[n], rank, isUpper);
      OfRankLast(StableSorted(s[..n], isUpper), s[n], rank, isUpper);
    }
  }

  lemma {:induction false} OfRankByMarks(a: seq<Entry>, b: seq<Entry>, rank: Rank, isUpper: char -> bool)
    requires Marks(a, isUpper) == Marks(b, isUpper)
    ensures OfRank(a, rank, isUpper) == OfRank(b, rank, isUpper)
  {
    assert |a| == |Marks(a, isUpper)| == |b|;
    if a != [] {
      var n := |a| - 1;
      assert Marks(a, isUpper)[n] == Marks(b, isUpper)[n];
      assert Marks(a[..n], isUpper) == Marks(a, isUpper)[..n] == Marks(b, isUpper)[..n] == Marks(b[..n], isUpper);
      OfRankByMarks(a[..n], b[..n], rank, isUpper);
    }
  }
}
