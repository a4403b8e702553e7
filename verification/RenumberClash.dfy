/**
 When renumbering twice is renumbering once, read off the document: the only obstacle are parameter
 references under different com-objects that share a number.
 */
module RenumberClash {
  import opened Basics
  import opened Decimal
  import opened Renumber
  import opened RenumberMaps
  import opened RenumberTwice
  import opened RenumberGraph

  /** The com-object at position `k`, which is the last with its id, has this number. */
  ghost predicate IsNumbered(prefix: string, tags: seq<Tag>, k: nat, n: nat) {
    LastDeclared(prefix, tags, k) && tags[k].name == ComObject && Number(prefix, tags[..k], tags[k]) == n
  }

  /** The reference belongs to a com-object with this number. */
  ghost predicate UnderNumber(prefix: string, tags: seq<Tag>, i: nat, n: nat) {
    && RefAt(prefix, tags, i)
    && exists k: nat :: IsNumbered(prefix, tags, k, n) && Id(prefix, tags[k]) == Parent(prefix, tags, i)
  }

  /**
   Reference `l` takes the place of parameter reference `j` of a com-object with number `n`: it
   belongs to a com-object with the same number, and is the same instance, or carries or is handed
   out a number that reads like the suffix of `j`.
   */
  ghost predicate Takes(prefix: string, tags: seq<Tag>, l: nat, j: nat, n: nat)
    requires RefAt(prefix, tags, j)
  {
    && UnderNumber(prefix, tags, l, n)
    && if tags[l].name == ParameterRef then Instance(prefix, tags, l) == Instance(prefix, tags, j)
       else Digits(SuffixNumber(prefix, tags, l)) == Digits(n) + TwoDigits(Instance(prefix, tags, j))
  }

  /** No later reference has the same id or takes its place. */
  ghost predicate Decides(prefix: string, tags: seq<Tag>, j: nat, n: nat) {
    && LastRef(prefix, tags, j)
    && forall l :: j < l < |tags| && LastRef(prefix, tags, l) ==> !Takes(prefix, tags, l, j, n)
  }

  /** Parameter references under different com-objects with one number, the later of which decides. */
  ghost predicate ShareNumber(prefix: string, tags: seq<Tag>, i: nat, j: nat, n: nat) {
    && i < j && UnderNumber(prefix, tags, i, n) && UnderNumber(prefix, tags, j, n)
    && tags[i].name == ParameterRef && tags[j].name == ParameterRef
    && Parent(prefix, tags, i) != Parent(prefix, tags, j)
    && Decides(prefix, tags, j, n)
  }

  ghost predicate NumbersClash(prefix: string, tags: seq<Tag>) {
    exists i, j, n :: ShareNumber(prefix, tags, i, j, n)
  }

  // ── What the condition says about new ids ───────────────────────

  lemma ParentIsKey(prefix: string, tags: seq<Tag>, i: nat)
    requires RefAt(prefix, tags, i)
    ensures Parent(prefix, tags, i) in Parents(prefix, tags)
  {
  }

  lemma OneLast(prefix: string, tags: seq<Tag>, k: nat, l: nat)
    requires LastDeclared(prefix, tags, k) && LastDeclared(prefix, tags, l) && Id(prefix, tags[k]) == Id(prefix, tags[l])
    ensures k == l
  {
  }

  lemma MarkerOfComObject(prefix: string, t: Tag)
    requires Declares(prefix, t).Some?
    ensures t.name == ComObject <==> Declares(prefix, t).value == O
  {
    MarkerLetters(t.name, Id(prefix, t)[|prefix|..]);
  }

  lemma UnderNumberIs(prefix: string, tags: seq<Tag>, i: nat, n: nat)
    requires RefAt(prefix, tags, i)
    ensures Parent(prefix, tags, i) in Parents(prefix, tags)
    ensures UnderNumber(prefix, tags, i, n) <==> Parents(prefix, tags)[Parent(prefix, tags, i)] == NewId(prefix, O, n)
    ensures UnderNumber(prefix, tags, i, n) ==>
              Parent(prefix, tags, i) in Indexes(prefix, tags) && Indexes(prefix, tags)[Parent(prefix, tags, i)] == n
  {
    ParentIsKey(prefix, tags, i);
    var k := ParentIsNew(prefix, tags, Parent(prefix, tags, i));
    NumberedIs(prefix, tags, k, n);
    if UnderNumber(prefix, tags, i, n) {
      var l: nat :| IsNumbered(prefix, tags, l, n) && Id(prefix, tags[l]) == Parent(prefix, tags, i);
      OneLast(prefix, tags, k, l);
    }
  }

  lemma NumberedIs(prefix: string, tags: seq<Tag>, k: nat, n: nat)
    requires LastDeclared(prefix, tags, k)
    ensures IsNumbered(prefix, tags, k, n)
            <==> NewId(prefix, Declares(prefix, tags[k]).value, Number(prefix, tags[..k], tags[k])) == NewId(prefix, O, n)
    ensures IsNumbered(prefix, tags, k, n) ==>
              Id(prefix, tags[k]) in Indexes(prefix, tags) && Indexes(prefix, tags)[Id(prefix, tags[k])] == n
  {
    NewIdInjective(prefix, Declares(prefix, tags[k]).value, Number(prefix, tags[..k], tags[k]), O, n);
    MarkerOfComObject(prefix, tags[k]);
    if tags[k].name == ComObject {
      IndexesAt(prefix, tags, k);
    }
  }

  lemma NewRefIs(prefix: string, tags: seq<Tag>, i: nat)
    requires RefAt(prefix, tags, i)
    ensures Parent(prefix, tags, i) in Parents(prefix, tags)
    ensures NewRef(prefix, tags, i)
         == Parents(prefix, tags)[Parent(prefix, tags, i)] + BOUNDARY + NewSuffix(prefix, tags, i)
  {
    ParentIsKey(prefix, tags, i);
  }

  lemma TakesExactlyWhen(prefix: string, tags: seq<Tag>, l: nat, j: nat, n: nat)
    requires UnderNumber(prefix, tags, j, n) && tags[j].name == ParameterRef && RefAt(prefix, tags, l)
    ensures NewRef(prefix, tags, l) == NewRef(prefix, tags, j) <==> Takes(prefix, tags, l, j, n)
  {
    UnderNumberIs(prefix, tags, j, n);
    UnderNumberIs(prefix, tags, l, n);
    NewRefIs(prefix, tags, j);
    NewRefIs(prefix, tags, l);
    var k := ParentIsNew(prefix, tags, Parent(prefix, tags, l));
    SplitNewIds(prefix, Declares(prefix, tags[k]).value, Number(prefix, tags[..k], tags[k]), NewSuffix(prefix, tags, l),
                O, n, NewSuffix(prefix, tags, j));
    if UnderNumber(prefix, tags, l, n) {
      TakenSuffix(prefix, tags, l, j, n);
    }
  }

  lemma TakenSuffix(prefix: string, tags: seq<Tag>, l: nat, j: nat, n: nat)
    requires RefAt(prefix, tags, j) && tags[j].name == ParameterRef && RefAt(prefix, tags, l) && UnderNumber(prefix, tags, l, n)
    requires Parent(prefix, tags, j) in Indexes(prefix, tags) && Indexes(prefix, tags)[Parent(prefix, tags, j)] == n
    requires Parent(prefix, tags, l) in Indexes(prefix, tags) && Indexes(prefix, tags)[Parent(prefix, tags, l)] == n
    ensures NewSuffix(prefix, tags, l) == NewSuffix(prefix, tags, j) <==> Takes(prefix, tags, l, j, n)
  {
    ParameterSuffix(prefix, tags, j);
    if tags[l].name == ParameterRef {
      ParameterSuffix(prefix, tags, l);
      TwoDigitsDiffer(Digits(n), Instance(prefix, tags, l), Instance(prefix, tags, j));
    } else {
      SuffixIsNumber(prefix, tags, l);
    }
  }

  lemma NewOfLast(prefix: string, tags: seq<Tag>, l: nat)
    requires LastRef(prefix, tags, l)
    ensures Lookup(Renaming(prefix, tags), Id(prefix, tags[l])) == NewRef(prefix, tags, l)
  {
    RenamingAt(prefix, tags, l);
  }

  lemma DecidesExactlyWhen(prefix: string, tags: seq<Tag>, j: nat, n: nat)
    requires UnderNumber(prefix, tags, j, n) && tags[j].name == ParameterRef
    ensures LastOfNew(prefix, tags, j) <==> Decides(prefix, tags, j, n)
  {
    if LastOfNew(prefix, tags, j) {
      assert LastRef(prefix, tags, j);
      NewOfLast(prefix, tags, j);
      forall l | j < l < |tags| && LastRef(prefix, tags, l) ensures !Takes(prefix, tags, l, j, n) {
        NewOfLast(prefix, tags, l);
        TakesExactlyWhen(prefix, tags, l, j, n);
      }
    }
    if Decides(prefix, tags, j, n) {
      NewOfLast(prefix, tags, j);
      forall l | j < l < |tags| && RefAt(prefix, tags, l)
        ensures Lookup(Renaming(prefix, tags), Id(prefix, tags[l])) != Lookup(Renaming(prefix, tags), Id(prefix, tags[j]))
      {
        var last, k := NewOfReference(prefix, tags, l);
        NewOfLast(prefix, tags, last);
        TakesExactlyWhen(prefix, tags, last, j, n);
      }
    }
  }

  lemma MergedShare(prefix: string, tags: seq<Tag>, i: nat, j: nat) returns (n: nat)
    requires Merges(prefix, tags, i, j)
    ensures UnderNumber(prefix, tags, i, n) && UnderNumber(prefix, tags, j, n)
  {
    var k := ParentIsNew(prefix, tags, Parent(prefix, tags, i));
    var l := ParentIsNew(prefix, tags, Parent(prefix, tags, j));
    if k < l {
      DeclaredDiffer(prefix, tags, k, l);
    } else {
      DeclaredDiffer(prefix, tags, l, k);
    }
    n := Number(prefix, tags[..k], tags[k]);
  }

  lemma ShareMerges(prefix: string, tags: seq<Tag>, i: nat, j: nat, n: nat)
    requires ShareNumber(prefix, tags, i, j, n)
    ensures Merges(prefix, tags, i, j)
  {
    UnderNumberIs(prefix, tags, i, n);
    UnderNumberIs(prefix, tags, j, n);
  }

  lemma ClashExactlyWhen(prefix: string, tags: seq<Tag>)
    ensures Clash(prefix, tags) <==> NumbersClash(prefix, tags)
  {
    if Clash(prefix, tags) {
      var i, j :| 0 <= i < j < |tags| && Merges(prefix, tags, i, j) && LastOfNew(prefix, tags, j);
      var n := MergedShare(prefix, tags, i, j);
      DecidesExactlyWhen(prefix, tags, j, n);
      assert ShareNumber(prefix, tags, i, j, n);
    }
    if NumbersClash(prefix, tags) {
      var i, j, n :| ShareNumber(prefix, tags, i, j, n);
      ShareMerges(prefix, tags, i, j, n);
      DecidesExactlyWhen(prefix, tags, j, n);
    }
  }

  /**
   Idempotence. A document that was renumbered can be renumbered again, and the second map is the
   identity on its domain, so nothing changes, if and only if there are no two parameter references
   under different com-objects with the same number, the later of which is not overtaken by another
   reference.
   */
  lemma RenumbersOnceExactlyWhen(prefix: string, tags: seq<Tag>)
    requires Underscored(prefix) && Built(prefix, tags).Ok? && 2 * |tags| <= U64_MAX
    ensures Built(prefix, Again(prefix, tags)).Ok?
    ensures IsIdentity(Built(prefix, Again(prefix, tags)).value) <==> !NumbersClash(prefix, tags)
  {
    RenumberingTwice(prefix, tags);
    ClashExactlyWhen(prefix, tags);
  }
}
