/**
 The reference graph of a renumbered document: when different ids stay different, and what a
 reference resolves to afterwards.
 */
module RenumberGraph {
  import opened Basics
  import opened Decimal
  import opened Renumber
  import opened RenumberMaps
  import opened RenumberTwice

  // ── What has to be distinct ─────────────────────────────────────

  ghost predicate EntryAt(prefix: string, tags: seq<Tag>, i: nat) {
    DeclaredAt(prefix, tags, i) || RefAt(prefix, tags, i)
  }

  /** No id is declared twice, as a declaration or as a reference. */
  ghost predicate DistinctIds(prefix: string, tags: seq<Tag>) {
    forall i, j :: 0 <= i < j < |tags| && EntryAt(prefix, tags, i) && EntryAt(prefix, tags, j) ==>
      Id(prefix, tags[i]) != Id(prefix, tags[j])
  }

  /** Parameter references belong to parameters. */
  ghost predicate OwnKind(prefix: string, tags: seq<Tag>) {
    forall i, k :: 0 <= i < |tags| && 0 <= k < |tags| && RefAt(prefix, tags, i) && tags[i].name == ParameterRef
                   && DeclaredAt(prefix, tags, k) && Id(prefix, tags[k]) == Parent(prefix, tags, i) ==>
      tags[k].name == Parameter
  }

  ghost predicate SameNumber(prefix: string, tags: seq<Tag>, i: nat, j: nat) {
    && i < j && DeclaredAt(prefix, tags, i) && DeclaredAt(prefix, tags, j)
    && tags[i].name == ComObject && tags[j].name == ComObject
    && Number(prefix, tags[..i], tags[i]) == Number(prefix, tags[..j], tags[j])
  }

  /** Two com-object references of one parent carry the same number, perhaps written differently. */
  ghost predicate SameSuffix(prefix: string, tags: seq<Tag>, i: nat, j: nat) {
    && i < j && RefAt(prefix, tags, i) && RefAt(prefix, tags, j)
    && tags[i].name == ComObjectRef && tags[j].name == ComObjectRef
    && Parent(prefix, tags, i) == Parent(prefix, tags, j)
    && Kept(prefix, Parents(prefix, tags).Keys, tags[i]).Some?
    && Kept(prefix, Parents(prefix, tags).Keys, tags[i]) == Kept(prefix, Parents(prefix, tags).Keys, tags[j])
  }

  /** The number of a com-object reference: the one it carries, or the one handed out to it. */
  ghost function SuffixNumber(prefix: string, tags: seq<Tag>, i: nat): nat
    requires RefAt(prefix, tags, i) && tags[i].name == ComObjectRef
  {
    match Kept(prefix, Parents(prefix, tags).Keys, tags[i])
    case Some(n) => n
    case None => SupplyAfter(prefix, Parents(prefix, tags).Keys, tags, tags[..i + 1], Parent(prefix, tags, i)).last
  }

  /** How many parameter references of its parent there are up to this reference. */
  ghost function Instance(prefix: string, tags: seq<Tag>, i: nat): nat
    requires RefAt(prefix, tags, i)
  {
    Instances(prefix, Parents(prefix, tags).Keys, tags[..i + 1], Parent(prefix, tags, i))
  }

  /**
   A parameter reference and a com-object reference of one parent have one suffix: the number of the
   parent, followed by the two-digit instance of the one, reads like the number of the other.
   */
  ghost predicate MixedSuffix(prefix: string, tags: seq<Tag>, i: nat, j: nat) {
    && RefAt(prefix, tags, i) && RefAt(prefix, tags, j)
    && tags[i].name == ParameterRef && tags[j].name == ComObjectRef
    && Parent(prefix, tags, i) == Parent(prefix, tags, j) && Parent(prefix, tags, i) in Indexes(prefix, tags)
    && Digits(Indexes(prefix, tags)[Parent(prefix, tags, i)]) + TwoDigits(Instance(prefix, tags, i))
       == Digits(SuffixNumber(prefix, tags, j))
  }

  /** No two com-objects share a number, and no two references of one parent share a suffix. */
  ghost predicate DistinctNumbers(prefix: string, tags: seq<Tag>) {
    && (forall i, j :: 0 <= i < j < |tags| ==> !SameNumber(prefix, tags, i, j))
    && (forall i, j :: 0 <= i < j < |tags| ==> !SameSuffix(prefix, tags, i, j))
    && (forall i, j :: 0 <= i < |tags| && 0 <= j < |tags| ==> !MixedSuffix(prefix, tags, i, j))
  }

  /** Two references of one parent share a suffix, in one of the two ways. */
  ghost predicate Collide(prefix: string, tags: seq<Tag>, i: nat, j: nat) {
    SameSuffix(prefix, tags, i, j) || MixedSuffix(prefix, tags, i, j) || MixedSuffix(prefix, tags, j, i)
  }

  predicate Injective(m: map<string, string>) {
    forall a, b :: a in m && b in m && m[a] == m[b] ==> a == b
  }

  // ── Entries of a document with distinct ids ─────────────────────

  lemma OwnDeclaration(prefix: string, tags: seq<Tag>, i: nat)
    requires DistinctIds(prefix, tags) && DeclaredAt(prefix, tags, i)
    ensures LastDeclared(prefix, tags, i) && NoRef(prefix, tags, Id(prefix, tags[i]))
    ensures Id(prefix, tags[i]) in Parents(prefix, tags) && Id(prefix, tags[i]) in Renaming(prefix, tags)
    ensures Parents(prefix, tags)[Id(prefix, tags[i])] == Declared(prefix, tags[..i], tags[i])
    ensures Renaming(prefix, tags)[Id(prefix, tags[i])] == Declared(prefix, tags[..i], tags[i])
  {
    forall j | i < j < |tags| && DeclaredAt(prefix, tags, j) ensures Id(prefix, tags[j]) != Id(prefix, tags[i]) {
      assert EntryAt(prefix, tags, i) && EntryAt(prefix, tags, j);
    }
    forall j | 0 <= j < |tags| && RefAt(prefix, tags, j) ensures Id(prefix, tags[j]) != Id(prefix, tags[i]) {
      assert EntryAt(prefix, tags, i) && EntryAt(prefix, tags, j);
    }
    ParentsAt(prefix, tags, i);
    Unreferenced(prefix, tags, Id(prefix, tags[i]));
  }

  lemma OwnReference(prefix: string, tags: seq<Tag>, i: nat) returns (k: nat)
    requires DistinctIds(prefix, tags) && RefAt(prefix, tags, i)
    ensures Id(prefix, tags[i]) in Renaming(prefix, tags)
    ensures DeclaredAt(prefix, tags, k) && Id(prefix, tags[k]) == Parent(prefix, tags, i)
    ensures Renaming(prefix, tags)[Id(prefix, tags[i])]
         == Declared(prefix, tags[..k], tags[k]) + BOUNDARY + NewSuffix(prefix, tags, i)
  {
    var j;
    j, k := NewOfReference(prefix, tags, i);
    if i != j {
      assert EntryAt(prefix, tags, i) && EntryAt(prefix, tags, j);
    }
  }

  lemma OwnEntry(prefix: string, tags: seq<Tag>, id: string) returns (i: nat)
    requires id in Renaming(prefix, tags)
    ensures EntryAt(prefix, tags, i) && Id(prefix, tags[i]) == id
  {
    i := EntryFrom(prefix, tags, id);
  }

  // ── Numbers and suffixes grow ───────────────────────────────────

  lemma {:induction false} CountGrows(prefix: string, tags: seq<Tag>, i: nat, j: nat, name: Name)
    requires i <= j <= |tags|
    ensures Count(prefix, tags[..i], name) <= Count(prefix, tags[..j], name)
    ensures i < j && tags[i].name == name && DeclaredAt(prefix, tags, i) ==>
              Count(prefix, tags[..i], name) < Count(prefix, tags[..j], name)
  {
    if i < j {
      CountGrows(prefix, tags, i, j - 1, name);
      assert tags[..j][..j - 1] == tags[..j - 1];
    }
  }

  /** Declarations of one kind get different numbers, unless com-objects bring the same ones. */
  lemma DeclaredDiffer(prefix: string, tags: seq<Tag>, i: nat, j: nat)
    requires i < j && DeclaredAt(prefix, tags, i) && DeclaredAt(prefix, tags, j)
    ensures Declared(prefix, tags[..i], tags[i]) == Declared(prefix, tags[..j], tags[j]) <==> SameNumber(prefix, tags, i, j)
  {
    var a, b := Declares(prefix, tags[i]).value, Declares(prefix, tags[j]).value;
    NewIdInjective(prefix, a, Number(prefix, tags[..i], tags[i]), b, Number(prefix, tags[..j], tags[j]));
    MarkerLetters(tags[i].name, Id(prefix, tags[i])[|prefix|..]);
    MarkerLetters(tags[j].name, Id(prefix, tags[j])[|prefix|..]);
    if tags[i].name == tags[j].name && tags[i].name != ComObject {
      CountGrows(prefix, tags, i, j, tags[i].name);
    }
  }

  lemma {:induction false} InstancesGrow(prefix: string, keys: set<string>, tags: seq<Tag>, i: nat, j: nat, parent: string)
    requires i <= j <= |tags|
    ensures Instances(prefix, keys, tags[..i], parent) <= Instances(prefix, keys, tags[..j], parent)
    ensures i < j && RefUnder(prefix, keys, tags[j - 1], ParameterRef, parent) ==>
              Instances(prefix, keys, tags[..i], parent) < Instances(prefix, keys, tags[..j], parent)
  {
    if i < j {
      InstancesGrow(prefix, keys, tags, i, j - 1, parent);
      InstancesMore(prefix, keys, tags, j, parent);
    }
  }

  lemma SupplyMore(prefix: string, keys: set<string>, all: seq<Tag>, k: nat, parent: string)
    requires 0 < k <= |all|
    ensures var s := SupplyAfter(prefix, keys, all, all[..k - 1], parent);
            SupplyAfter(prefix, keys, all, all[..k], parent)
            == if RefUnder(prefix, keys, all[k - 1], ComObjectRef, parent) && Kept(prefix, keys, all[k - 1]).None? then
                 Supply(s.used + {NextFree(s.used, s.last)}, NextFree(s.used, s.last))
               else s
  {
    assert all[..k][..k - 1] == all[..k - 1];
  }

  lemma UsedStays(prefix: string, keys: set<string>, all: seq<Tag>, k: nat, parent: string)
    requires 0 < k <= |all|
    ensures SupplyAfter(prefix, keys, all, all[..k - 1], parent).used <= SupplyAfter(prefix, keys, all, all[..k], parent).used
  {
    SupplyMore(prefix, keys, all, k, parent);
  }

  lemma UsedAtStart(prefix: string, keys: set<string>, all: seq<Tag>, parent: string)
    ensures SupplyAfter(prefix, keys, all, all[..0], parent).used == Carried(prefix, keys, all, parent)
  {
  }

  lemma {:induction false} GrowingSets(sets: seq<set<nat>>, i: nat, j: nat)
    requires i <= j < |sets| && forall k :: 0 < k < |sets| ==> sets[k - 1] <= sets[k]
    ensures sets[i] <= sets[j]
    decreases j - i
  {
    if i < j {
      GrowingSets(sets, i, j - 1);
    }
  }

  /** Numbers in use stay in use. */
  lemma UsedGrows(prefix: string, keys: set<string>, all: seq<Tag>, i: nat, j: nat, parent: string)
    requires i <= j <= |all|
    ensures SupplyAfter(prefix, keys, all, all[..i], parent).used <= SupplyAfter(prefix, keys, all, all[..j], parent).used
  {
    var sets := seq(|all| + 1, k requires 0 <= k <= |all| => SupplyAfter(prefix, keys, all, all[..k], parent).used);
    forall k | 0 < k < |sets| ensures sets[k - 1] <= sets[k] {
      UsedStays(prefix, keys, all, k, parent);
    }
    GrowingSets(sets, i, j);
  }

  lemma CarriedIsUsed(prefix: string, keys: set<string>, all: seq<Tag>, j: nat, parent: string)
    requires j <= |all|
    ensures Carried(prefix, keys, all, parent) <= SupplyAfter(prefix, keys, all, all[..j], parent).used
  {
    UsedAtStart(prefix, keys, all, parent);
    UsedGrows(prefix, keys, all, 0, j, parent);
  }

  lemma {:induction false} CarriedHas(prefix: string, keys: set<string>, tags: seq<Tag>, i: nat, parent: string)
    requires i < |tags| && RefUnder(prefix, keys, tags[i], ComObjectRef, parent) && Kept(prefix, keys, tags[i]).Some?
    ensures Kept(prefix, keys, tags[i]).value in Carried(prefix, keys, tags, parent)
    decreases |tags|
  {
    if i < |tags| - 1 {
      CarriedHas(prefix, keys, tags[..|tags| - 1], i, parent);
    }
  }

  /** A number that is handed out is in use from then on, and was not before. */
  lemma HandedOut(prefix: string, tags: seq<Tag>, i: nat)
    requires RefAt(prefix, tags, i) && tags[i].name == ComObjectRef
    requires Kept(prefix, Parents(prefix, tags).Keys, tags[i]).None?
    ensures var keys := Parents(prefix, tags).Keys;
            var parent := Parent(prefix, tags, i);
            && SuffixNumber(prefix, tags, i) in SupplyAfter(prefix, keys, tags, tags[..i + 1], parent).used
            && SuffixNumber(prefix, tags, i) !in SupplyAfter(prefix, keys, tags, tags[..i], parent).used
  {
    SupplyMore(prefix, Parents(prefix, tags).Keys, tags, i + 1, Parent(prefix, tags, i));
  }

  /** Com-object references of one parent get the same number only if they carry the same. */
  lemma SuffixesDiffer(prefix: string, tags: seq<Tag>, i: nat, j: nat)
    requires i < j && RefAt(prefix, tags, i) && RefAt(prefix, tags, j)
    requires tags[i].name == ComObjectRef && tags[j].name == ComObjectRef
    requires Parent(prefix, tags, i) == Parent(prefix, tags, j)
    ensures SuffixNumber(prefix, tags, i) == SuffixNumber(prefix, tags, j) <==> SameSuffix(prefix, tags, i, j)
  {
    var keys := Parents(prefix, tags).Keys;
    var parent := Parent(prefix, tags, i);
    if Kept(prefix, keys, tags[i]).Some? {
      CarriedHas(prefix, keys, tags, i, parent);
    } else {
      HandedOut(prefix, tags, i);
      UsedGrows(prefix, keys, tags, i + 1, j, parent);
      CarriedIsUsed(prefix, keys, tags, i, parent);
    }
    if Kept(prefix, keys, tags[j]).Some? {
      CarriedHas(prefix, keys, tags, j, parent);
    } else {
      HandedOut(prefix, tags, j);
      CarriedIsUsed(prefix, keys, tags, j, parent);
    }
  }

  lemma DigitsDiffer(a: nat, b: nat)
    ensures Digits(a) == Digits(b) <==> a == b
  {
    assert Digits(a) == Digits(b) ==> Value(Digits(a)) == Value(Digits(b));
  }

  /** References of one parent get the same suffix exactly if they collide. */
  lemma NewSuffixesDiffer(prefix: string, tags: seq<Tag>, i: nat, j: nat)
    requires i < j && RefAt(prefix, tags, i) && RefAt(prefix, tags, j) && Parent(prefix, tags, i) == Parent(prefix, tags, j)
    requires tags[i].name == ParameterRef ==> Parent(prefix, tags, i) in Indexes(prefix, tags)
    requires tags[j].name == ParameterRef ==> Parent(prefix, tags, j) in Indexes(prefix, tags)
    ensures NewSuffix(prefix, tags, i) == NewSuffix(prefix, tags, j) <==> Collide(prefix, tags, i, j)
  {
    if tags[i].name != tags[j].name {
      if tags[i].name == ParameterRef {
        MixedSuffixes(prefix, tags, i, j);
      } else {
        MixedSuffixes(prefix, tags, j, i);
      }
    } else if tags[i].name == ParameterRef {
      ParameterSuffixesDiffer(prefix, tags, i, j);
    } else {
      SuffixesDiffer(prefix, tags, i, j);
      DigitsDiffer(SuffixNumber(prefix, tags, i), SuffixNumber(prefix, tags, j));
      SuffixIsNumber(prefix, tags, i);
      SuffixIsNumber(prefix, tags, j);
    }
  }

  lemma MixedSuffixes(prefix: string, tags: seq<Tag>, i: nat, j: nat)
    requires RefAt(prefix, tags, i) && RefAt(prefix, tags, j) && Parent(prefix, tags, i) == Parent(prefix, tags, j)
    requires tags[i].name == ParameterRef && tags[j].name == ComObjectRef && Parent(prefix, tags, i) in Indexes(prefix, tags)
    ensures NewSuffix(prefix, tags, i) == NewSuffix(prefix, tags, j) <==> MixedSuffix(prefix, tags, i, j)
  {
    ParameterSuffix(prefix, tags, i);
    SuffixIsNumber(prefix, tags, j);
  }

  lemma SuffixIsNumber(prefix: string, tags: seq<Tag>, i: nat)
    requires RefAt(prefix, tags, i) && tags[i].name == ComObjectRef
    ensures NewSuffix(prefix, tags, i) == Digits(SuffixNumber(prefix, tags, i))
  {
  }

  lemma ParameterSuffixesDiffer(prefix: string, tags: seq<Tag>, i: nat, j: nat)
    requires i < j && RefAt(prefix, tags, i) && RefAt(prefix, tags, j)
    requires tags[i].name == ParameterRef && tags[j].name == ParameterRef
    requires Parent(prefix, tags, i) == Parent(prefix, tags, j) && Parent(prefix, tags, i) in Indexes(prefix, tags)
    ensures NewSuffix(prefix, tags, i) != NewSuffix(prefix, tags, j)
  {
    var base, a := SuffixParts(prefix, tags, i);
    var same, b := SuffixParts(prefix, tags, j);
    LaterInstance(prefix, tags, i, j);
    TwoDigitsDiffer(base, a, b);
  }

  lemma SuffixParts(prefix: string, tags: seq<Tag>, i: nat) returns (base: string, n: nat)
    requires RefAt(prefix, tags, i) && tags[i].name == ParameterRef && Parent(prefix, tags, i) in Indexes(prefix, tags)
    ensures base == Digits(Indexes(prefix, tags)[Parent(prefix, tags, i)])
    ensures n == Instances(prefix, Parents(prefix, tags).Keys, tags[..i + 1], Parent(prefix, tags, i))
    ensures NewSuffix(prefix, tags, i) == base + TwoDigits(n)
  {
    ParameterSuffix(prefix, tags, i);
    base := Digits(Indexes(prefix, tags)[Parent(prefix, tags, i)]);
    n := Instances(prefix, Parents(prefix, tags).Keys, tags[..i + 1], Parent(prefix, tags, i));
  }

  lemma LaterInstance(prefix: string, tags: seq<Tag>, i: nat, j: nat)
    requires i < j && RefAt(prefix, tags, i) && RefAt(prefix, tags, j)
    requires tags[j].name == ParameterRef && Parent(prefix, tags, i) == Parent(prefix, tags, j)
    ensures var keys := Parents(prefix, tags).Keys;
            Instances(prefix, keys, tags[..i + 1], Parent(prefix, tags, i))
            < Instances(prefix, keys, tags[..j + 1], Parent(prefix, tags, j))
  {
    InstancesGrow(prefix, Parents(prefix, tags).Keys, tags, i + 1, j + 1, Parent(prefix, tags, j));
  }

  // ── Different ids stay different ────────────────────────────────

  /** New ids of references are equal only if the new ids of their parents and their suffixes are. */
  lemma SplitNewIds(prefix: string, a: Marker, m: nat, s: string, b: Marker, n: nat, t: string)
    ensures NewId(prefix, a, m) + BOUNDARY + s == NewId(prefix, b, n) + BOUNDARY + t
            <==> NewId(prefix, a, m) == NewId(prefix, b, n) && s == t
  {
    var p, q := NewId(prefix, a, m), NewId(prefix, b, n);
    var x, y := p + BOUNDARY + s, q + BOUNDARY + t;
    if x == y {
      assert x[|p|] == '_' && y[|q|] == '_';
      assert |p| < |q| ==> y[|p|] == q[|p|];
      assert |q| < |p| ==> x[|q|] == p[|q|];
      if |p| < |q| {
        NoUnderscore(prefix, b, n, |p|);
      } else if |q| < |p| {
        NoUnderscore(prefix, a, m, |q|);
      }
      assert x[..|p|] == p && y[..|q|] == q;
      assert x[|p| + 3..] == s && y[|q| + 3..] == t;
    }
  }

  /** Two entries with the same new id are two com-objects with one number, or two references that collide. */
  lemma EqualEntries(prefix: string, tags: seq<Tag>, i: nat, j: nat)
    requires Built(prefix, tags).Ok? && DistinctIds(prefix, tags)
    requires i < j && EntryAt(prefix, tags, i) && EntryAt(prefix, tags, j)
    requires forall k, l :: 0 <= k < l < |tags| ==> !SameNumber(prefix, tags, k, l)
    ensures var m := Renaming(prefix, tags);
            && Id(prefix, tags[i]) in m && Id(prefix, tags[j]) in m
            && (m[Id(prefix, tags[i])] == m[Id(prefix, tags[j])] <==> Collide(prefix, tags, i, j))
  {
    if DeclaredAt(prefix, tags, i) && DeclaredAt(prefix, tags, j) {
      OwnDeclaration(prefix, tags, i);
      OwnDeclaration(prefix, tags, j);
      DeclaredDiffer(prefix, tags, i, j);
    } else if DeclaredAt(prefix, tags, i) {
      OwnDeclaration(prefix, tags, i);
      var k := OwnReference(prefix, tags, j);
      NotOfReference(prefix, Declares(prefix, tags[i]).value, Number(prefix, tags[..i], tags[i]),
                     Declares(prefix, tags[k]).value, Number(prefix, tags[..k], tags[k]), NewSuffix(prefix, tags, j));
    } else if DeclaredAt(prefix, tags, j) {
      OwnDeclaration(prefix, tags, j);
      var k := OwnReference(prefix, tags, i);
      NotOfReference(prefix, Declares(prefix, tags[j]).value, Number(prefix, tags[..j], tags[j]),
                     Declares(prefix, tags[k]).value, Number(prefix, tags[..k], tags[k]), NewSuffix(prefix, tags, i));
    } else {
      EqualReferences(prefix, tags, i, j);
    }
  }

  lemma EqualReferences(prefix: string, tags: seq<Tag>, i: nat, j: nat)
    requires Built(prefix, tags).Ok? && DistinctIds(prefix, tags)
    requires i < j && RefAt(prefix, tags, i) && RefAt(prefix, tags, j)
    requires forall k, l :: 0 <= k < l < |tags| ==> !SameNumber(prefix, tags, k, l)
    ensures var m := Renaming(prefix, tags);
            && Id(prefix, tags[i]) in m && Id(prefix, tags[j]) in m
            && (m[Id(prefix, tags[i])] == m[Id(prefix, tags[j])] <==> Collide(prefix, tags, i, j))
  {
    var k := OwnReference(prefix, tags, i);
    var l := OwnReference(prefix, tags, j);
    SplitNewIds(prefix, Declares(prefix, tags[k]).value, Number(prefix, tags[..k], tags[k]), NewSuffix(prefix, tags, i),
                Declares(prefix, tags[l]).value, Number(prefix, tags[..l], tags[l]), NewSuffix(prefix, tags, j));
    assert Declared(prefix, tags[..k], tags[k]) == Declared(prefix, tags[..l], tags[l]) <==> k == l by {
      if k < l {
        DeclaredDiffer(prefix, tags, k, l);
      } else if l < k {
        DeclaredDiffer(prefix, tags, l, k);
      }
    }
    OneParent(prefix, tags, k, l);
    if k == l {
      SameParentSameSuffix(prefix, tags, i, j, k);
    }
  }

  /** An id is declared at one place only. */
  lemma OneParent(prefix: string, tags: seq<Tag>, k: nat, l: nat)
    requires DistinctIds(prefix, tags) && DeclaredAt(prefix, tags, k) && DeclaredAt(prefix, tags, l)
    ensures Id(prefix, tags[k]) == Id(prefix, tags[l]) <==> k == l
  {
    assert EntryAt(prefix, tags, k) && EntryAt(prefix, tags, l);
  }

  lemma SameParentSameSuffix(prefix: string, tags: seq<Tag>, i: nat, j: nat, k: nat)
    requires Built(prefix, tags).Ok? && i < j
    requires RefAt(prefix, tags, i) && RefAt(prefix, tags, j) && DeclaredAt(prefix, tags, k)
    requires Parent(prefix, tags, i) == Parent(prefix, tags, j) == Id(prefix, tags[k])
    ensures NewSuffix(prefix, tags, i) == NewSuffix(prefix, tags, j) <==> Collide(prefix, tags, i, j)
  {
    NothingFaulty(prefix, tags, i);
    NothingFaulty(prefix, tags, j);
    NewSuffixesDiffer(prefix, tags, i, j);
  }

  /**
   In a document with distinct ids, different ids get different new ids if and only if no two
   com-objects share a number, no two com-object references of one parent carry the same number, and
   no parameter reference of a parent reads like a com-object reference of it.
   */
  lemma InjectiveExactlyWhen(prefix: string, tags: seq<Tag>)
    requires Built(prefix, tags).Ok? && DistinctIds(prefix, tags)
    ensures Injective(Renaming(prefix, tags)) <==> DistinctNumbers(prefix, tags)
  {
    var m := Renaming(prefix, tags);
    if DistinctNumbers(prefix, tags) {
      forall a, b | a in m && b in m && m[a] == m[b] ensures a == b {
        var i := OwnEntry(prefix, tags, a);
        var j := OwnEntry(prefix, tags, b);
        if i < j {
          EqualEntries(prefix, tags, i, j);
        } else if j < i {
          EqualEntries(prefix, tags, j, i);
        }
      }
    } else if exists i, j :: 0 <= i < j < |tags| && SameNumber(prefix, tags, i, j) {
      var i, j :| 0 <= i < j < |tags| && SameNumber(prefix, tags, i, j);
      OwnDeclaration(prefix, tags, i);
      OwnDeclaration(prefix, tags, j);
      DeclaredDiffer(prefix, tags, i, j);
      assert EntryAt(prefix, tags, i) && EntryAt(prefix, tags, j);
    } else {
      var i, j := ACollision(prefix, tags);
      EqualEntries(prefix, tags, i, j);
      assert EntryAt(prefix, tags, i) && EntryAt(prefix, tags, j);
    }
  }

  lemma ACollision(prefix: string, tags: seq<Tag>) returns (i: nat, j: nat)
    requires !DistinctNumbers(prefix, tags)
    requires forall i, j :: 0 <= i < j < |tags| ==> !SameNumber(prefix, tags, i, j)
    ensures i < j < |tags| && EntryAt(prefix, tags, i) && EntryAt(prefix, tags, j) && Collide(prefix, tags, i, j)
  {
    if exists k, l :: 0 <= k < l < |tags| && SameSuffix(prefix, tags, k, l) {
      i, j :| 0 <= i < j < |tags| && SameSuffix(prefix, tags, i, j);
    } else {
      var k, l :| 0 <= k < |tags| && 0 <= l < |tags| && MixedSuffix(prefix, tags, k, l);
      i, j := if k < l then k else l, if k < l then l else k;
    }
  }

  // ── When renumbering twice is renumbering once ──────────────────

  /** Where parameter references belong to parameters, the second renumbering changes nothing. */
  lemma OwnKindRenumbersOnce(prefix: string, tags: seq<Tag>)
    requires Underscored(prefix) && Built(prefix, tags).Ok? && 2 * |tags| <= U64_MAX && OwnKind(prefix, tags)
    ensures Built(prefix, Again(prefix, tags)).Ok?
    ensures IsIdentity(Built(prefix, Again(prefix, tags)).value)
  {
    RenumberingTwice(prefix, tags);
    forall i, j | 0 <= i < j < |tags| ensures !Merges(prefix, tags, i, j) {
      OwnKindNeverMerges(prefix, tags, i, j);
    }
  }

  lemma OwnKindNeverMerges(prefix: string, tags: seq<Tag>, i: nat, j: nat)
    requires OwnKind(prefix, tags) && i < j < |tags|
    ensures !Merges(prefix, tags, i, j)
  {
    if Merges(prefix, tags, i, j) {
      var k, l := MergedParents(prefix, tags, i, j);
      assert false;
    }
  }

  /** Parents that merge are com-objects with one number. */
  lemma MergedParents(prefix: string, tags: seq<Tag>, i: nat, j: nat) returns (k: nat, l: nat)
    requires Merges(prefix, tags, i, j)
    ensures SameNumber(prefix, tags, k, l)
    ensures || (Id(prefix, tags[k]) == Parent(prefix, tags, i) && Id(prefix, tags[l]) == Parent(prefix, tags, j))
            || (Id(prefix, tags[k]) == Parent(prefix, tags, j) && Id(prefix, tags[l]) == Parent(prefix, tags, i))
  {
    k := ParentIsNew(prefix, tags, Parent(prefix, tags, i));
    l := ParentIsNew(prefix, tags, Parent(prefix, tags, j));
    if l < k {
      k, l := l, k;
    }
    DeclaredDiffer(prefix, tags, k, l);
  }

  // ── References keep their element ───────────────────────────────

  /** The elements with this id, by position. */
  ghost function Elements(tags: seq<Tag>, id: string): set<nat> {
    set i | 0 <= i < |tags| && GetAttr(tags[i].attrs, "Id") == Some(id)
  }

  /** The elements whose id is not renamed although it equals the new id of another. */
  ghost function Captured(tags: seq<Tag>, m: map<string, string>, id: string): set<nat> {
    set i | 0 <= i < |tags| && GetAttr(tags[i].attrs, "Id").Some?
            && GetAttr(tags[i].attrs, "Id").value !in m && GetAttr(tags[i].attrs, "Id").value == id
  }

  /**
   With an injective map, a reference to a renamed id resolves afterwards to the elements it
   resolved to before, and besides only to elements whose own id is not renamed but equals the
   new one.
   */
  lemma ReferencesResolve(tags: seq<Tag>, m: map<string, string>, id: string)
    requires Injective(m) && id in m
    ensures Elements(RenamedTags(m, tags), m[id]) == Elements(tags, id) + Captured(tags, m, m[id])
  {
    forall i | 0 <= i < |tags|
      ensures i in Elements(RenamedTags(m, tags), m[id]) <==> i in Elements(tags, id) + Captured(tags, m, m[id])
    {
      RenamedAttr(m, tags[i].attrs, "Id");
    }
  }
}
