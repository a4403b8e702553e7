/**
 Documents that renumbering does not treat well: one whose second renumbering changes it again,
 because two com-objects share a number, and one in which two references get the same new id.
 */
module RenumberExample {
  import opened Basics
  import opened Decimal
  import opened Renumber
  import opened RenumberMaps
  import opened RenumberTwice
  import opened RenumberGraph

  const PREFIX: string := "p_"

  function ComObjectTag(id: string): Tag {
    Tag(ComObject, [("Id", id), ("Number", "5")])
  }

  function RefTag(id: string): Tag {
    Tag(ParameterRef, [("Id", id)])
  }

  const SHARED: seq<Tag> := [ComObjectTag("p_O-a"), ComObjectTag("p_O-b"), RefTag("p_O-a_R-x"), RefTag("p_O-b_R-x")]

  lemma Attributes(id: string)
    ensures GetAttr(ComObjectTag(id).attrs, "Id") == Some(id)
    ensures GetAttr(ComObjectTag(id).attrs, "Number") == Some("5")
    ensures GetAttr(RefTag(id).attrs, "Id") == Some(id)
  {
    var attrs := ComObjectTag(id).attrs;
    assert attrs[1..] == [("Number", "5")];
    assert "Id" != "Number";
  }

  lemma Five()
    ensures ParseU64("5") == Some(5)
  {
    assert "5"[..0] == [];
  }

  lemma SharedDeclarations(id: string)
    requires StartsWith(id, "p_O-")
    ensures Declares(PREFIX, ComObjectTag(id)) == Some(O) && Id(PREFIX, ComObjectTag(id)) == id
    ensures forall before :: Number(PREFIX, before, ComObjectTag(id)) == 5
  {
    Attributes(id);
    Five();
    assert StartsWith(id, PREFIX);
    assert "p_O-"[2..] == "O-";
    assert id[2..][..2] == id[2..4] == "p_O-"[2..4];
  }

  lemma SharedParents()
    ensures forall i :: 0 <= i < 2 ==> DeclaredAt(PREFIX, SHARED, i)
    ensures "p_O-a" in Parents(PREFIX, SHARED) && "p_O-a" in Indexes(PREFIX, SHARED)
    ensures "p_O-b" in Parents(PREFIX, SHARED) && "p_O-b" in Indexes(PREFIX, SHARED)
    ensures Parents(PREFIX, SHARED)["p_O-a"] == NewId(PREFIX, O, 5) == Parents(PREFIX, SHARED)["p_O-b"]
  {
    SharedDeclarations("p_O-a");
    SharedDeclarations("p_O-b");
    assert "p_O-a" != "p_O-b" by {
      assert "p_O-a"[4] != "p_O-b"[4];
    }
    assert SHARED[0] == ComObjectTag("p_O-a") && SHARED[1] == ComObjectTag("p_O-b");
    assert LastDeclared(PREFIX, SHARED, 0) && LastDeclared(PREFIX, SHARED, 1);
    ParentsAt(PREFIX, SHARED, 0);
    ParentsAt(PREFIX, SHARED, 1);
    IndexesAt(PREFIX, SHARED, 0);
    IndexesAt(PREFIX, SHARED, 1);
  }

  lemma NumberIsFine(id: string)
    ensures DeclarationFault(PREFIX, ComObjectTag(id)).None?
  {
    Attributes(id);
    Five();
  }

  lemma FaultlessIsBuilt(tags: seq<Tag>)
    requires forall i :: 0 <= i < |tags| ==> DeclarationFault(PREFIX, tags[i]).None? && RefFaultAt(PREFIX, tags, i).None?
    ensures Built(PREFIX, tags).Ok?
  {
    NoneFirst(DeclarationFaults(PREFIX, tags));
    NoneFirst(RefFaults(PREFIX, tags));
  }

  /** A reference belongs to the com-object it is named after. */
  lemma NamedAfter(tags: seq<Tag>, i: nat, name: Name, id: string, parent: string, suffix: string)
    requires i < |tags| && tags[i] == Tag(name, [("Id", id)]) && (name == ParameterRef || name == ComObjectRef)
    requires |parent| == 5 && parent[..4] == "p_O-" && parent[4] != '_' && id == parent + BOUNDARY + suffix
    requires parent in Parents(PREFIX, tags) && parent in Indexes(PREFIX, tags)
    ensures RefAt(PREFIX, tags, i) && Id(PREFIX, tags[i]) == id && Parent(PREFIX, tags, i) == parent
    ensures SuffixOf(id, Parents(PREFIX, tags).Keys) == suffix && RefFaultAt(PREFIX, tags, i).None?
  {
    var keys := Parents(PREFIX, tags).Keys;
    assert GetAttr(tags[i].attrs, "Id") == Some(id);
    assert id[5..8] == BOUNDARY && id[..5] == parent && id[8..] == suffix;
    assert forall k :: 0 <= k < 4 ==> id[k] == parent[..4][k];
    forall q | 0 <= q < 5 ensures !SplitsAt(id, keys, q) {
      assert id[q..q + 3][0] == id[q] && id[q..q + 3][1] == id[q + 1];
    }
    FirstSplit(id, keys, 5);
    assert id[..2] == PREFIX;
    assert IsRef(PREFIX, tags[i]);
  }

  /** This document can be renumbered, but its second renumbering is not the identity. */
  lemma SharedNumberChangesAgain()
    ensures Built(PREFIX, SHARED).Ok? && Built(PREFIX, Again(PREFIX, SHARED)).Ok?
    ensures !IsIdentity(Built(PREFIX, Again(PREFIX, SHARED)).value)
  {
    SharedParents();
    NamedAfter(SHARED, 2, ParameterRef, "p_O-a_R-x", "p_O-a", "x");
    NamedAfter(SHARED, 3, ParameterRef, "p_O-b_R-x", "p_O-b", "x");
    NumberIsFine("p_O-a");
    NumberIsFine("p_O-b");
    FaultlessIsBuilt(SHARED);
    assert "p_O-a"[4] != "p_O-b"[4];
    assert Merges(PREFIX, SHARED, 2, 3) && LastOfNew(PREFIX, SHARED, 3);
    RenumberingTwice(PREFIX, SHARED);
  }

  // ── Two kinds of references under one parent ────────────────────

  const MIXED: seq<Tag> := [ComObjectTag("p_O-a"), RefTag("p_O-a_R-x"), Tag(ComObjectRef, [("Id", "p_O-a_R-501")])]

  /** A com-object, a parameter reference of it, and a com-object reference with this suffix. */
  predicate IsMixed(tags: seq<Tag>, parent: string, suffix: string) {
    && |parent| == 5 && parent[..4] == "p_O-" && parent[4] != '_'
    && |tags| == 3 && tags[0] == ComObjectTag(parent)
    && tags[1] == RefTag(parent + BOUNDARY + "x") && tags[2] == Tag(ComObjectRef, [("Id", parent + BOUNDARY + suffix)])
  }

  lemma MixedParents(tags: seq<Tag>, parent: string, suffix: string)
    requires IsMixed(tags, parent, suffix)
    ensures DeclaredAt(PREFIX, tags, 0) && Id(PREFIX, tags[0]) == parent
    ensures parent in Parents(PREFIX, tags) && parent in Indexes(PREFIX, tags) && Indexes(PREFIX, tags)[parent] == 5
  {
    SharedDeclarations(parent);
    assert LastDeclared(PREFIX, tags, 0);
    ParentsAt(PREFIX, tags, 0);
    IndexesAt(PREFIX, tags, 0);
  }

  lemma FiveHundredOne()
    ensures Digits(5) + TwoDigits(1) == "501" == Digits(501) && ParseU64("501") == Some(501)
  {
    assert Digits(5) == "5" && Digits(1) == "1" && Digits(50) == Digits(5) + "0" && Digits(501) == Digits(50) + "1";
    ParsesBack(501);
  }

  lemma MixedBelong(tags: seq<Tag>, parent: string, suffix: string)
    requires IsMixed(tags, parent, suffix)
    ensures RefAt(PREFIX, tags, 1) && RefAt(PREFIX, tags, 2)
    ensures Id(PREFIX, tags[1]) == parent + BOUNDARY + "x" && Id(PREFIX, tags[2]) == parent + BOUNDARY + suffix
    ensures Parent(PREFIX, tags, 1) == parent == Parent(PREFIX, tags, 2)
    ensures SuffixOf(Id(PREFIX, tags[2]), Parents(PREFIX, tags).Keys) == suffix
    ensures RefFaultAt(PREFIX, tags, 1).None? && RefFaultAt(PREFIX, tags, 2).None?
  {
    MixedParents(tags, parent, suffix);
    NamedAfter(tags, 1, ParameterRef, parent + BOUNDARY + "x", parent, "x");
    NamedAfter(tags, 2, ComObjectRef, parent + BOUNDARY + suffix, parent, suffix);
  }

  lemma FirstInstance(tags: seq<Tag>, parent: string, suffix: string)
    requires IsMixed(tags, parent, suffix) && RefAt(PREFIX, tags, 1) && Parent(PREFIX, tags, 1) == parent
    ensures Instance(PREFIX, tags, 1) == 1
  {
    var keys := Parents(PREFIX, tags).Keys;
    InstancesMore(PREFIX, keys, tags, 1, parent);
    InstancesMore(PREFIX, keys, tags, 2, parent);
    assert Instances(PREFIX, keys, tags[..0], parent) == 0;
  }

  lemma MixedSuffixes501(tags: seq<Tag>, parent: string, suffix: string)
    requires IsMixed(tags, parent, suffix) && suffix == "501"
    ensures MixedSuffix(PREFIX, tags, 1, 2)
  {
    MixedParents(tags, parent, suffix);
    MixedBelong(tags, parent, suffix);
    FirstInstance(tags, parent, suffix);
    FiveHundredOne();
  }

  lemma MixedIsBuilt(tags: seq<Tag>, parent: string, suffix: string)
    requires IsMixed(tags, parent, suffix)
    ensures Built(PREFIX, tags).Ok?
  {
    MixedBelong(tags, parent, suffix);
    NumberIsFine(parent);
    FaultlessIsBuilt(tags);
  }

  lemma MixedIdsDiffer(tags: seq<Tag>, parent: string, suffix: string)
    requires IsMixed(tags, parent, suffix) && suffix != "x"
    ensures DistinctIds(PREFIX, tags)
  {
    MixedParents(tags, parent, suffix);
    MixedBelong(tags, parent, suffix);
    SuffixesApart(parent, suffix);
  }

  lemma SuffixesApart(parent: string, suffix: string)
    requires suffix != "x"
    ensures parent + BOUNDARY + "x" != parent + BOUNDARY + suffix
    ensures parent != parent + BOUNDARY + "x" && parent != parent + BOUNDARY + suffix
  {
    var start := parent + BOUNDARY;
    assert (start + "x")[|start|..] == "x" && (start + suffix)[|start|..] == suffix;
    assert |start| > |parent|;
  }

  lemma OneOfEachKind(tags: seq<Tag>)
    requires |tags| == 3 && tags[0].name == ComObject && tags[1].name == ParameterRef && tags[2].name == ComObjectRef
    ensures forall i, j :: 0 <= i < j < |tags| ==> !SameNumber(PREFIX, tags, i, j) && !SameSuffix(PREFIX, tags, i, j)
  {
  }

  lemma MixedIs()
    ensures IsMixed(MIXED, "p_O-a", "501")
  {
    assert "p_O-a" + BOUNDARY + "x" == "p_O-a_R-x" && "p_O-a" + BOUNDARY + "501" == "p_O-a_R-501";
    assert "p_O-a"[..4] == "p_O-";
  }

  lemma MixedCollide(tags: seq<Tag>, parent: string, suffix: string)
    requires IsMixed(tags, parent, suffix) && suffix == "501"
    ensures Built(PREFIX, tags).Ok? && DistinctIds(PREFIX, tags)
    ensures forall i, j :: 0 <= i < j < |tags| ==> !SameNumber(PREFIX, tags, i, j) && !SameSuffix(PREFIX, tags, i, j)
    ensures !Injective(Renaming(PREFIX, tags))
  {
    assert "501"[0] != "x"[0];
    MixedIsBuilt(tags, parent, suffix);
    MixedIdsDiffer(tags, parent, suffix);
    MixedSuffixes501(tags, parent, suffix);
    OneOfEachKind(tags);
    InjectiveExactlyWhen(PREFIX, tags);
  }

  /**
   This document can be renumbered, its ids are distinct, and no number occurs twice; still its two
   references get the same new id, because one is a parameter reference and the other is not.
   */
  lemma MixedReferencesCollide()
    ensures Built(PREFIX, MIXED).Ok? && DistinctIds(PREFIX, MIXED)
    ensures forall i, j :: 0 <= i < j < |MIXED| ==> !SameNumber(PREFIX, MIXED, i, j) && !SameSuffix(PREFIX, MIXED, i, j)
    ensures !Injective(Renaming(PREFIX, MIXED))
  {
    MixedIs();
    MixedCollide(MIXED, "p_O-a", "501");
  }
}
