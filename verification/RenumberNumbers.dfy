/**
 The new ids themselves: which tags are renumbered, that each kind is numbered 1, 2, 3 and so on in
 document order, and what references are called.
 */
module RenumberNumbers {
  import opened Basics
  import opened Decimal
  import opened Renumber
  import opened RenumberMaps
  import opened RenumberTwice
  import opened RenumberGraph

  // ── Which tags count ────────────────────────────────────────────

  /** The attribute counts that comes first. */
  lemma {:induction false} FirstAttributeCounts(attrs: seq<(string, string)>, name: string, a: nat)
    requires a < |attrs| && attrs[a].0 == name && forall b :: 0 <= b < a ==> attrs[b].0 != name
    ensures GetAttr(attrs, name) == Some(attrs[a].1)
  {
    if a > 0 {
      assert forall b :: 0 <= b < a - 1 ==> attrs[1..][b] == attrs[b + 1];
      FirstAttributeCounts(attrs[1..], name, a - 1);
    }
  }

  lemma {:induction false} NoAttribute(attrs: seq<(string, string)>, name: string)
    requires forall b :: 0 <= b < |attrs| ==> attrs[b].0 != name
    ensures GetAttr(attrs, name).None?
  {
    if attrs != [] {
      assert forall b :: 0 <= b < |attrs| - 1 ==> attrs[1..][b] == attrs[b + 1];
      NoAttribute(attrs[1..], name);
    }
  }

  /** The tag has an id that starts with the prefix and these letters. */
  predicate IdStarts(prefix: string, t: Tag, letters: string) {
    GetAttr(t.attrs, "Id").Some? && StartsWith(GetAttr(t.attrs, "Id").value, prefix + letters)
  }

  lemma StartsBehind(id: string, prefix: string, letters: string)
    ensures StartsWith(id, prefix + letters) <==> StartsWith(id, prefix) && StartsWith(id[|prefix|..], letters)
  {
    if |prefix| + |letters| <= |id| {
      assert id[..|prefix| + |letters|] == id[..|prefix|] + id[|prefix|..][..|letters|];
      if StartsWith(id, prefix + letters) {
        assert id[..|prefix| + |letters|] == prefix + letters;
        assert id[..|prefix|] == (prefix + letters)[..|prefix|] == prefix;
        assert id[|prefix|..][..|letters|] == (prefix + letters)[|prefix|..] == letters;
      }
    }
  }

  /** The five kinds of declarations. */
  lemma DeclaresExactlyWhen(prefix: string, t: Tag)
    ensures Declares(prefix, t) == Some(UP) <==> t.name == Parameter && IdStarts(prefix, t, "UP-")
    ensures Declares(prefix, t) == Some(P) <==> t.name == Parameter && IdStarts(prefix, t, "P-")
    ensures Declares(prefix, t) == Some(O) <==> t.name == ComObject && IdStarts(prefix, t, "O-")
    ensures Declares(prefix, t) == Some(PB) <==> t.name == ParameterBlock && IdStarts(prefix, t, "PB-")
    ensures Declares(prefix, t) == Some(PS) <==> t.name == ParameterSeparator && IdStarts(prefix, t, "PS-")
  {
    if GetAttr(t.attrs, "Id").Some? {
      var id := GetAttr(t.attrs, "Id").value;
      StartsBehind(id, prefix, "UP-");
      StartsBehind(id, prefix, "P-");
      StartsBehind(id, prefix, "O-");
      StartsBehind(id, prefix, "PB-");
      StartsBehind(id, prefix, "PS-");
      if StartsWith(id, prefix) {
        MarkersIn(t.name, id[|prefix|..]);
      }
    }
  }

  lemma MarkersIn(name: Name, s: string)
    ensures MarkerIn(name, s) == Some(UP) <==> name == Parameter && StartsWith(s, "UP-")
    ensures MarkerIn(name, s) == Some(P) <==> name == Parameter && StartsWith(s, "P-")
    ensures MarkerIn(name, s) == Some(O) <==> name == ComObject && StartsWith(s, "O-")
    ensures MarkerIn(name, s) == Some(PB) <==> name == ParameterBlock && StartsWith(s, "PB-")
    ensures MarkerIn(name, s) == Some(PS) <==> name == ParameterSeparator && StartsWith(s, "PS-")
  {
    if StartsWith(s, "UP-") {
      assert s[0] == "UP-"[0];
    }
    if StartsWith(s, "P-") {
      assert s[0] == "P-"[0];
    }
  }

  /** A renumbered id is called after its kind. */
  lemma NewIdIs(prefix: string, n: nat)
    ensures NewId(prefix, UP, n) == prefix + "UP-" + Digits(n)
    ensures NewId(prefix, P, n) == prefix + "P-" + Digits(n)
    ensures NewId(prefix, O, n) == prefix + "O-" + Digits(n)
    ensures NewId(prefix, PB, n) == prefix + "PB-" + Digits(n)
    ensures NewId(prefix, PS, n) == prefix + "PS-" + Digits(n)
  {
    forall m: Marker ensures NewId(prefix, m, n) == prefix + (Text(m) + "-") + Digits(n) {
      Associative(prefix, Text(m), "-");
    }
    assert "UP" + "-" == "UP-" && "P" + "-" == "P-" && "O" + "-" == "O-" && "PB" + "-" == "PB-" && "PS" + "-" == "PS-";
  }

  // ── Numbered in document order ──────────────────────────────────

  /** Where the declarations with this tag name are. */
  function Positions(prefix: string, tags: seq<Tag>, name: Name): seq<nat> {
    if tags == [] then []
    else
      var n := |tags| - 1;
      Positions(prefix, tags[..n], name)
      + (if tags[n].name == name && Declares(prefix, tags[n]).Some? then [n] else [])
  }

  /** These are all declarations with that name. */
  lemma {:induction false} PositionsAre(prefix: string, tags: seq<Tag>, name: Name, i: nat)
    ensures i in Positions(prefix, tags, name) <==> i < |tags| && tags[i].name == name && Declares(prefix, tags[i]).Some?
  {
    if tags != [] {
      PositionsAre(prefix, tags[..|tags| - 1], name, i);
    }
  }

  /** They are in document order. */
  lemma {:induction false} PositionsAscend(prefix: string, tags: seq<Tag>, name: Name)
    ensures forall k, l :: 0 <= k < l < |Positions(prefix, tags, name)| ==>
              Positions(prefix, tags, name)[k] < Positions(prefix, tags, name)[l]
  {
    if tags != [] {
      var before := Positions(prefix, tags[..|tags| - 1], name);
      PositionsAscend(prefix, tags[..|tags| - 1], name);
      forall k | 0 <= k < |before| ensures before[k] < |tags| - 1 {
        PositionsAre(prefix, tags[..|tags| - 1], name, before[k]);
      }
    }
  }

  lemma {:induction false} NumberAtPosition(prefix: string, tags: seq<Tag>, name: Name, k: nat)
    requires name != ComObject && k < |Positions(prefix, tags, name)|
    ensures var i := Positions(prefix, tags, name)[k];
            && i < |tags| && tags[i].name == name && Declares(prefix, tags[i]).Some?
            && Number(prefix, tags[..i], tags[i]) == k + 1
  {
    var n := |tags| - 1;
    var before := Positions(prefix, tags[..n], name);
    CountIsLength(prefix, tags[..n], name);
    if k < |before| {
      NumberAtPosition(prefix, tags[..n], name, k);
      var i := before[k];
      assert tags[..n][..i] == tags[..i];
    }
  }

  lemma {:induction false} CountIsLength(prefix: string, tags: seq<Tag>, name: Name)
    ensures Count(prefix, tags, name) == |Positions(prefix, tags, name)|
  {
    if tags != [] {
      CountIsLength(prefix, tags[..|tags| - 1], name);
    }
  }

  /** The letters of the kind of id a tag declares. */
  function Letters(prefix: string, t: Tag): string {
    if t.name == Parameter then (if IdStarts(prefix, t, "UP-") then "UP-" else "P-")
    else if t.name == ComObject then "O-"
    else if t.name == ParameterBlock then "PB-"
    else "PS-"
  }

  lemma DeclaredIs(prefix: string, tags: seq<Tag>, i: nat)
    requires DeclaredAt(prefix, tags, i)
    ensures Declared(prefix, tags[..i], tags[i])
         == prefix + Letters(prefix, tags[i]) + Digits(Number(prefix, tags[..i], tags[i]))
  {
    DeclaresExactlyWhen(prefix, tags[i]);
    NewIdIs(prefix, Number(prefix, tags[..i], tags[i]));
  }

  /**
   Parameters, blocks and separators are numbered 1, 2, 3 and so on in document order, each kind on
   its own; an id that is declared again has the number of its last declaration.
   */
  lemma NumberedInOrder(prefix: string, tags: seq<Tag>, name: Name, k: nat)
    requires name == Parameter || name == ParameterBlock || name == ParameterSeparator
    requires k < |Positions(prefix, tags, name)|
    ensures var i := Positions(prefix, tags, name)[k];
            && i < |tags| && DeclaredAt(prefix, tags, i)
            && (LastDeclared(prefix, tags, i) && NoRef(prefix, tags, Id(prefix, tags[i])) ==>
                  && Id(prefix, tags[i]) in Renaming(prefix, tags)
                  && Renaming(prefix, tags)[Id(prefix, tags[i])] == prefix + Letters(prefix, tags[i]) + Digits(k + 1))
  {
    var i := Positions(prefix, tags, name)[k];
    NumberAtPosition(prefix, tags, name, k);
    DeclaredIs(prefix, tags, i);
    if LastDeclared(prefix, tags, i) && NoRef(prefix, tags, Id(prefix, tags[i])) {
      ParentsAt(prefix, tags, i);
      Unreferenced(prefix, tags, Id(prefix, tags[i]));
    }
  }

  /** A com-object is called after its own Number. */
  lemma ComObjectKeepsNumber(prefix: string, tags: seq<Tag>, i: nat, number: string, n: nat)
    requires LastDeclared(prefix, tags, i) && NoRef(prefix, tags, Id(prefix, tags[i])) && tags[i].name == ComObject
    requires GetAttr(tags[i].attrs, "Number") == Some(number) && ParseU64(number) == Some(n)
    ensures Id(prefix, tags[i]) in Renaming(prefix, tags)
    ensures Renaming(prefix, tags)[Id(prefix, tags[i])] == prefix + "O-" + Digits(n)
  {
    DeclaredIs(prefix, tags, i);
    ParentsAt(prefix, tags, i);
    Unreferenced(prefix, tags, Id(prefix, tags[i]));
  }

  // ── Which documents can be renumbered ───────────────────────────

  /** The declaration is no com-object without an integer Number. */
  predicate GoodNumber(prefix: string, t: Tag) {
    t.name == ComObject && IdStarts(prefix, t, "O-") ==>
      GetAttr(t.attrs, "Number").Some? && ParseU64(GetAttr(t.attrs, "Number").value).Some?
  }

  /** The id is split at the first boundary behind a declared id. */
  ghost predicate SplitsBehind(prefix: string, tags: seq<Tag>, id: string, parent: string, suffix: string) {
    && id == parent + "_R-" + suffix
    && (exists k :: 0 <= k < |tags| && DeclaredAt(prefix, tags, k) && Id(prefix, tags[k]) == parent)
    && forall p :: 0 <= p < |parent| && p + 3 <= |id| && id[p..p + 3] == "_R-" ==>
         forall k :: 0 <= k < |tags| && DeclaredAt(prefix, tags, k) ==> Id(prefix, tags[k]) != id[..p]
  }

  lemma KeysAreDeclared(prefix: string, tags: seq<Tag>, id: string)
    ensures id in Parents(prefix, tags) <==> exists k :: 0 <= k < |tags| && DeclaredAt(prefix, tags, k) && Id(prefix, tags[k]) == id
  {
    if id in Parents(prefix, tags) {
      var k := ParentsFrom(prefix, tags, id);
    }
    if exists k :: 0 <= k < |tags| && DeclaredAt(prefix, tags, k) && Id(prefix, tags[k]) == id {
      var k :| 0 <= k < |tags| && DeclaredAt(prefix, tags, k) && Id(prefix, tags[k]) == id;
      ParentsAt(prefix, tags, k);
    }
  }

  /** Which parent and suffix a reference has. */
  lemma ParentIs(prefix: string, tags: seq<Tag>, id: string, parent: string, suffix: string)
    requires SplitsBehind(prefix, tags, id, parent, suffix)
    ensures ParentOf(id, Parents(prefix, tags).Keys) == Some(parent)
    ensures SuffixOf(id, Parents(prefix, tags).Keys) == suffix
  {
    var keys := Parents(prefix, tags).Keys;
    var p := |parent|;
    KeysAreDeclared(prefix, tags, parent);
    assert id[..p] == parent && id[p..p + 3] == "_R-" && id[p + 3..] == suffix;
    forall q | 0 <= q < p ensures !SplitsAt(id, keys, q) {
      if BoundaryAt(id, q) {
        KeysAreDeclared(prefix, tags, id[..q]);
      }
    }
    FirstSplit(id, keys, p);
  }

  // ── What references are called ──────────────────────────────────

  /** A number with at least two digits. */
  function AtLeastTwo(n: nat): string {
    if n < 10 then "0" + Digits(n) else Digits(n)
  }

  /** Where the parameter references of a parent are. */
  ghost function RefPositions(prefix: string, tags: seq<Tag>, all: seq<Tag>, parent: string): seq<nat> {
    if tags == [] then []
    else
      var n := |tags| - 1;
      RefPositions(prefix, tags[..n], all, parent)
      + (if RefUnder(prefix, Parents(prefix, all).Keys, tags[n], ParameterRef, parent) then [n] else [])
  }

  lemma {:induction false} RefPositionsAre(prefix: string, tags: seq<Tag>, all: seq<Tag>, parent: string, i: nat)
    ensures i in RefPositions(prefix, tags, all, parent)
            <==> i < |tags| && RefUnder(prefix, Parents(prefix, all).Keys, tags[i], ParameterRef, parent)
  {
    if tags != [] {
      RefPositionsAre(prefix, tags[..|tags| - 1], all, parent, i);
    }
  }

  lemma {:induction false} RefPositionsAscend(prefix: string, tags: seq<Tag>, all: seq<Tag>, parent: string)
    ensures var p := RefPositions(prefix, tags, all, parent); forall k, l :: 0 <= k < l < |p| ==> p[k] < p[l]
  {
    if tags != [] {
      var before := RefPositions(prefix, tags[..|tags| - 1], all, parent);
      RefPositionsAscend(prefix, tags[..|tags| - 1], all, parent);
      forall k | 0 <= k < |before| ensures before[k] < |tags| - 1 {
        RefPositionsAre(prefix, tags[..|tags| - 1], all, parent, before[k]);
      }
    }
  }

  lemma {:induction false} InstancesAreLength(prefix: string, tags: seq<Tag>, all: seq<Tag>, parent: string)
    ensures Instances(prefix, Parents(prefix, all).Keys, tags, parent) == |RefPositions(prefix, tags, all, parent)|
  {
    if tags != [] {
      InstancesAreLength(prefix, tags[..|tags| - 1], all, parent);
    }
  }

  lemma {:induction false} InstanceAtPosition(prefix: string, tags: seq<Tag>, all: seq<Tag>, parent: string, k: nat)
    requires k < |RefPositions(prefix, tags, all, parent)|
    ensures var i := RefPositions(prefix, tags, all, parent)[k];
            && i < |tags| && RefUnder(prefix, Parents(prefix, all).Keys, tags[i], ParameterRef, parent)
            && Instances(prefix, Parents(prefix, all).Keys, tags[..i + 1], parent) == k + 1
  {
    var n := |tags| - 1;
    var before := RefPositions(prefix, tags[..n], all, parent);
    InstancesAreLength(prefix, tags, all, parent);
    if k < |before| {
      InstanceAtPosition(prefix, tags[..n], all, parent, k);
      assert tags[..n][..before[k] + 1] == tags[..before[k] + 1];
    } else {
      assert tags[..n + 1] == tags;
    }
  }

  /**
   The k-th parameter reference of a parent, counted from one, is called after the new id of the
   parent, its number, and the two digits of k.
   */
  lemma ParameterReferences(prefix: string, tags: seq<Tag>, parent: string, k: nat) returns (n: nat)
    requires Built(prefix, tags).Ok? && k < |RefPositions(prefix, tags, tags, parent)|
    ensures var i := RefPositions(prefix, tags, tags, parent)[k];
            var m := Renaming(prefix, tags);
            && i < |tags| && RefAt(prefix, tags, i) && parent in m
            && (exists letters :: letters in {"UP-", "P-", "O-"} && m[parent] == prefix + letters + Digits(n))
            && (LastRef(prefix, tags, i) ==>
                  && Id(prefix, tags[i]) in m
                  && m[Id(prefix, tags[i])] == m[parent] + "_R-" + (Digits(n) + AtLeastTwo(k + 1)))
  {
    var i := RefPositions(prefix, tags, tags, parent)[k];
    InstanceAtPosition(prefix, tags, tags, parent, k);
    NothingFaulty(prefix, tags, i);
    ParentIsNoRef(prefix, tags, i);
    n := NumberOfParent(prefix, tags, parent);
    RenamingAt(prefix, tags, i);
    CalledAfterNumber(prefix, tags, i, n, k + 1);
  }

  lemma CalledAfterNumber(prefix: string, tags: seq<Tag>, i: nat, n: nat, k: nat)
    requires RefAt(prefix, tags, i) && tags[i].name == ParameterRef && Parent(prefix, tags, i) in Indexes(prefix, tags)
    requires Indexes(prefix, tags)[Parent(prefix, tags, i)] == n && Instance(prefix, tags, i) == k
    ensures NewSuffix(prefix, tags, i) == Digits(n) + AtLeastTwo(k)
  {
    ParameterSuffix(prefix, tags, i);
  }

  /** The number that references of a parent start with is the one in its new id. */
  lemma NumberOfParent(prefix: string, tags: seq<Tag>, parent: string) returns (n: nat)
    requires parent in Parents(prefix, tags) && parent in Indexes(prefix, tags)
    ensures Indexes(prefix, tags)[parent] == n
    ensures exists letters :: letters in {"UP-", "P-", "O-"} && Parents(prefix, tags)[parent] == prefix + letters + Digits(n)
  {
    var k := ParentIsNew(prefix, tags, parent);
    var j := IndexesFrom(prefix, tags, parent);
    SameKind(prefix, tags[k], tags[j]);
    IndexesAt(prefix, tags, k);
    n := Number(prefix, tags[..k], tags[k]);
    DeclaredIs(prefix, tags, k);
    assert Letters(prefix, tags[k]) in {"UP-", "P-", "O-"};
  }

  /** A com-object reference that carries an integer keeps it. */
  lemma CarriedNumberIsKept(prefix: string, tags: seq<Tag>, i: nat, parent: string, suffix: string, n: nat)
    requires Built(prefix, tags).Ok? && LastRef(prefix, tags, i) && tags[i].name == ComObjectRef
    requires SplitsBehind(prefix, tags, Id(prefix, tags[i]), parent, suffix) && ParseU64(suffix) == Some(n)
    ensures var m := Renaming(prefix, tags);
            && Id(prefix, tags[i]) in m && parent in m
            && m[Id(prefix, tags[i])] == m[parent] + "_R-" + Digits(n)
  {
    ParentIs(prefix, tags, Id(prefix, tags[i]), parent, suffix);
    RenamingAt(prefix, tags, i);
    ParentIsNoRef(prefix, tags, i);
  }

  /** Reference `i` of the parent is handed a number. */
  ghost predicate GetsNumber(prefix: string, tags: seq<Tag>, i: nat, parent: string) {
    && RefAt(prefix, tags, i) && tags[i].name == ComObjectRef && Parent(prefix, tags, i) == parent
    && Kept(prefix, Parents(prefix, tags).Keys, tags[i]).None?
  }

  /** What is in use after the first tags was carried by a reference, or handed out to one of them. */
  lemma {:induction false} UsedFrom(prefix: string, tags: seq<Tag>, parent: string, k: nat, x: nat)
    requires k <= |tags|
    requires x in SupplyAfter(prefix, Parents(prefix, tags).Keys, tags, tags[..k], parent).used
    ensures x in Carried(prefix, Parents(prefix, tags).Keys, tags, parent)
            || exists j :: 0 <= j < k && GetsNumber(prefix, tags, j, parent) && SuffixNumber(prefix, tags, j) == x
  {
    var keys := Parents(prefix, tags).Keys;
    if k > 0 {
      if x in SupplyAfter(prefix, keys, tags, tags[..k - 1], parent).used {
        UsedFrom(prefix, tags, parent, k - 1, x);
      } else {
        UsedNow(prefix, tags, parent, k - 1, x);
      }
    }
  }

  lemma UsedNow(prefix: string, tags: seq<Tag>, parent: string, k: nat, x: nat)
    requires k < |tags|
    requires x in SupplyAfter(prefix, Parents(prefix, tags).Keys, tags, tags[..k + 1], parent).used
    requires x !in SupplyAfter(prefix, Parents(prefix, tags).Keys, tags, tags[..k], parent).used
    ensures GetsNumber(prefix, tags, k, parent) && SuffixNumber(prefix, tags, k) == x
  {
    SupplyMore(prefix, Parents(prefix, tags).Keys, tags, k + 1, parent);
  }

  /**
   A com-object reference without an integer is handed the least positive number that no reference
   of its parent carries and none before it was handed.
   */
  lemma LeastFreeNumber(prefix: string, tags: seq<Tag>, i: nat, parent: string)
    requires Built(prefix, tags).Ok? && GetsNumber(prefix, tags, i, parent)
    ensures var n := SuffixNumber(prefix, tags, i);
            && n > 0 && n !in Carried(prefix, Parents(prefix, tags).Keys, tags, parent)
            && (forall j :: 0 <= j < i && GetsNumber(prefix, tags, j, parent) ==> SuffixNumber(prefix, tags, j) != n)
            && (forall x :: 0 < x < n ==>
                  x in Carried(prefix, Parents(prefix, tags).Keys, tags, parent)
                  || exists j :: 0 <= j < i && GetsNumber(prefix, tags, j, parent) && SuffixNumber(prefix, tags, j) == x)
            && (LastRef(prefix, tags, i) ==>
                  && Id(prefix, tags[i]) in Renaming(prefix, tags) && parent in Renaming(prefix, tags)
                  && Renaming(prefix, tags)[Id(prefix, tags[i])] == Renaming(prefix, tags)[parent] + "_R-" + Digits(n))
  {
    var keys := Parents(prefix, tags).Keys;
    var n := SuffixNumber(prefix, tags, i);
    HandedOut(prefix, tags, i);
    CarriedIsUsed(prefix, keys, tags, i, parent);
    SupplyMore(prefix, keys, tags, i + 1, parent);
    forall j | 0 <= j < i && GetsNumber(prefix, tags, j, parent) ensures SuffixNumber(prefix, tags, j) != n {
      SuffixesDiffer(prefix, tags, j, i);
    }
    var s := SupplyAfter(prefix, keys, tags, tags[..i], parent);
    SupplyIsDense(prefix, keys, tags, tags[..i], parent);
    PositivesHave(s.last);
    forall x | 0 < x < n
      ensures x in Carried(prefix, keys, tags, parent)
              || exists j :: 0 <= j < i && GetsNumber(prefix, tags, j, parent) && SuffixNumber(prefix, tags, j) == x
    {
      assert x in s.used;
      UsedFrom(prefix, tags, parent, i, x);
    }
    RenamingAt(prefix, tags, i);
    ParentIsNoRef(prefix, tags, i);
  }

  // ── What is renamed ─────────────────────────────────────────────

  /** Exactly the declared ids and those of references are renamed. */
  lemma RenamedExactlyWhen(prefix: string, tags: seq<Tag>, id: string)
    ensures id in Renaming(prefix, tags) <==> exists i :: 0 <= i < |tags| && EntryAt(prefix, tags, i) && Id(prefix, tags[i]) == id
  {
    if id in Renaming(prefix, tags) {
      var i := OwnEntry(prefix, tags, id);
    }
    if exists i :: 0 <= i < |tags| && EntryAt(prefix, tags, i) && Id(prefix, tags[i]) == id {
      var i :| 0 <= i < |tags| && EntryAt(prefix, tags, i) && Id(prefix, tags[i]) == id;
      if DeclaredAt(prefix, tags, i) {
        DeclaredIsRenamed(prefix, tags, i);
      } else {
        RenamingAt(prefix, tags, i);
      }
    }
  }

  /** The reference belongs to a declared id; one to a parameter or com-object does not lack a number. */
  ghost predicate GoodParent(prefix: string, tags: seq<Tag>, t: Tag) {
    IsRef(prefix, t) ==>
      && ParentOf(Id(prefix, t), Parents(prefix, tags).Keys).Some?
      && (t.name == ParameterRef ==>
            exists k :: 0 <= k < |tags| && DeclaredAt(prefix, tags, k) && (tags[k].name == Parameter || tags[k].name == ComObject)
                        && Id(prefix, tags[k]) == ParentOf(Id(prefix, t), Parents(prefix, tags).Keys).value)
  }

  /** A document can be renumbered exactly if its com-objects have integer Numbers and its references good parents. */
  lemma BuiltExactlyWhen(prefix: string, tags: seq<Tag>)
    ensures Built(prefix, tags).Ok?
            <==> forall i :: 0 <= i < |tags| ==> GoodNumber(prefix, tags[i]) && GoodParent(prefix, tags, tags[i])
  {
    forall i | 0 <= i < |tags|
      ensures DeclarationFault(prefix, tags[i]).None? <==> GoodNumber(prefix, tags[i])
      ensures RefFaultAt(prefix, tags, i).None? <==> GoodParent(prefix, tags, tags[i])
    {
      NumberFault(prefix, tags[i]);
      ParentFault(prefix, tags, i);
    }
    if Built(prefix, tags).Ok? {
      forall i | 0 <= i < |tags| ensures GoodNumber(prefix, tags[i]) && GoodParent(prefix, tags, tags[i]) {
        NothingFaulty(prefix, tags, i);
      }
    } else if forall i :: 0 <= i < |tags| ==> GoodNumber(prefix, tags[i]) && GoodParent(prefix, tags, tags[i]) {
      NoneFirst(DeclarationFaults(prefix, tags));
      NoneFirst(RefFaults(prefix, tags));
    }
  }

  lemma NumberFault(prefix: string, t: Tag)
    ensures DeclarationFault(prefix, t).None? <==> GoodNumber(prefix, t)
  {
    DeclaresExactlyWhen(prefix, t);
    if Declares(prefix, t).Some? {
      MarkerLetters(t.name, Id(prefix, t)[|prefix|..]);
    }
  }

  lemma ParentFault(prefix: string, tags: seq<Tag>, i: nat)
    requires i < |tags|
    ensures RefFaultAt(prefix, tags, i).None? <==> GoodParent(prefix, tags, tags[i])
  {
    var t := tags[i];
    if IsRef(prefix, t) && ParentOf(Id(prefix, t), Parents(prefix, tags).Keys).Some? {
      var parent := ParentOf(Id(prefix, t), Parents(prefix, tags).Keys).value;
      if parent in Indexes(prefix, tags) {
        var k := IndexesFrom(prefix, tags, parent);
      }
      forall k | 0 <= k < |tags| && DeclaredAt(prefix, tags, k) && HasIndex(tags[k]) && Id(prefix, tags[k]) == parent
        ensures parent in Indexes(prefix, tags)
      {
        IndexesAt(prefix, tags, k);
      }
    }
  }

  lemma {:induction false} FirstFaultIs(faults: seq<Option<Fault>>, i: nat)
    requires i < |faults| && faults[i].Some? && forall j :: 0 <= j < i ==> faults[j].None?
    ensures FirstFault(faults) == faults[i]
  {
    if i > 0 {
      assert forall j :: 0 <= j < i - 1 ==> faults[1..][j] == faults[j + 1];
      FirstFaultIs(faults[1..], i - 1);
    }
  }

  /** The first com-object without an integer Number is reported, with what is wrong about it. */
  lemma BadNumberIsReported(prefix: string, tags: seq<Tag>, i: nat)
    requires i < |tags| && !GoodNumber(prefix, tags[i]) && forall j :: 0 <= j < i ==> GoodNumber(prefix, tags[j])
    ensures GetAttr(tags[i].attrs, "Id").Some?
    ensures var id := GetAttr(tags[i].attrs, "Id").value;
            Built(prefix, tags) == Err(if GetAttr(tags[i].attrs, "Number").None? then NoNumber(id) else BadNumber(id))
  {
    forall j | 0 <= j <= i ensures DeclarationFault(prefix, tags[j]).None? <==> GoodNumber(prefix, tags[j]) {
      NumberFault(prefix, tags[j]);
    }
    FirstFaultIs(DeclarationFaults(prefix, tags), i);
  }

  /** With good Numbers, the first reference without a good parent is reported. */
  lemma BadParentIsReported(prefix: string, tags: seq<Tag>, i: nat)
    requires forall j :: 0 <= j < |tags| ==> GoodNumber(prefix, tags[j])
    requires i < |tags| && !GoodParent(prefix, tags, tags[i])
    requires forall j :: 0 <= j < i ==> GoodParent(prefix, tags, tags[j])
    ensures var id := Id(prefix, tags[i]);
            Built(prefix, tags) == Err(if ParentOf(id, Parents(prefix, tags).Keys).None? then UndeclaredParent(id) else NoIndex(id))
  {
    forall j | 0 <= j < |tags| ensures DeclarationFault(prefix, tags[j]).None? {
      NumberFault(prefix, tags[j]);
    }
    NoneFirst(DeclarationFaults(prefix, tags));
    forall j | 0 <= j <= i ensures RefFaultAt(prefix, tags, j).None? <==> GoodParent(prefix, tags, tags[j]) {
      ParentFault(prefix, tags, j);
    }
    FirstFaultIs(RefFaults(prefix, tags), i);
  }

  /** Exactly parameter and com-object references with an id under the prefix are renamed as references. */
  lemma RefsExactlyWhen(prefix: string, t: Tag)
    ensures IsRef(prefix, t) <==> (t.name == ParameterRef || t.name == ComObjectRef) && IdStarts(prefix, t, "")
  {
    EmptyIsUnit(prefix);
  }
}
