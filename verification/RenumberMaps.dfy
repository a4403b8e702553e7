/** What the renaming map holds: for each id, the entry of the last tag that declares it or is it. */
module RenumberMaps {
  import opened Basics
  import opened Decimal
  import opened Renumber

  // ── Inserting entries in order ──────────────────────────────────

  ghost predicate Inserts<V(!new)>(entries: seq<Option<(string, V)>>, i: nat, key: string) {
    i < |entries| && entries[i].Some? && entries[i].value.0 == key
  }

  ghost predicate InsertsLast<V(!new)>(entries: seq<Option<(string, V)>>, i: nat, key: string) {
    Inserts(entries, i, key) && forall j :: i < j < |entries| ==> !Inserts(entries, j, key)
  }

  lemma {:induction false} LastEntryCounts<V(!new)>(base: map<string, V>, entries: seq<Option<(string, V)>>, i: nat, key: string)
    requires Inserts(entries, i, key)
    ensures key in Inserted(base, entries)
    ensures InsertsLast(entries, i, key) ==> Inserted(base, entries)[key] == entries[i].value.1
    decreases |entries|
  {
    var n := |entries| - 1;
    if i < n {
      LastEntryCounts(base, entries[..n], i, key);
      if InsertsLast(entries, i, key) {
        assert !Inserts(entries, n, key);
        forall j | i < j < n ensures !Inserts(entries[..n], j, key) {
          assert !Inserts(entries, j, key);
        }
      }
    }
  }

  lemma {:induction false} WithoutEntry<V(!new)>(base: map<string, V>, entries: seq<Option<(string, V)>>, key: string)
    requires forall i :: 0 <= i < |entries| ==> !Inserts(entries, i, key)
    ensures key in Inserted(base, entries) <==> key in base
    ensures key in base ==> Inserted(base, entries)[key] == base[key]
  {
    if entries != [] {
      var n := |entries| - 1;
      assert !Inserts(entries, n, key);
      forall i | 0 <= i < n ensures !Inserts(entries[..n], i, key) {
        assert !Inserts(entries, i, key);
      }
      WithoutEntry(base, entries[..n], key);
    }
  }

  lemma {:induction false} LastEntry<V(!new)>(entries: seq<Option<(string, V)>>, i: nat, key: string) returns (j: nat)
    requires Inserts(entries, i, key)
    ensures i <= j && InsertsLast(entries, j, key)
    decreases |entries| - i
  {
    if InsertsLast(entries, i, key) {
      j := i;
    } else {
      var k :| i < k < |entries| && Inserts(entries, k, key);
      j := LastEntry(entries, k, key);
    }
  }

  lemma EntryOf<V(!new)>(entries: seq<Option<(string, V)>>, key: string) returns (i: nat)
    requires key in Inserted(map[], entries)
    ensures InsertsLast(entries, i, key)
  {
    if j :| 0 <= j < |entries| && Inserts(entries, j, key) {
      i := LastEntry(entries, j, key);
    } else {
      WithoutEntry(map[], entries, key);
      assert false;
    }
  }

  // ── Declarations ────────────────────────────────────────────────

  ghost predicate DeclaredAt(prefix: string, tags: seq<Tag>, i: nat) {
    i < |tags| && Declares(prefix, tags[i]).Some?
  }

  /** No later tag declares the same id. */
  ghost predicate LastDeclared(prefix: string, tags: seq<Tag>, i: nat) {
    && DeclaredAt(prefix, tags, i)
    && forall j :: i < j < |tags| && DeclaredAt(prefix, tags, j) ==> Id(prefix, tags[j]) != Id(prefix, tags[i])
  }

  lemma ParentsAt(prefix: string, tags: seq<Tag>, i: nat)
    requires DeclaredAt(prefix, tags, i)
    ensures Id(prefix, tags[i]) in Parents(prefix, tags)
    ensures LastDeclared(prefix, tags, i) ==>
              Parents(prefix, tags)[Id(prefix, tags[i])] == Declared(prefix, tags[..i], tags[i])
  {
    var entries := DeclarationEntries(prefix, tags);
    var id := Id(prefix, tags[i]);
    if LastDeclared(prefix, tags, i) {
      forall j | i < j < |tags| ensures !Inserts(entries, j, id) {
        assert DeclaredAt(prefix, tags, j) ==> Id(prefix, tags[j]) != id;
      }
      assert InsertsLast(entries, i, id);
    }
    LastEntryCounts(map[], entries, i, id);
  }

  lemma ParentsFrom(prefix: string, tags: seq<Tag>, id: string) returns (i: nat)
    requires id in Parents(prefix, tags)
    ensures LastDeclared(prefix, tags, i) && Id(prefix, tags[i]) == id
  {
    var entries := DeclarationEntries(prefix, tags);
    i := EntryOf(entries, id);
    forall j | i < j < |tags| && DeclaredAt(prefix, tags, j) ensures Id(prefix, tags[j]) != id {
      assert !Inserts(entries, j, id);
    }
  }

  /** The letters of a marker tell the types of ids apart. */
  lemma MarkerLetters(name: Name, s: string)
    requires MarkerIn(name, s).Some?
    ensures var m := MarkerIn(name, s).value;
            && (Text(m) + "-") <= s
            && (m == UP <==> s[0] == 'U') && (m == O <==> s[0] == 'O')
            && (m == P <==> s[0] == 'P' && s[1] == '-') && (m == PB <==> s[0] == 'P' && s[1] == 'B')
            && (m == PS <==> s[0] == 'P' && s[1] == 'S')
            && name == NameDeclaring(m)
  {
  }

  function NameDeclaring(m: Marker): Name {
    match m
    case UP => Parameter
    case P => Parameter
    case O => ComObject
    case PB => ParameterBlock
    case PS => ParameterSeparator
  }

  /** Whichever tags declare an id, they have the same name. */
  lemma SameKind(prefix: string, t: Tag, u: Tag)
    requires Declares(prefix, t).Some? && Declares(prefix, u).Some? && Id(prefix, t) == Id(prefix, u)
    ensures Declares(prefix, t) == Declares(prefix, u) && t.name == u.name
  {
    MarkerLetters(t.name, Id(prefix, t)[|prefix|..]);
    MarkerLetters(u.name, Id(prefix, u)[|prefix|..]);
  }

  lemma IndexesAt(prefix: string, tags: seq<Tag>, i: nat)
    requires DeclaredAt(prefix, tags, i) && HasIndex(tags[i])
    ensures Id(prefix, tags[i]) in Indexes(prefix, tags)
    ensures LastDeclared(prefix, tags, i) ==>
              Indexes(prefix, tags)[Id(prefix, tags[i])] == Number(prefix, tags[..i], tags[i])
  {
    var entries := IndexEntries(prefix, tags);
    var id := Id(prefix, tags[i]);
    if LastDeclared(prefix, tags, i) {
      forall j | i < j < |tags| ensures !Inserts(entries, j, id) {
        assert DeclaredAt(prefix, tags, j) ==> Id(prefix, tags[j]) != id;
      }
      assert InsertsLast(entries, i, id);
    }
    LastEntryCounts(map[], entries, i, id);
  }

  lemma IndexesFrom(prefix: string, tags: seq<Tag>, id: string) returns (i: nat)
    requires id in Indexes(prefix, tags)
    ensures DeclaredAt(prefix, tags, i) && Id(prefix, tags[i]) == id && HasIndex(tags[i])
  {
    i := EntryOf(IndexEntries(prefix, tags), id);
  }

  // ── References ──────────────────────────────────────────────────

  ghost predicate RefAt(prefix: string, tags: seq<Tag>, i: nat) {
    i < |tags| && IsRef(prefix, tags[i]) && ParentOf(Id(prefix, tags[i]), Parents(prefix, tags).Keys).Some?
  }

  /** No later reference has the same id. */
  ghost predicate LastRef(prefix: string, tags: seq<Tag>, i: nat) {
    && RefAt(prefix, tags, i)
    && forall j :: i < j < |tags| && RefAt(prefix, tags, j) ==> Id(prefix, tags[j]) != Id(prefix, tags[i])
  }

  ghost predicate NoRef(prefix: string, tags: seq<Tag>, id: string) {
    forall j :: 0 <= j < |tags| && RefAt(prefix, tags, j) ==> Id(prefix, tags[j]) != id
  }

  ghost function Parent(prefix: string, tags: seq<Tag>, i: nat): string
    requires RefAt(prefix, tags, i)
  {
    ParentOf(Id(prefix, tags[i]), Parents(prefix, tags).Keys).value
  }

  /** The entries of references, without what they are. */
  lemma RefEntryAt(prefix: string, tags: seq<Tag>, i: nat)
    requires i < |tags|
    ensures RefEntries(prefix, tags)[i].Some? <==> RefAt(prefix, tags, i)
    ensures RefAt(prefix, tags, i) ==>
              RefEntries(prefix, tags)[i] == Some((Id(prefix, tags[i]), NewRef(prefix, tags, i)))
  {
  }

  lemma RefInserts(prefix: string, tags: seq<Tag>, i: nat, id: string)
    requires i < |tags|
    ensures Inserts(RefEntries(prefix, tags), i, id) <==> RefAt(prefix, tags, i) && Id(prefix, tags[i]) == id
  {
    RefEntryAt(prefix, tags, i);
  }

  lemma RenamingAt(prefix: string, tags: seq<Tag>, i: nat)
    requires RefAt(prefix, tags, i)
    ensures Id(prefix, tags[i]) in Renaming(prefix, tags)
    ensures LastRef(prefix, tags, i) ==> Renaming(prefix, tags)[Id(prefix, tags[i])] == NewRef(prefix, tags, i)
  {
    var entries := RefEntries(prefix, tags);
    var id := Id(prefix, tags[i]);
    RefInserts(prefix, tags, i, id);
    if LastRef(prefix, tags, i) {
      forall j | i < j < |tags| ensures !Inserts(entries, j, id) {
        RefInserts(prefix, tags, j, id);
      }
      assert InsertsLast(entries, i, id);
      RefEntryAt(prefix, tags, i);
    }
    LastEntryCounts(Parents(prefix, tags), entries, i, id);
  }

  lemma {:induction false} LastRefOf(prefix: string, tags: seq<Tag>, i: nat) returns (j: nat)
    requires RefAt(prefix, tags, i)
    ensures i <= j && LastRef(prefix, tags, j) && Id(prefix, tags[j]) == Id(prefix, tags[i])
    decreases |tags| - i
  {
    if LastRef(prefix, tags, i) {
      j := i;
    } else {
      var k :| i < k < |tags| && RefAt(prefix, tags, k) && Id(prefix, tags[k]) == Id(prefix, tags[i]);
      j := LastRefOf(prefix, tags, k);
    }
  }

  lemma Unreferenced(prefix: string, tags: seq<Tag>, id: string)
    requires NoRef(prefix, tags, id)
    ensures id in Renaming(prefix, tags) <==> id in Parents(prefix, tags)
    ensures id in Parents(prefix, tags) ==> Renaming(prefix, tags)[id] == Parents(prefix, tags)[id]
  {
    forall i | 0 <= i < |tags| ensures !Inserts(RefEntries(prefix, tags), i, id) {
      RefInserts(prefix, tags, i, id);
    }
    WithoutEntry(Parents(prefix, tags), RefEntries(prefix, tags), id);
  }

  /** Every declared id and every reference is renamed. */
  lemma DeclaredIsRenamed(prefix: string, tags: seq<Tag>, i: nat)
    requires DeclaredAt(prefix, tags, i)
    ensures Id(prefix, tags[i]) in Renaming(prefix, tags)
  {
    var id := Id(prefix, tags[i]);
    ParentsAt(prefix, tags, i);
    if NoRef(prefix, tags, id) {
      Unreferenced(prefix, tags, id);
    } else {
      var j :| 0 <= j < |tags| && RefAt(prefix, tags, j) && Id(prefix, tags[j]) == id;
      RenamingAt(prefix, tags, j);
    }
  }

  /** Where an entry of the map comes from: the last reference with this id, or else its last declaration. */
  lemma EntryFrom(prefix: string, tags: seq<Tag>, id: string) returns (i: nat)
    requires id in Renaming(prefix, tags)
    ensures i < |tags|
    ensures if NoRef(prefix, tags, id) then
              && LastDeclared(prefix, tags, i) && Id(prefix, tags[i]) == id
              && Renaming(prefix, tags)[id] == Declared(prefix, tags[..i], tags[i])
            else
              && LastRef(prefix, tags, i) && Id(prefix, tags[i]) == id
              && Renaming(prefix, tags)[id] == NewRef(prefix, tags, i)
  {
    if NoRef(prefix, tags, id) {
      Unreferenced(prefix, tags, id);
      i := ParentsFrom(prefix, tags, id);
      ParentsAt(prefix, tags, i);
    } else {
      var j :| 0 <= j < |tags| && RefAt(prefix, tags, j) && Id(prefix, tags[j]) == id;
      i := LastRefOf(prefix, tags, j);
      RenamingAt(prefix, tags, i);
    }
  }

  // ── Parents of references ───────────────────────────────────────

  /** The parent of a reference is itself no reference. */
  lemma ParentIsNoRef(prefix: string, tags: seq<Tag>, i: nat)
    requires RefAt(prefix, tags, i)
    ensures var parent := Parent(prefix, tags, i);
            && parent in Parents(prefix, tags)
            && NoRef(prefix, tags, parent)
            && parent in Renaming(prefix, tags)
            && Renaming(prefix, tags)[parent] == Parents(prefix, tags)[parent]
  {
    var keys := Parents(prefix, tags).Keys;
    var id := Id(prefix, tags[i]);
    var p := SplitFrom(id, keys, 0).value;
    forall j | 0 <= j < |tags| && RefAt(prefix, tags, j) ensures Id(prefix, tags[j]) != id[..p] {
      if Id(prefix, tags[j]) == id[..p] {
        NoSplitBefore(id, keys, p);
        assert false;
      }
    }
    Unreferenced(prefix, tags, id[..p]);
  }

  /** What stands before the first split of an id cannot be split itself. */
  lemma NoSplitBefore(id: string, keys: set<string>, p: nat)
    requires SplitFrom(id, keys, 0) == Some(p)
    ensures ParentOf(id[..p], keys).None?
  {
    if SplitFrom(id[..p], keys, 0).Some? {
      var q := SplitFrom(id[..p], keys, 0).value;
      assert id[..p][..q] == id[..q] && id[..p][q..q + 3] == id[q..q + 3];
      assert SplitsAt(id, keys, q);
    }
  }
}
