/**
 Renumbering a document that has been renumbered. The second map is the identity on its domain,
 exactly unless parameter references of different parents end up under one renamed parent.
 */
module RenumberTwice {
  import opened Basics
  import opened Decimal
  import opened Renumber
  import opened RenumberMaps

  // ── The renamed document ────────────────────────────────────────

  function RenamedTag(m: map<string, string>, t: Tag): Tag {
    Tag(t.name, RenamedAttrs(m, t.attrs))
  }

  function RenamedTags(m: map<string, string>, tags: seq<Tag>): seq<Tag> {
    seq(|tags|, i requires 0 <= i < |tags| => RenamedTag(m, tags[i]))
  }

  lemma {:induction false} RenamedAttr(m: map<string, string>, attrs: seq<(string, string)>, name: string)
    ensures GetAttr(RenamedAttrs(m, attrs), name)
         == match GetAttr(attrs, name) case None => None case Some(v) => Some(Lookup(m, v))
  {
    if attrs != [] {
      var renamed := RenamedAttrs(m, attrs);
      assert renamed[0] == (attrs[0].0, Lookup(m, attrs[0].1)) && renamed[1..] == RenamedAttrs(m, attrs[1..]);
      RenamedAttr(m, attrs[1..], name);
    }
  }

  // ── The shape of new ids ────────────────────────────────────────

  predicate Underscored(prefix: string) {
    prefix != [] && prefix[|prefix| - 1] == '_'
  }

  /** Behind the prefix, a new id of a declaration has no underscore. */
  lemma NoUnderscore(prefix: string, marker: Marker, n: nat, p: nat)
    requires |prefix| <= p < |NewId(prefix, marker, n)|
    ensures NewId(prefix, marker, n)[p] != '_'
  {
    var digits := Digits(n);
    var start := |prefix| + |Text(marker)| + 1;
    if p >= start {
      assert NewId(prefix, marker, n)[p] == digits[p - start];
      assert IsDigit(digits[p - start]);
    }
  }

  /** So a new id of a declaration is never one of a reference. */
  lemma NotOfReference(prefix: string, marker: Marker, n: nat, marker': Marker, n': nat, suffix: string)
    ensures NewId(prefix, marker, n) != NewId(prefix, marker', n') + BOUNDARY + suffix
  {
    var parent := NewId(prefix, marker', n');
    var id := parent + BOUNDARY + suffix;
    assert id[|parent|] == '_';
    if NewId(prefix, marker, n) == id {
      NoUnderscore(prefix, marker, n, |parent|);
    }
  }

  lemma NewIdInjective(prefix: string, marker: Marker, n: nat, marker': Marker, n': nat)
    ensures NewId(prefix, marker, n) == NewId(prefix, marker', n') <==> marker == marker' && n == n'
  {
    var a, b := NewId(prefix, marker, n), NewId(prefix, marker', n');
    if a == b {
      var k, k' := |prefix| + |Text(marker)|, |prefix| + |Text(marker')|;
      assert a[|prefix|] == Text(marker)[0] && b[|prefix|] == Text(marker')[0];
      assert a[k] == '-' && b[k'] == '-';
      if |Text(marker)| == 2 {
        assert a[|prefix| + 1] == Text(marker)[1];
      }
      if |Text(marker')| == 2 {
        assert b[|prefix| + 1] == Text(marker')[1];
      }
      assert marker == marker';
      assert Digits(n) == a[k + 1..] && Digits(n') == b[k + 1..];
      assert Value(Digits(n)) == Value(Digits(n'));
    }
  }

  /** The beginnings that markers are recognised by, letter by letter. */
  lemma StartLetters(s: string)
    ensures StartsWith(s, "UP-") <==> |s| >= 3 && s[0] == 'U' && s[1] == 'P' && s[2] == '-'
    ensures StartsWith(s, "P-") <==> |s| >= 2 && s[0] == 'P' && s[1] == '-'
    ensures StartsWith(s, "O-") <==> |s| >= 2 && s[0] == 'O' && s[1] == '-'
    ensures StartsWith(s, "PB-") <==> |s| >= 3 && s[0] == 'P' && s[1] == 'B' && s[2] == '-'
    ensures StartsWith(s, "PS-") <==> |s| >= 3 && s[0] == 'P' && s[1] == 'S' && s[2] == '-'
  {
  }

  /** Strings that begin with the same marker text read as the same marker. */
  lemma SameMarker(marker: Marker, a: string, b: string, name: Name)
    requires (Text(marker) + "-") <= a && (Text(marker) + "-") <= b
    ensures MarkerIn(name, a) == MarkerIn(name, b)
  {
    StartLetters(a);
    StartLetters(b);
    var text := Text(marker) + "-";
    assert forall i :: 0 <= i < |text| ==> a[i] == text[i] == b[i];
  }

  // ── Documents that can be renumbered ────────────────────────────

  lemma {:induction false} NoneFaulty(faults: seq<Option<Fault>>, i: nat)
    requires FirstFault(faults).None? && i < |faults|
    ensures faults[i].None?
  {
    if i > 0 {
      NoneFaulty(faults[1..], i - 1);
    }
  }

  /** In a document that can be renumbered nothing is faulty. */
  lemma NothingFaulty(prefix: string, tags: seq<Tag>, i: nat)
    requires Built(prefix, tags).Ok? && i < |tags|
    ensures DeclarationFault(prefix, tags[i]).None? && RefFaultAt(prefix, tags, i).None?
    ensures IsRef(prefix, tags[i]) ==> RefAt(prefix, tags, i)
    ensures RefAt(prefix, tags, i) && tags[i].name == ParameterRef ==>
              Parent(prefix, tags, i) in Indexes(prefix, tags)
  {
    NoneFaulty(DeclarationFaults(prefix, tags), i);
    NoneFaulty(RefFaults(prefix, tags), i);
  }

  lemma {:induction false} NoneFirst(faults: seq<Option<Fault>>)
    requires forall i :: 0 <= i < |faults| ==> faults[i].None?
    ensures FirstFault(faults).None?
  {
    if faults != [] {
      NoneFirst(faults[1..]);
    }
  }

  // ── Ids keep their kind ─────────────────────────────────────────

  /** What a declared id is renamed to by the first pass. */
  lemma ParentIsNew(prefix: string, tags: seq<Tag>, id: string) returns (i: nat)
    requires id in Parents(prefix, tags)
    ensures LastDeclared(prefix, tags, i) && Id(prefix, tags[i]) == id
    ensures Parents(prefix, tags)[id]
         == NewId(prefix, Declares(prefix, tags[i]).value, Number(prefix, tags[..i], tags[i]))
  {
    i := ParentsFrom(prefix, tags, id);
    ParentsAt(prefix, tags, i);
  }

  lemma DeclaredStart(prefix: string, t: Tag)
    requires Declares(prefix, t).Some?
    ensures StartsWith(Id(prefix, t), prefix)
    ensures (Text(Declares(prefix, t).value) + "-") <= Id(prefix, t)[|prefix|..]
  {
    MarkerLetters(t.name, Id(prefix, t)[|prefix|..]);
  }

  lemma NewIdStart(prefix: string, marker: Marker, n: nat, more: string)
    ensures StartsWith(NewId(prefix, marker, n) + more, prefix)
    ensures (Text(marker) + "-") <= (NewId(prefix, marker, n) + more)[|prefix|..]
  {
    assert (NewId(prefix, marker, n) + more)[|prefix|..] == Text(marker) + "-" + Digits(n) + more;
  }

  /** A renamed id stays under the prefix and keeps its type. */
  lemma KeepsKind(prefix: string, tags: seq<Tag>, id: string, name: Name)
    requires id in Renaming(prefix, tags)
    ensures StartsWith(id, prefix) && StartsWith(Renaming(prefix, tags)[id], prefix)
    ensures MarkerIn(name, Renaming(prefix, tags)[id][|prefix|..]) == MarkerIn(name, id[|prefix|..])
  {
    var i := EntryFrom(prefix, tags, id);
    var renamed := Renaming(prefix, tags)[id];
    if NoRef(prefix, tags, id) {
      var marker := Declares(prefix, tags[i]).value;
      DeclaredStart(prefix, tags[i]);
      NewIdStart(prefix, marker, Number(prefix, tags[..i], tags[i]), "");
      EmptyIsUnit(renamed);
      SameMarker(marker, renamed[|prefix|..], id[|prefix|..], name);
    } else {
      var parent := Parent(prefix, tags, i);
      ParentIsNoRef(prefix, tags, i);
      var j := ParentIsNew(prefix, tags, parent);
      var marker := Declares(prefix, tags[j]).value;
      DeclaredStart(prefix, tags[j]);
      assert parent <= id;
      LongerStart(parent, id, |prefix|, Text(marker) + "-");
      NewIdStart(prefix, marker, Number(prefix, tags[..j], tags[j]), BOUNDARY + NewSuffix(prefix, tags, i));
      Associative(Parents(prefix, tags)[parent], BOUNDARY, NewSuffix(prefix, tags, i));
      SameMarker(marker, renamed[|prefix|..], id[|prefix|..], name);
    }
  }

  lemma LongerStart(short: string, long: string, k: nat, text: string)
    requires short <= long && k <= |short| && text <= short[k..]
    ensures text <= long[k..]
  {
    assert long[k..][..|short| - k] == short[k..];
  }

  lemma NumericHasNoPrefix(prefix: string, v: string)
    requires Underscored(prefix) && forall i :: 0 <= i < |v| ==> IsDigit(v[i]) || v[i] == '+'
    ensures !StartsWith(v, prefix)
  {
  }

  /** A number is never renamed. */
  lemma NumbersStay(prefix: string, tags: seq<Tag>, v: string)
    requires Underscored(prefix) && ParseU64(v).Some?
    ensures v !in Renaming(prefix, tags)
  {
    ParsedIsNumeric(v);
    NumericHasNoPrefix(prefix, v);
    if v in Renaming(prefix, tags) {
      KeepsKind(prefix, tags, v, OtherName);
      assert false;
    }
  }

  // ── The tags of the renamed document ────────────────────────────

  /** Scopes, declarations and references are recognised again, with their ids renamed. */
  lemma TagAgain(prefix: string, tags: seq<Tag>, i: nat)
    requires i < |tags|
    ensures var m := Renaming(prefix, tags);
            var t := tags[i];
            var u := RenamedTag(m, t);
            && (ScopedId(prefix, u).Some? <==> ScopedId(prefix, t).Some?)
            && (ScopedId(prefix, t).Some? ==> ScopedId(prefix, u).value == Lookup(m, ScopedId(prefix, t).value))
            && Declares(prefix, u) == Declares(prefix, t)
            && (IsRef(prefix, u) <==> IsRef(prefix, t))
  {
    var m := Renaming(prefix, tags);
    var t := tags[i];
    RenamedAttr(m, t.attrs, "Id");
    match GetAttr(t.attrs, "Id")
    case None =>
    case Some(v) =>
      if v in m {
        KeepsKind(prefix, tags, v, t.name);
      }
  }

  /** A declaration is found again under its new id. */
  lemma DeclaredAgain(prefix: string, tags: seq<Tag>, i: nat)
    requires i < |tags|
    ensures var m := Renaming(prefix, tags);
            && (DeclaredAt(prefix, RenamedTags(m, tags), i) <==> DeclaredAt(prefix, tags, i))
            && (DeclaredAt(prefix, tags, i) ==>
                  && Id(prefix, tags[i]) in m
                  && Id(prefix, RenamedTags(m, tags)[i]) == m[Id(prefix, tags[i])])
  {
    TagAgain(prefix, tags, i);
    if DeclaredAt(prefix, tags, i) {
      DeclaredIsRenamed(prefix, tags, i);
    }
  }

  lemma {:induction false} CountAgain(prefix: string, tags: seq<Tag>, k: nat, name: Name)
    requires k <= |tags|
    ensures Count(prefix, RenamedTags(Renaming(prefix, tags), tags)[..k], name) == Count(prefix, tags[..k], name)
  {
    if k > 0 {
      var renamed := RenamedTags(Renaming(prefix, tags), tags);
      CountAgain(prefix, tags, k - 1, name);
      TagAgain(prefix, tags, k - 1);
      assert renamed[..k][..k - 1] == renamed[..k - 1] && tags[..k][..k - 1] == tags[..k - 1];
    }
  }

  /** Declarations get the same numbers again. */
  lemma NumberAgain(prefix: string, tags: seq<Tag>, i: nat)
    requires Underscored(prefix) && Built(prefix, tags).Ok? && DeclaredAt(prefix, tags, i)
    ensures var again := RenamedTags(Renaming(prefix, tags), tags);
            && DeclaredAt(prefix, again, i)
            && Number(prefix, again[..i], again[i]) == Number(prefix, tags[..i], tags[i])
            && Declared(prefix, again[..i], again[i]) == Declared(prefix, tags[..i], tags[i])
            && DeclarationFault(prefix, again[i]).None?
  {
    var m := Renaming(prefix, tags);
    var t := tags[i];
    TagAgain(prefix, tags, i);
    NothingFaulty(prefix, tags, i);
    if t.name == ComObject {
      RenamedAttr(m, t.attrs, "Number");
      NumbersStay(prefix, tags, GetAttr(t.attrs, "Number").value);
    } else {
      CountAgain(prefix, tags, i, t.name);
    }
  }

  /** The document after the first renumbering. */
  ghost function Again(prefix: string, tags: seq<Tag>): seq<Tag> {
    RenamedTags(Renaming(prefix, tags), tags)
  }

  /** A declared id that is no reference has the shape of a new id of a declaration. */
  lemma NewOfDeclared(prefix: string, tags: seq<Tag>, id: string) returns (i: nat)
    requires id in Parents(prefix, tags) && NoRef(prefix, tags, id)
    ensures LastDeclared(prefix, tags, i) && Id(prefix, tags[i]) == id
    ensures id in Renaming(prefix, tags) && Renaming(prefix, tags)[id] == Parents(prefix, tags)[id]
    ensures Parents(prefix, tags)[id]
         == NewId(prefix, Declares(prefix, tags[i]).value, Number(prefix, tags[..i], tags[i]))
  {
    i := ParentIsNew(prefix, tags, id);
    Unreferenced(prefix, tags, id);
  }

  /** A reference has the shape of a new id of a reference. */
  lemma NewOfReference(prefix: string, tags: seq<Tag>, i: nat) returns (j: nat, k: nat)
    requires RefAt(prefix, tags, i)
    ensures i <= j && LastRef(prefix, tags, j) && Id(prefix, tags[j]) == Id(prefix, tags[i])
    ensures Parent(prefix, tags, j) == Parent(prefix, tags, i)
    ensures LastDeclared(prefix, tags, k) && Id(prefix, tags[k]) == Parent(prefix, tags, i)
    ensures Parent(prefix, tags, i) in Parents(prefix, tags)
    ensures Parents(prefix, tags)[Parent(prefix, tags, i)]
         == NewId(prefix, Declares(prefix, tags[k]).value, Number(prefix, tags[..k], tags[k]))
    ensures Id(prefix, tags[i]) in Renaming(prefix, tags)
    ensures Renaming(prefix, tags)[Id(prefix, tags[i])]
         == Parents(prefix, tags)[Parent(prefix, tags, i)] + BOUNDARY + NewSuffix(prefix, tags, j)
  {
    j := LastRefOf(prefix, tags, i);
    RenamingAt(prefix, tags, j);
    ParentIsNoRef(prefix, tags, i);
    k := ParentIsNew(prefix, tags, Parent(prefix, tags, i));
  }

  /** An id whose new one has the shape of a declaration's is no reference. */
  lemma DeclaredShapeIsNoRef(prefix: string, tags: seq<Tag>, id: string, marker: Marker, n: nat)
    requires id in Renaming(prefix, tags) && Renaming(prefix, tags)[id] == NewId(prefix, marker, n)
    ensures NoRef(prefix, tags, id)
  {
    forall i | 0 <= i < |tags| && RefAt(prefix, tags, i) ensures Id(prefix, tags[i]) != id {
      var j, k := NewOfReference(prefix, tags, i);
      NotOfReference(prefix, marker, n, Declares(prefix, tags[k]).value, Number(prefix, tags[..k], tags[k]),
                     NewSuffix(prefix, tags, j));
    }
  }

  /** The last declaration, in the renamed document, of an id that a declaration was renamed to. */
  lemma LastAgain(prefix: string, tags: seq<Tag>, id: string) returns (i: nat, j: nat)
    requires Underscored(prefix) && Built(prefix, tags).Ok?
    requires id in Parents(prefix, tags) && NoRef(prefix, tags, id)
    ensures LastDeclared(prefix, tags, i) && Id(prefix, tags[i]) == id
    ensures id in Renaming(prefix, tags)
    ensures LastDeclared(prefix, Again(prefix, tags), j)
    ensures Id(prefix, Again(prefix, tags)[j]) == Renaming(prefix, tags)[id]
    ensures LastDeclared(prefix, tags, j)
    ensures Renaming(prefix, tags)[id] == Declared(prefix, tags[..i], tags[i]) == Declared(prefix, tags[..j], tags[j])
  {
    var m := Renaming(prefix, tags);
    var again := Again(prefix, tags);
    i := NewOfDeclared(prefix, tags, id);
    DeclaredAgain(prefix, tags, i);
    ParentsAt(prefix, again, i);
    j := ParentsFrom(prefix, again, m[id]);
    DeclaredAgain(prefix, tags, j);
    var other := Id(prefix, tags[j]);
    DeclaredShapeIsNoRef(prefix, tags, other, Declares(prefix, tags[i]).value, Number(prefix, tags[..i], tags[i]));
    forall l | j < l < |tags| && DeclaredAt(prefix, tags, l) ensures Id(prefix, tags[l]) != other {
      DeclaredAgain(prefix, tags, l);
    }
    Unreferenced(prefix, tags, other);
    ParentsAt(prefix, tags, j);
  }

  /** Such an id is renamed to itself by the first pass over the renamed document, with the same number. */
  lemma ParentAgain(prefix: string, tags: seq<Tag>, id: string)
    requires Underscored(prefix) && Built(prefix, tags).Ok?
    requires id in Parents(prefix, tags) && NoRef(prefix, tags, id)
    ensures id in Renaming(prefix, tags)
    ensures var again := Again(prefix, tags);
            var new' := Renaming(prefix, tags)[id];
            && new' in Parents(prefix, again) && Parents(prefix, again)[new'] == new'
            && (id in Indexes(prefix, tags) ==>
                  && new' in Indexes(prefix, again)
                  && Indexes(prefix, again)[new'] == Indexes(prefix, tags)[id])
  {
    var again := Again(prefix, tags);
    var i, j := LastAgain(prefix, tags, id);
    ParentsAt(prefix, again, j);
    NumberAgain(prefix, tags, j);
    if id in Indexes(prefix, tags) {
      SameIndexAgain(prefix, tags, id, i, j);
    }
  }

  lemma SameIndexAgain(prefix: string, tags: seq<Tag>, id: string, i: nat, j: nat)
    requires Underscored(prefix) && Built(prefix, tags).Ok? && id in Indexes(prefix, tags) && id in Renaming(prefix, tags)
    requires LastDeclared(prefix, tags, i) && Id(prefix, tags[i]) == id
    requires LastDeclared(prefix, tags, j) && LastDeclared(prefix, Again(prefix, tags), j)
    requires Id(prefix, Again(prefix, tags)[j]) == Renaming(prefix, tags)[id]
    requires Declared(prefix, tags[..i], tags[i]) == Declared(prefix, tags[..j], tags[j])
    ensures var again := Again(prefix, tags);
            && Renaming(prefix, tags)[id] in Indexes(prefix, again)
            && Indexes(prefix, again)[Renaming(prefix, tags)[id]] == Indexes(prefix, tags)[id]
  {
    var again := Again(prefix, tags);
    var h := IndexesFrom(prefix, tags, id);
    SameKind(prefix, tags[h], tags[i]);
    IndexesAt(prefix, tags, i);
    NewIdInjective(prefix, Declares(prefix, tags[i]).value, Number(prefix, tags[..i], tags[i]),
                   Declares(prefix, tags[j]).value, Number(prefix, tags[..j], tags[j]));
    MarkerLetters(tags[i].name, Id(prefix, tags[i])[|prefix|..]);
    MarkerLetters(tags[j].name, Id(prefix, tags[j])[|prefix|..]);
    NumberAgain(prefix, tags, j);
    IndexesAt(prefix, again, j);
  }

  // ── References of the renamed document ──────────────────────────

  /** Every key of the second first pass is a new id; it starts with the prefix. */
  lemma AgainKey(prefix: string, tags: seq<Tag>, key: string)
    requires key in Parents(prefix, Again(prefix, tags))
    ensures StartsWith(key, prefix)
  {
    var i := ParentsFrom(prefix, Again(prefix, tags), key);
  }

  /** The first boundary in a new id of a reference is the one behind its parent. */
  lemma SplitsBehindParent(prefix: string, keys: set<string>, marker: Marker, n: nat, suffix: string)
    requires NewId(prefix, marker, n) in keys && forall key :: key in keys ==> StartsWith(key, prefix)
    ensures var parent := NewId(prefix, marker, n);
            var id := parent + BOUNDARY + suffix;
            && ParentOf(id, keys) == Some(parent) && SuffixOf(id, keys) == suffix
  {
    var parent := NewId(prefix, marker, n);
    var id := parent + BOUNDARY + suffix;
    assert id[|parent|..|parent| + 3] == BOUNDARY && id[..|parent|] == parent;
    forall q | 0 <= q < |parent| ensures !SplitsAt(id, keys, q) {
      if q < |prefix| {
        assert |id[..q]| < |prefix|;
      } else {
        NoUnderscore(prefix, marker, n, q);
        assert id[q] == parent[q];
        assert q + 3 <= |id| ==> id[q..q + 3][0] == id[q];
      }
    }
    FirstSplit(id, keys, |parent|);
    assert id[|parent| + 3..] == suffix;
  }

  /** A reference of the renamed document belongs to its renamed parent. */
  lemma RefAgain(prefix: string, tags: seq<Tag>, i: nat) returns (j: nat)
    requires Underscored(prefix) && Built(prefix, tags).Ok? && RefAt(prefix, tags, i)
    ensures i <= j && LastRef(prefix, tags, j) && Id(prefix, tags[j]) == Id(prefix, tags[i])
    ensures Id(prefix, tags[i]) in Renaming(prefix, tags)
    ensures Parent(prefix, tags, i) in Renaming(prefix, tags)
    ensures var again := Again(prefix, tags);
            && RefAt(prefix, again, i)
            && Id(prefix, again[i]) == Renaming(prefix, tags)[Id(prefix, tags[i])]
            && Parent(prefix, again, i) == Renaming(prefix, tags)[Parent(prefix, tags, i)]
            && SuffixOf(Id(prefix, again[i]), Parents(prefix, again).Keys) == NewSuffix(prefix, tags, j)
  {
    var again := Again(prefix, tags);
    var k;
    j, k := NewOfReference(prefix, tags, i);
    ParentIsNoRef(prefix, tags, i);
    ParentAgain(prefix, tags, Parent(prefix, tags, i));
    TagAgain(prefix, tags, i);
    forall key | key in Parents(prefix, again).Keys ensures StartsWith(key, prefix) {
      AgainKey(prefix, tags, key);
    }
    SplitsBehindParent(prefix, Parents(prefix, again).Keys, Declares(prefix, tags[k]).value,
                       Number(prefix, tags[..k], tags[k]), NewSuffix(prefix, tags, j));
  }

  /** No reference that was not one before. */
  lemma OnlyRefsAgain(prefix: string, tags: seq<Tag>, i: nat)
    requires Underscored(prefix) && Built(prefix, tags).Ok? && i < |tags|
    ensures RefAt(prefix, Again(prefix, tags), i) <==> RefAt(prefix, tags, i)
  {
    TagAgain(prefix, tags, i);
    NothingFaulty(prefix, tags, i);
    if RefAt(prefix, tags, i) {
      var j := RefAgain(prefix, tags, i);
    }
  }

  /** The renamed document can be renumbered. */
  lemma BuiltAgain(prefix: string, tags: seq<Tag>)
    requires Underscored(prefix) && Built(prefix, tags).Ok?
    ensures Built(prefix, Again(prefix, tags)).Ok?
  {
    var again := Again(prefix, tags);
    forall i | 0 <= i < |tags| ensures DeclarationFaults(prefix, again)[i].None? && RefFaults(prefix, again)[i].None? {
      TagAgain(prefix, tags, i);
      NothingFaulty(prefix, tags, i);
      if DeclaredAt(prefix, tags, i) {
        NumberAgain(prefix, tags, i);
      }
      if RefAt(prefix, tags, i) {
        var j := RefAgain(prefix, tags, i);
        ParentIsNoRef(prefix, tags, i);
        ParentAgain(prefix, tags, Parent(prefix, tags, i));
      }
    }
    NoneFirst(DeclarationFaults(prefix, again));
    NoneFirst(RefFaults(prefix, again));
  }

  // ── Suffixes of the renamed document ────────────────────────────

  /** The set of the first `n` positive numbers. */
  function Positives(n: nat): set<nat> {
    if n == 0 then {} else Positives(n - 1) + {n}
  }

  lemma {:induction false} PositivesHave(n: nat)
    ensures |Positives(n)| == n
    ensures forall k :: k in Positives(n) <==> 0 < k <= n
  {
    if n > 0 {
      PositivesHave(n - 1);
    }
  }

  lemma SubsetIsSmaller(a: set<nat>, b: set<nat>)
    requires a <= b
    ensures |a| <= |b|
  {
    assert b == a + (b - a);
  }

  /** No number is handed out before all smaller ones are in use, so it does not exceed how many references there are. */
  lemma {:induction false} SupplyIsDense(prefix: string, keys: set<string>, all: seq<Tag>, tags: seq<Tag>, parent: string)
    ensures var s := SupplyAfter(prefix, keys, all, tags, parent);
            && Positives(s.last) <= s.used
            && |s.used| <= |Carried(prefix, keys, all, parent)| + |tags|
  {
    if tags != [] {
      var n := |tags| - 1;
      SupplyIsDense(prefix, keys, all, tags[..n], parent);
      var s := SupplyAfter(prefix, keys, all, tags[..n], parent);
      if SupplyAfter(prefix, keys, all, tags, parent) != s {
        OneMoreIsDense(s, NextFree(s.used, s.last));
      }
    }
  }

  lemma OneMoreIsDense(s: Supply, m: nat)
    requires m == NextFree(s.used, s.last) && Positives(s.last) <= s.used
    ensures Positives(m) <= s.used + {m} && |s.used + {m}| == |s.used| + 1
  {
    PositivesHave(s.last);
    PositivesHave(m);
  }

  lemma {:induction false} FewCarried(prefix: string, keys: set<string>, tags: seq<Tag>, parent: string)
    ensures |Carried(prefix, keys, tags, parent)| <= |tags|
  {
    if tags != [] {
      FewCarried(prefix, keys, tags[..|tags| - 1], parent);
    }
  }

  lemma SupplyIsSmall(prefix: string, keys: set<string>, all: seq<Tag>, tags: seq<Tag>, parent: string)
    requires |tags| <= |all|
    ensures SupplyAfter(prefix, keys, all, tags, parent).last <= 2 * |all|
  {
    var s := SupplyAfter(prefix, keys, all, tags, parent);
    SupplyIsDense(prefix, keys, all, tags, parent);
    FewCarried(prefix, keys, all, parent);
    PositivesHave(s.last);
    SubsetIsSmaller(Positives(s.last), s.used);
  }

  /** The new suffix of a com-object reference is a 64-bit number. */
  lemma ComObjectSuffix(prefix: string, tags: seq<Tag>, i: nat) returns (n: nat)
    requires RefAt(prefix, tags, i) && tags[i].name == ComObjectRef && 2 * |tags| <= U64_MAX
    ensures NewSuffix(prefix, tags, i) == Digits(n) && ParseU64(Digits(n)) == Some(n)
  {
    var keys := Parents(prefix, tags).Keys;
    match Kept(prefix, keys, tags[i])
    case Some(k) =>
      n := k;
      ParsesBack(n);
    case None =>
      var parent := Parent(prefix, tags, i);
      n := SupplyAfter(prefix, keys, tags, tags[..i + 1], parent).last;
      SupplyIsSmall(prefix, keys, tags, tags[..i + 1], parent);
      ParsesBack(n);
  }

  /** A com-object reference that is the last one with its id keeps its new suffix. */
  lemma ComObjectSuffixAgain(prefix: string, tags: seq<Tag>, i: nat)
    requires Underscored(prefix) && Built(prefix, tags).Ok? && 2 * |tags| <= U64_MAX
    requires LastRef(prefix, tags, i) && tags[i].name == ComObjectRef
    ensures RefAt(prefix, Again(prefix, tags), i)
    ensures NewSuffix(prefix, Again(prefix, tags), i) == NewSuffix(prefix, tags, i)
  {
    var j := RefAgain(prefix, tags, i);
    var n := ComObjectSuffix(prefix, tags, i);
  }

  /** A parameter reference comes earlier, under another parent that gets the same new id. */
  ghost predicate Merges(prefix: string, tags: seq<Tag>, i: nat, j: nat) {
    && i < j
    && RefAt(prefix, tags, i) && RefAt(prefix, tags, j)
    && tags[i].name == ParameterRef && tags[j].name == ParameterRef
    && Parent(prefix, tags, i) != Parent(prefix, tags, j)
    && Parent(prefix, tags, i) in Parents(prefix, tags) && Parent(prefix, tags, j) in Parents(prefix, tags)
    && Parents(prefix, tags)[Parent(prefix, tags, i)] == Parents(prefix, tags)[Parent(prefix, tags, j)]
  }

  /** Which parameter references count for the renamed parent of reference `j`. */
  lemma UnderAgain(prefix: string, tags: seq<Tag>, i: nat, j: nat)
    requires Underscored(prefix) && Built(prefix, tags).Ok? && RefAt(prefix, tags, j) && tags[j].name == ParameterRef
    requires i <= j
    ensures Parent(prefix, tags, j) in Renaming(prefix, tags)
    ensures RefUnder(prefix, Parents(prefix, tags).Keys, tags[i], ParameterRef, Parent(prefix, tags, j))
            ==> !Merges(prefix, tags, i, j)
    ensures var again := Again(prefix, tags);
            RefUnder(prefix, Parents(prefix, again).Keys, again[i], ParameterRef,
                     Renaming(prefix, tags)[Parent(prefix, tags, j)])
            <==> RefUnder(prefix, Parents(prefix, tags).Keys, tags[i], ParameterRef, Parent(prefix, tags, j))
                 || Merges(prefix, tags, i, j)
  {
    ParentIsNoRef(prefix, tags, j);
    OnlyRefsAgain(prefix, tags, i);
    TagAgain(prefix, tags, i);
    NothingFaulty(prefix, tags, i);
    if RefAt(prefix, tags, i) {
      ParentIsNoRef(prefix, tags, i);
      var l := RefAgain(prefix, tags, i);
    }
  }

  /** One of the first `k` tags is merged with reference `j`. */
  ghost predicate MergedTo(prefix: string, tags: seq<Tag>, k: nat, j: nat)
    requires k <= |tags|
  {
    k > 0 && (MergedTo(prefix, tags, k - 1, j) || Merges(prefix, tags, k - 1, j))
  }

  lemma {:induction false} MergedToIs(prefix: string, tags: seq<Tag>, k: nat, j: nat)
    requires k <= |tags|
    ensures MergedTo(prefix, tags, k, j) <==> exists i :: 0 <= i < k && Merges(prefix, tags, i, j)
  {
    if k > 0 {
      MergedToIs(prefix, tags, k - 1, j);
      if exists i :: 0 <= i < k && Merges(prefix, tags, i, j) {
        var i :| 0 <= i < k && Merges(prefix, tags, i, j);
        assert i < k - 1 || i == k - 1;
      }
    }
  }

  /** The instances of the renamed parent: none are lost, and there are more exactly if references were merged. */
  lemma {:induction false} InstancesAgain(prefix: string, tags: seq<Tag>, j: nat, k: nat)
    requires Underscored(prefix) && Built(prefix, tags).Ok? && RefAt(prefix, tags, j) && tags[j].name == ParameterRef
    requires k <= j + 1
    ensures Parent(prefix, tags, j) in Renaming(prefix, tags)
    ensures var again := Again(prefix, tags);
            var before := Instances(prefix, Parents(prefix, tags).Keys, tags[..k], Parent(prefix, tags, j));
            var after := Instances(prefix, Parents(prefix, again).Keys, again[..k],
                                   Renaming(prefix, tags)[Parent(prefix, tags, j)]);
            && before <= after
            && (before < after <==> MergedTo(prefix, tags, k, j))
  {
    ParentIsNoRef(prefix, tags, j);
    if k > 0 {
      var again := Again(prefix, tags);
      InstancesAgain(prefix, tags, j, k - 1);
      UnderAgain(prefix, tags, k - 1, j);
      InstancesMore(prefix, Parents(prefix, tags).Keys, tags, k, Parent(prefix, tags, j));
      InstancesMore(prefix, Parents(prefix, again).Keys, again, k, Renaming(prefix, tags)[Parent(prefix, tags, j)]);
    }
  }

  lemma InstancesMore(prefix: string, keys: set<string>, tags: seq<Tag>, k: nat, parent: string)
    requires 0 < k <= |tags|
    ensures Instances(prefix, keys, tags[..k], parent)
         == Instances(prefix, keys, tags[..k - 1], parent)
            + (if RefUnder(prefix, keys, tags[k - 1], ParameterRef, parent) then 1 else 0)
  {
    assert tags[..k][..k - 1] == tags[..k - 1];
  }

  lemma TwoDigitsDiffer(base: string, a: nat, b: nat)
    ensures base + TwoDigits(a) == base + TwoDigits(b) <==> a == b
  {
    if base + TwoDigits(a) == base + TwoDigits(b) {
      assert TwoDigits(a) == (base + TwoDigits(a))[|base|..];
      assert TwoDigits(b) == (base + TwoDigits(b))[|base|..];
      assert Value(TwoDigits(a)) == Value(TwoDigits(b));
    }
  }

  /** A parameter reference keeps its new suffix exactly unless it was merged with an earlier one. */
  lemma ParameterSuffixAgain(prefix: string, tags: seq<Tag>, j: nat)
    requires Underscored(prefix) && Built(prefix, tags).Ok? && RefAt(prefix, tags, j) && tags[j].name == ParameterRef
    ensures RefAt(prefix, Again(prefix, tags), j)
    ensures NewSuffix(prefix, Again(prefix, tags), j) == NewSuffix(prefix, tags, j)
            <==> forall i :: 0 <= i < j ==> !Merges(prefix, tags, i, j)
  {
    var base, before, after := SuffixesOf(prefix, tags, j);
    TwoDigitsDiffer(base, before, after);
    MergedToIs(prefix, tags, j, j);
  }

  /** The instance numbers behind both suffixes of a parameter reference. */
  lemma SuffixesOf(prefix: string, tags: seq<Tag>, j: nat) returns (base: string, before: nat, after: nat)
    requires Underscored(prefix) && Built(prefix, tags).Ok? && RefAt(prefix, tags, j) && tags[j].name == ParameterRef
    ensures RefAt(prefix, Again(prefix, tags), j)
    ensures NewSuffix(prefix, tags, j) == base + TwoDigits(before)
    ensures NewSuffix(prefix, Again(prefix, tags), j) == base + TwoDigits(after)
    ensures before <= after && (before < after <==> MergedTo(prefix, tags, j, j))
  {
    var again := Again(prefix, tags);
    var parent := Parent(prefix, tags, j);
    ParentIsNoRef(prefix, tags, j);
    ParentAgain(prefix, tags, parent);
    NothingFaulty(prefix, tags, j);
    var l := RefAgain(prefix, tags, j);
    InstancesAgain(prefix, tags, j, j + 1);
    ParameterSuffix(prefix, tags, j);
    ParameterSuffix(prefix, again, j);
    base := Digits(Indexes(prefix, tags)[parent]);
    before := Instances(prefix, Parents(prefix, tags).Keys, tags[..j + 1], parent);
    after := Instances(prefix, Parents(prefix, again).Keys, again[..j + 1], Renaming(prefix, tags)[parent]);
  }

  lemma ParameterSuffix(prefix: string, tags: seq<Tag>, j: nat)
    requires RefAt(prefix, tags, j) && tags[j].name == ParameterRef && Parent(prefix, tags, j) in Indexes(prefix, tags)
    ensures NewSuffix(prefix, tags, j)
         == Digits(Indexes(prefix, tags)[Parent(prefix, tags, j)])
            + TwoDigits(Instances(prefix, Parents(prefix, tags).Keys, tags[..j + 1], Parent(prefix, tags, j)))
  {
  }

  // ── The second map ──────────────────────────────────────────────

  /** Reference `j` is the last one that is renamed to its new id. */
  ghost predicate LastOfNew(prefix: string, tags: seq<Tag>, j: nat) {
    && RefAt(prefix, tags, j)
    && forall l :: j < l < |tags| && RefAt(prefix, tags, l) ==>
         Lookup(Renaming(prefix, tags), Id(prefix, tags[l])) != Lookup(Renaming(prefix, tags), Id(prefix, tags[j]))
  }

  /** A parameter reference that decides about its new id was merged with an earlier one. */
  ghost predicate Clash(prefix: string, tags: seq<Tag>) {
    exists i, j :: 0 <= i < j < |tags| && Merges(prefix, tags, i, j) && LastOfNew(prefix, tags, j)
  }

  lemma LastOfNewAgain(prefix: string, tags: seq<Tag>, j: nat)
    requires Underscored(prefix) && Built(prefix, tags).Ok? && j < |tags|
    ensures LastRef(prefix, Again(prefix, tags), j) <==> LastOfNew(prefix, tags, j)
    ensures LastOfNew(prefix, tags, j) ==> LastRef(prefix, tags, j)
  {
    var again := Again(prefix, tags);
    forall l | 0 <= l < |tags|
      ensures RefAt(prefix, again, l) <==> RefAt(prefix, tags, l)
      ensures RefAt(prefix, tags, l) ==> Id(prefix, again[l]) == Lookup(Renaming(prefix, tags), Id(prefix, tags[l]))
    {
      OnlyRefsAgain(prefix, tags, l);
      if RefAt(prefix, tags, l) {
        var k := RefAgain(prefix, tags, l);
      }
    }
  }

  /** What the second map makes of the new id of a reference that decides about it. */
  lemma ReferenceTwice(prefix: string, tags: seq<Tag>, j: nat)
    requires Underscored(prefix) && Built(prefix, tags).Ok? && 2 * |tags| <= U64_MAX && LastOfNew(prefix, tags, j)
    ensures var again := Again(prefix, tags);
            var id := Lookup(Renaming(prefix, tags), Id(prefix, tags[j]));
            && id in Renaming(prefix, again)
            && (Renaming(prefix, again)[id] == id <==> forall i :: 0 <= i < j ==> !Merges(prefix, tags, i, j))
  {
    var again := Again(prefix, tags);
    var parent := Parent(prefix, tags, j);
    LastOfNewAgain(prefix, tags, j);
    RenamingAt(prefix, tags, j);
    var l := RefAgain(prefix, tags, j);
    RenamingAt(prefix, again, j);
    ParentIsNoRef(prefix, tags, j);
    ParentAgain(prefix, tags, parent);
    SameEnd(Renaming(prefix, tags)[parent] + BOUNDARY, NewSuffix(prefix, again, j), NewSuffix(prefix, tags, j));
    if tags[j].name == ParameterRef {
      ParameterSuffixAgain(prefix, tags, j);
    } else {
      ComObjectSuffixAgain(prefix, tags, j);
    }
  }

  lemma SameEnd(start: string, a: string, b: string)
    ensures start + a == start + b <==> a == b
  {
    if start + a == start + b {
      assert a == (start + a)[|start|..] == b;
    }
  }

  /** What the second map makes of a new id that no reference has. */
  lemma DeclarationTwice(prefix: string, tags: seq<Tag>, key: string)
    requires Underscored(prefix) && Built(prefix, tags).Ok?
    requires key in Renaming(prefix, Again(prefix, tags)) && NoRef(prefix, Again(prefix, tags), key)
    ensures Renaming(prefix, Again(prefix, tags))[key] == key
  {
    var again := Again(prefix, tags);
    Unreferenced(prefix, again, key);
    var i := ParentsFrom(prefix, again, key);
    DeclaredAgain(prefix, tags, i);
    var id := Id(prefix, tags[i]);
    ParentsAt(prefix, tags, i);
    forall l | 0 <= l < |tags| && RefAt(prefix, tags, l) ensures Id(prefix, tags[l]) != id {
      var k := RefAgain(prefix, tags, l);
      assert Id(prefix, again[l]) != key;
    }
    ParentAgain(prefix, tags, id);
  }

  /** Every id is mapped to itself. */
  predicate IsIdentity(m: map<string, string>) {
    forall id :: id in m ==> m[id] == id
  }

  /**
   Idempotence. A document that was renumbered can be renumbered again, and the second map is the
   identity on its domain, so nothing changes, if and only if no parameter reference that decides
   about its new id follows one of another parent with the same new id. Such parents can only be
   com-objects that share a number.
   */
  lemma RenumberingTwice(prefix: string, tags: seq<Tag>)
    requires Underscored(prefix) && Built(prefix, tags).Ok? && 2 * |tags| <= U64_MAX
    ensures Built(prefix, Again(prefix, tags)).Ok?
    ensures IsIdentity(Built(prefix, Again(prefix, tags)).value) <==> !Clash(prefix, tags)
  {
    var again := Again(prefix, tags);
    BuiltAgain(prefix, tags);
    if Clash(prefix, tags) {
      var i, j :| 0 <= i < j < |tags| && Merges(prefix, tags, i, j) && LastOfNew(prefix, tags, j);
      ReferenceTwice(prefix, tags, j);
    } else {
      forall key | key in Renaming(prefix, again) ensures Renaming(prefix, again)[key] == key {
        EntryTwice(prefix, tags, key);
      }
    }
  }

  lemma EntryTwice(prefix: string, tags: seq<Tag>, key: string)
    requires Underscored(prefix) && Built(prefix, tags).Ok? && 2 * |tags| <= U64_MAX && !Clash(prefix, tags)
    requires key in Renaming(prefix, Again(prefix, tags))
    ensures Renaming(prefix, Again(prefix, tags))[key] == key
  {
    var again := Again(prefix, tags);
    if NoRef(prefix, again, key) {
      DeclarationTwice(prefix, tags, key);
    } else {
      var j := EntryFrom(prefix, again, key);
      LastOfNewAgain(prefix, tags, j);
      var l := RefAgain(prefix, tags, j);
      ReferenceTwice(prefix, tags, j);
    }
  }
}
