/**
 The loops that build the renaming map, with the maps and counters they update, proved to compute
 what module Renumber defines.
 */
module RenumberBuild {
  import opened Basics
  import opened Decimal
  import opened Renumber
  import opened RenumberMaps

  // ── Faults and entries, one by one ──────────────────────────────

  lemma {:induction false} FirstFaultAt(faults: seq<Option<Fault>>, i: nat)
    requires i < |faults| && faults[i].Some? && forall j :: 0 <= j < i ==> faults[j].None?
    ensures FirstFault(faults) == faults[i]
  {
    if i > 0 {
      FirstFaultAt(faults[1..], i - 1);
    }
  }

  lemma {:induction false} NoFault(faults: seq<Option<Fault>>)
    requires forall j :: 0 <= j < |faults| ==> faults[j].None?
    ensures FirstFault(faults) == None
  {
    if faults != [] {
      NoFault(faults[1..]);
    }
  }

  lemma InsertOne<V>(base: map<string, V>, entries: seq<Option<(string, V)>>, i: nat)
    requires i < |entries|
    ensures Inserted(base, entries[..i + 1])
         == match entries[i]
            case None => Inserted(base, entries[..i])
            case Some((key, value)) => Inserted(base, entries[..i])[key := value]
  {
    assert entries[..i + 1][..i] == entries[..i];
  }

  function Get<V>(m: map<string, V>, key: string, default: V): V {
    if key in m then m[key] else default
  }

  // ── First pass ──────────────────────────────────────────────────

  lemma CountOne(prefix: string, tags: seq<Tag>, i: nat, name: Name)
    requires i < |tags|
    ensures Count(prefix, tags[..i + 1], name)
         == Count(prefix, tags[..i], name) + (if tags[i].name == name && Declares(prefix, tags[i]).Some? then 1 else 0)
  {
    assert tags[..i + 1][..i] == tags[..i];
  }

  /** The maps after one more declaration. */
  lemma DeclareOne(prefix: string, tags: seq<Tag>, i: nat)
    requires i < |tags|
    ensures var t := tags[i];
            var m := Inserted(map[], DeclarationEntries(prefix, tags)[..i]);
            var indexes := Inserted(map[], IndexEntries(prefix, tags)[..i]);
            var n := Number(prefix, tags[..i], t);
            && Inserted(map[], DeclarationEntries(prefix, tags)[..i + 1])
               == (if Declares(prefix, t).Some? then m[Id(prefix, t) := NewId(prefix, Declares(prefix, t).value, n)] else m)
            && Inserted(map[], IndexEntries(prefix, tags)[..i + 1])
               == (if Declares(prefix, t).Some? && HasIndex(t) then indexes[Id(prefix, t) := n] else indexes)
  {
    InsertOne(map[], DeclarationEntries(prefix, tags), i);
    InsertOne(map[], IndexEntries(prefix, tags), i);
  }

  /** The state of the first pass: both maps, and the next number of each kind. */
  ghost predicate Numbered(prefix: string, tags: seq<Tag>, i: nat, renaming: map<string, string>,
                           parentInt: map<string, nat>, nextParam: nat, nextBlock: nat, nextSeparator: nat)
    requires i <= |tags|
  {
    && renaming == Inserted(map[], DeclarationEntries(prefix, tags)[..i])
    && parentInt == Inserted(map[], IndexEntries(prefix, tags)[..i])
    && nextParam == Count(prefix, tags[..i], Parameter) + 1
    && nextBlock == Count(prefix, tags[..i], ParameterBlock) + 1
    && nextSeparator == Count(prefix, tags[..i], ParameterSeparator) + 1
  }

  /** One more tag: a declaration enters the maps, and moves the counter of its kind. */
  lemma NumberedNext(prefix: string, tags: seq<Tag>, i: nat, renaming: map<string, string>,
                     parentInt: map<string, nat>, nextParam: nat, nextBlock: nat, nextSeparator: nat)
    requires i < |tags| && Numbered(prefix, tags, i, renaming, parentInt, nextParam, nextBlock, nextSeparator)
    ensures var t := tags[i];
            if Declares(prefix, t).None? then
              Numbered(prefix, tags, i + 1, renaming, parentInt, nextParam, nextBlock, nextSeparator)
            else
              var id := Id(prefix, t);
              var n := Number(prefix, tags[..i], t);
              && n == (match t.name
                       case Parameter => nextParam
                       case ParameterBlock => nextBlock
                       case ParameterSeparator => nextSeparator
                       case _ => n)
              && Numbered(prefix, tags, i + 1,
                          renaming[id := NewId(prefix, Declares(prefix, t).value, n)],
                          if HasIndex(t) then parentInt[id := n] else parentInt,
                          nextParam + (if t.name == Parameter then 1 else 0),
                          nextBlock + (if t.name == ParameterBlock then 1 else 0),
                          nextSeparator + (if t.name == ParameterSeparator then 1 else 0))
  {
    DeclareOne(prefix, tags, i);
    CountOne(prefix, tags, i, Parameter);
    CountOne(prefix, tags, i, ParameterBlock);
    CountOne(prefix, tags, i, ParameterSeparator);
  }

  lemma NumberedAll(prefix: string, tags: seq<Tag>, renaming: map<string, string>,
                    parentInt: map<string, nat>, nextParam: nat, nextBlock: nat, nextSeparator: nat)
    requires Numbered(prefix, tags, |tags|, renaming, parentInt, nextParam, nextBlock, nextSeparator)
    ensures renaming == Parents(prefix, tags) && parentInt == Indexes(prefix, tags)
  {
    assert DeclarationEntries(prefix, tags)[..|tags|] == DeclarationEntries(prefix, tags);
    assert IndexEntries(prefix, tags)[..|tags|] == IndexEntries(prefix, tags);
  }

  lemma DeclaringNames(prefix: string, t: Tag)
    requires Declares(prefix, t).Some?
    ensures t.name in {Parameter, ComObject, ParameterBlock, ParameterSeparator}
  {
  }

  /** Number the declarations in document order. */
  method NumberDeclarations(prefix: string, parsed: seq<Tag>)
    returns (fault: Option<Fault>, renaming: map<string, string>, parentInt: map<string, nat>)
    ensures fault == FirstFault(DeclarationFaults(prefix, parsed))
    ensures fault.None? ==> renaming == Parents(prefix, parsed) && parentInt == Indexes(prefix, parsed)
  {
    renaming, parentInt := map[], map[];
    var nextParam, nextBlock, nextSeparator := 1, 1, 1;
    ghost var faults := DeclarationFaults(prefix, parsed);
    for i := 0 to |parsed|
      invariant forall j :: 0 <= j < i ==> faults[j].None?
      invariant Numbered(prefix, parsed, i, renaming, parentInt, nextParam, nextBlock, nextSeparator)
    {
      fault, renaming, parentInt, nextParam, nextBlock, nextSeparator :=
        NumberOne(prefix, parsed, i, renaming, parentInt, nextParam, nextBlock, nextSeparator);
      if fault.Some? {
        FirstFaultAt(faults, i);
        return;
      }
    }
    NumberedAll(prefix, parsed, renaming, parentInt, nextParam, nextBlock, nextSeparator);
    NoFault(faults);
    fault := None;
  }

  /** One tag of the first pass. */
  method NumberOne(prefix: string, parsed: seq<Tag>, i: nat, renaming: map<string, string>,
                   parentInt: map<string, nat>, nextParam: nat, nextBlock: nat, nextSeparator: nat)
    returns (fault: Option<Fault>, renaming': map<string, string>, parentInt': map<string, nat>,
             nextParam': nat, nextBlock': nat, nextSeparator': nat)
    requires i < |parsed| && Numbered(prefix, parsed, i, renaming, parentInt, nextParam, nextBlock, nextSeparator)
    ensures fault == DeclarationFault(prefix, parsed[i])
    ensures fault.None? ==>
              Numbered(prefix, parsed, i + 1, renaming', parentInt', nextParam', nextBlock', nextSeparator')
  {
    var t := parsed[i];
    NumberedNext(prefix, parsed, i, renaming, parentInt, nextParam, nextBlock, nextSeparator);
    fault, renaming', parentInt' := None, renaming, parentInt;
    nextParam', nextBlock', nextSeparator' := nextParam, nextBlock, nextSeparator;
    var declares := Declares(prefix, t);
    if declares.None? {
      return;
    }
    DeclaringNames(prefix, t);
    var id := Id(prefix, t);
    var n := 0;
    if t.name == Parameter {
      n := nextParam;
      nextParam' := nextParam + 1;
      parentInt' := parentInt[id := n];
    } else if t.name == ComObject {
      fault, n := NumberOfComObject(prefix, t);
      if fault.Some? {
        return;
      }
      parentInt' := parentInt[id := n];
    } else if t.name == ParameterBlock {
      n := nextBlock;
      nextBlock' := nextBlock + 1;
    } else {
      n := nextSeparator;
      nextSeparator' := nextSeparator + 1;
    }
    renaming' := renaming[id := NewId(prefix, declares.value, n)];
  }

  /** The id suffix of a com-object equals its number, which has to be an integer. */
  method NumberOfComObject(prefix: string, t: Tag) returns (fault: Option<Fault>, n: nat)
    requires Declares(prefix, t).Some? && t.name == ComObject
    ensures fault == DeclarationFault(prefix, t)
    ensures fault.None? ==> forall before :: n == Number(prefix, before, t)
  {
    fault, n := None, 0;
    var number := GetAttr(t.attrs, "Number");
    if number.None? {
      return Some(NoNumber(Id(prefix, t))), 0;
    }
    var value := ParseU64(number.value);
    if value.None? {
      return Some(BadNumber(Id(prefix, t))), 0;
    }
    n := value.value;
  }

  // ── Splitting ───────────────────────────────────────────────────

  /** The first place at or after `from` where the boundary stands. */
  method FindBoundary(id: string, from: nat) returns (p: Option<nat>)
    requires from <= |id|
    ensures p.Some? ==> from <= p.value && BoundaryAt(id, p.value) && forall q :: from <= q < p.value ==> !BoundaryAt(id, q)
    ensures p.None? ==> forall q :: from <= q ==> !BoundaryAt(id, q)
  {
    var i := from;
    while i + 3 <= |id|
      invariant forall q :: from <= q < i ==> !BoundaryAt(id, q)
    {
      if id[i..i + 3] == BOUNDARY {
        return Some(i);
      }
      i := i + 1;
    }
    return None;
  }

  /** No two boundaries overlap. */
  lemma BoundariesApart(id: string, p: nat, q: nat)
    requires BoundaryAt(id, p) && p < q < p + 3
    ensures !BoundaryAt(id, q)
  {
    assert id[p..p + 3][q - p] == id[q];
    assert q + 3 <= |id| ==> id[q..q + 3][0] == id[q];
  }

  /** Split a reference where its left side is a key; `None` if there is no such place. */
  method SplitRef(id: string, renaming: map<string, string>) returns (r: Option<(string, string)>)
    ensures r == match SplitFrom(id, renaming.Keys, 0)
                 case None => None
                 case Some(p) => Some((id[..p], id[p + 3..]))
  {
    var from := 0;
    while true
      invariant from <= |id| && forall q :: 0 <= q < from ==> !SplitsAt(id, renaming.Keys, q)
      decreases |id| - from
    {
      var found := FindBoundary(id, from);
      if found.None? {
        NeverSplits(id, renaming.Keys);
        return None;
      }
      var pos := found.value;
      if id[..pos] in renaming {
        FirstSplit(id, renaming.Keys, pos);
        return Some((id[..pos], id[pos + 3..]));
      }
      forall q | pos < q < pos + 3 ensures !SplitsAt(id, renaming.Keys, q) {
        BoundariesApart(id, pos, q);
      }
      from := pos + 3;
    }
  }

  lemma NeverSplits(id: string, keys: set<string>)
    requires forall q: nat :: !SplitsAt(id, keys, q)
    ensures SplitFrom(id, keys, 0).None?
  {
  }

  // ── Second pass ─────────────────────────────────────────────────

  lemma CarriedOne(prefix: string, keys: set<string>, tags: seq<Tag>, i: nat, parent: string)
    requires i < |tags|
    ensures Carried(prefix, keys, tags[..i + 1], parent)
         == Carried(prefix, keys, tags[..i], parent)
            + (if RefUnder(prefix, keys, tags[i], ComObjectRef, parent) && Kept(prefix, keys, tags[i]).Some? then
                 {Kept(prefix, keys, tags[i]).value}
               else {})
  {
    assert tags[..i + 1][..i] == tags[..i];
  }

  /** Collect the numbers that com-object references already carry, per parent. */
  method CollectCarried(prefix: string, parsed: seq<Tag>, renaming: map<string, string>)
    returns (used: map<string, set<nat>>)
    ensures forall q :: Get(used, q, {}) == Carried(prefix, renaming.Keys, parsed, q)
  {
    used := map[];
    for i := 0 to |parsed|
      invariant forall q :: Get(used, q, {}) == Carried(prefix, renaming.Keys, parsed[..i], q)
    {
      var t := parsed[i];
      forall q ensures Carried(prefix, renaming.Keys, parsed[..i + 1], q)
                    == Carried(prefix, renaming.Keys, parsed[..i], q)
                       + (if RefUnder(prefix, renaming.Keys, t, ComObjectRef, q) && Kept(prefix, renaming.Keys, t).Some?
                          then {Kept(prefix, renaming.Keys, t).value} else {})
      {
        CarriedOne(prefix, renaming.Keys, parsed, i, q);
      }
      if t.name == ComObjectRef && ScopedId(prefix, t).Some? {
        var split := SplitRef(Id(prefix, t), renaming);
        if split.Some? {
          var n := ParseU64(split.value.1);
          if n.Some? {
            used := used[split.value.0 := Get(used, split.value.0, {}) + {n.value}];
          }
        }
      }
    }
    assert parsed[..|parsed|] == parsed;
  }

  /** The loop that looks for a number that is not used. */
  method FindFree(used: set<nat>, start: nat) returns (n: nat)
    ensures n == NextFree(used, start)
  {
    n := start + 1;
    while n in used
      invariant start < n && forall k :: start < k < n ==> k in used
      decreases |used - Below(n - 1, used)|
    {
      assert Below(n, used) == Below(n - 1, used) + {n};
      assert used - Below(n, used) < used - Below(n - 1, used);
      SmallerSet(used - Below(n, used), used - Below(n - 1, used));
      n := n + 1;
    }
  }

  lemma InstancesOne(prefix: string, keys: set<string>, tags: seq<Tag>, i: nat, parent: string)
    requires i < |tags|
    ensures Instances(prefix, keys, tags[..i + 1], parent)
         == Instances(prefix, keys, tags[..i], parent)
            + (if RefUnder(prefix, keys, tags[i], ParameterRef, parent) then 1 else 0)
  {
    assert tags[..i + 1][..i] == tags[..i];
  }

  lemma SupplyOne(prefix: string, keys: set<string>, tags: seq<Tag>, i: nat, parent: string)
    requires i < |tags|
    ensures var s := SupplyAfter(prefix, keys, tags, tags[..i], parent);
            SupplyAfter(prefix, keys, tags, tags[..i + 1], parent)
            == if RefUnder(prefix, keys, tags[i], ComObjectRef, parent) && Kept(prefix, keys, tags[i]).None? then
                 Supply(s.used + {NextFree(s.used, s.last)}, NextFree(s.used, s.last))
               else s
  {
    assert tags[..i + 1][..i] == tags[..i];
  }

  /** While references are added to the map, they change neither how ids split nor where parents point. */
  lemma GrowingMap(prefix: string, tags: seq<Tag>, i: nat, m: map<string, string>, id: string)
    requires i <= |tags| && m == Inserted(Parents(prefix, tags), RefEntries(prefix, tags)[..i])
    ensures SplitFrom(id, m.Keys, 0) == SplitFrom(id, Parents(prefix, tags).Keys, 0)
    ensures ParentOf(id, Parents(prefix, tags).Keys).Some? ==>
              var parent := ParentOf(id, Parents(prefix, tags).Keys).value;
              parent in m && parent in Parents(prefix, tags) && m[parent] == Parents(prefix, tags)[parent]
  {
    var parents := Parents(prefix, tags);
    var entries := RefEntries(prefix, tags)[..i];
    forall x | x in m.Keys - parents.Keys ensures ParentOf(x, parents.Keys).Some? {
      InsertedKey(parents, entries, x);
      var j :| 0 <= j < |entries| && Inserts(entries, j, x);
      RefInserts(prefix, tags, j, x);
    }
    forall x | x in parents ensures x in m {
      KeysStay(parents, entries, x);
    }
    ReferencesDoNotSplit(id, parents.Keys, m.Keys - parents.Keys);
    assert parents.Keys + (m.Keys - parents.Keys) == m.Keys;
    if SplitFrom(id, parents.Keys, 0).Some? {
      ParentStays(prefix, tags, i, id);
    }
  }

  lemma InsertedKey<V(!new)>(base: map<string, V>, entries: seq<Option<(string, V)>>, key: string)
    requires key in Inserted(base, entries) && key !in base
    ensures exists j :: 0 <= j < |entries| && Inserts(entries, j, key)
  {
    if forall j :: 0 <= j < |entries| ==> !Inserts(entries, j, key) {
      WithoutEntry(base, entries, key);
    }
  }

  lemma {:induction false} KeysStay<V(!new)>(base: map<string, V>, entries: seq<Option<(string, V)>>, key: string)
    requires key in base
    ensures key in Inserted(base, entries)
  {
    if entries != [] {
      KeysStay(base, entries[..|entries| - 1], key);
    }
  }

  lemma ParentStays(prefix: string, tags: seq<Tag>, i: nat, id: string)
    requires i <= |tags| && ParentOf(id, Parents(prefix, tags).Keys).Some?
    ensures var parents := Parents(prefix, tags);
            var m := Inserted(parents, RefEntries(prefix, tags)[..i]);
            var parent := ParentOf(id, parents.Keys).value;
            parent in m && parent in parents && m[parent] == parents[parent]
  {
    var parents := Parents(prefix, tags);
    var entries := RefEntries(prefix, tags)[..i];
    var p := SplitFrom(id, parents.Keys, 0).value;
    NoSplitBefore(id, parents.Keys, p);
    forall j | 0 <= j < i ensures !Inserts(entries, j, id[..p]) {
      RefInserts(prefix, tags, j, id[..p]);
    }
    WithoutEntry(parents, entries, id[..p]);
  }

  /** The new suffix of one reference, from the state of the second pass before it. */
  lemma SuffixOne(prefix: string, tags: seq<Tag>, i: nat, base: nat, instances: nat, supply: Supply)
    requires RefAt(prefix, tags, i)
    requires var keys := Parents(prefix, tags).Keys;
             var parent := Parent(prefix, tags, i);
             && (parent in Indexes(prefix, tags) ==> base == Indexes(prefix, tags)[parent])
             && (parent !in Indexes(prefix, tags) ==> base == 0)
             && instances == Instances(prefix, keys, tags[..i], parent)
             && supply == SupplyAfter(prefix, keys, tags, tags[..i], parent)
    ensures NewSuffix(prefix, tags, i)
         == if tags[i].name == ParameterRef then Digits(base) + TwoDigits(instances + 1)
            else match Kept(prefix, Parents(prefix, tags).Keys, tags[i])
                 case Some(n) => Digits(n)
                 case None => Digits(NextFree(supply.used, supply.last))
  {
    InstancesOne(prefix, Parents(prefix, tags).Keys, tags, i, Parent(prefix, tags, i));
    SupplyOne(prefix, Parents(prefix, tags).Keys, tags, i, Parent(prefix, tags, i));
  }

  /** The state of the second pass: instances per parent, and the numbers in use and last handed out. */
  ghost predicate PassState(prefix: string, tags: seq<Tag>, i: nat, instances: map<string, nat>,
                            used: map<string, set<nat>>, next: map<string, nat>)
    requires i <= |tags|
  {
    var keys := Parents(prefix, tags).Keys;
    && (forall q :: Get(instances, q, 0) == Instances(prefix, keys, tags[..i], q))
    && (forall q :: Supply(Get(used, q, {}), Get(next, q, 0)) == SupplyAfter(prefix, keys, tags, tags[..i], q))
  }

  lemma PassStarts(prefix: string, tags: seq<Tag>, used: map<string, set<nat>>)
    requires forall q :: Get(used, q, {}) == Carried(prefix, Parents(prefix, tags).Keys, tags, q)
    ensures PassState(prefix, tags, 0, map[], used, map[])
    ensures Parents(prefix, tags) == Inserted(Parents(prefix, tags), RefEntries(prefix, tags)[..0])
  {
  }

  lemma OtherParents(prefix: string, tags: seq<Tag>, i: nat, q: string)
    requires i < |tags|
    requires !(RefAt(prefix, tags, i) && Parent(prefix, tags, i) == q)
    ensures var keys := Parents(prefix, tags).Keys;
            && Instances(prefix, keys, tags[..i + 1], q) == Instances(prefix, keys, tags[..i], q)
            && SupplyAfter(prefix, keys, tags, tags[..i + 1], q) == SupplyAfter(prefix, keys, tags, tags[..i], q)
  {
    InstancesOne(prefix, Parents(prefix, tags).Keys, tags, i, q);
    SupplyOne(prefix, Parents(prefix, tags).Keys, tags, i, q);
  }

  lemma NoReferenceKeepsState(prefix: string, tags: seq<Tag>, i: nat, instances: map<string, nat>,
                              used: map<string, set<nat>>, next: map<string, nat>)
    requires i < |tags| && !RefAt(prefix, tags, i) && PassState(prefix, tags, i, instances, used, next)
    ensures PassState(prefix, tags, i + 1, instances, used, next)
  {
    var keys := Parents(prefix, tags).Keys;
    forall q ensures Get(instances, q, 0) == Instances(prefix, keys, tags[..i + 1], q)
      ensures Supply(Get(used, q, {}), Get(next, q, 0)) == SupplyAfter(prefix, keys, tags, tags[..i + 1], q)
    {
      OtherParents(prefix, tags, i, q);
    }
  }

  /** A reference changes the state of its own parent only. */
  lemma ReferenceKeepsState(prefix: string, tags: seq<Tag>, i: nat, instances: map<string, nat>,
                            used: map<string, set<nat>>, next: map<string, nat>, instances': map<string, nat>,
                            used': map<string, set<nat>>, next': map<string, nat>)
    requires RefAt(prefix, tags, i) && PassState(prefix, tags, i, instances, used, next)
    requires var parent := Parent(prefix, tags, i);
             var supply := Supply(Get(used, parent, {}), Get(next, parent, 0));
             var free := NextFree(supply.used, supply.last);
             if tags[i].name == ParameterRef then
               instances' == instances[parent := Get(instances, parent, 0) + 1] && used' == used && next' == next
             else if Kept(prefix, Parents(prefix, tags).Keys, tags[i]).Some? then
               instances' == instances && used' == used && next' == next
             else
               instances' == instances && used' == used[parent := supply.used + {free}] && next' == next[parent := free]
    ensures PassState(prefix, tags, i + 1, instances', used', next')
  {
    var keys := Parents(prefix, tags).Keys;
    var parent := Parent(prefix, tags, i);
    InstancesOne(prefix, keys, tags, i, parent);
    SupplyOne(prefix, keys, tags, i, parent);
    forall q ensures Get(instances', q, 0) == Instances(prefix, keys, tags[..i + 1], q)
      ensures Supply(Get(used', q, {}), Get(next', q, 0)) == SupplyAfter(prefix, keys, tags, tags[..i + 1], q)
    {
      if q != parent {
        OtherParents(prefix, tags, i, q);
      }
    }
  }

  /** The suffix of one reference; the maps of its parent move on. */
  method NameReference(prefix: string, ghost parsed: seq<Tag>, ghost i: nat, t: Tag, parent: string, suffix: string,
                       parentInt: map<string, nat>, instances: map<string, nat>, used: map<string, set<nat>>,
                       next: map<string, nat>)
    returns (newSuffix: string, instances': map<string, nat>, used': map<string, set<nat>>, next': map<string, nat>)
    requires RefAt(prefix, parsed, i) && t == parsed[i] && PassState(prefix, parsed, i, instances, used, next)
    requires parentInt == Indexes(prefix, parsed) && (t.name == ParameterRef ==> parent in parentInt)
    requires parent == Parent(prefix, parsed, i) && suffix == SuffixOf(Id(prefix, t), Parents(prefix, parsed).Keys)
    ensures newSuffix == NewSuffix(prefix, parsed, i)
    ensures PassState(prefix, parsed, i + 1, instances', used', next')
  {
    SuffixOne(prefix, parsed, i, Get(parentInt, parent, 0), Get(instances, parent, 0),
              Supply(Get(used, parent, {}), Get(next, parent, 0)));
    instances', used', next' := instances, used, next;
    if t.name == ParameterRef {
      instances' := instances[parent := Get(instances, parent, 0) + 1];
      newSuffix := Digits(parentInt[parent]) + TwoDigits(instances'[parent]);
    } else {
      var n := ParseU64(suffix);
      if n.Some? {
        newSuffix := Digits(n.value);
      } else {
        var free := FindFree(Get(used, parent, {}), Get(next, parent, 0));
        used' := used[parent := Get(used, parent, {}) + {free}];
        next' := next[parent := free];
        newSuffix := Digits(free);
      }
    }
    ReferenceKeepsState(prefix, parsed, i, instances, used, next, instances', used', next');
  }

  /** The renaming map before one more tag: how a reference splits in it, and what it becomes. */
  lemma RenameOne(prefix: string, tags: seq<Tag>, i: nat, m: map<string, string>)
    requires i < |tags| && m == Inserted(Parents(prefix, tags), RefEntries(prefix, tags)[..i])
    ensures var next := Inserted(Parents(prefix, tags), RefEntries(prefix, tags)[..i + 1]);
            if !RefAt(prefix, tags, i) then next == m
            else
              var id := Id(prefix, tags[i]);
              && SplitFrom(id, m.Keys, 0).Some?
              && ParentOf(id, m.Keys) == Some(Parent(prefix, tags, i))
              && SuffixOf(id, m.Keys) == SuffixOf(id, Parents(prefix, tags).Keys)
              && Parent(prefix, tags, i) in m
              && next == m[id := m[Parent(prefix, tags, i)] + BOUNDARY + NewSuffix(prefix, tags, i)]
    ensures IsRef(prefix, tags[i]) && !RefAt(prefix, tags, i) ==>
              && SplitFrom(Id(prefix, tags[i]), m.Keys, 0).None?
              && RefFaultAt(prefix, tags, i) == Some(UndeclaredParent(Id(prefix, tags[i])))
    ensures RefAt(prefix, tags, i) ==>
              RefFaultAt(prefix, tags, i) ==
                if tags[i].name == ParameterRef && Parent(prefix, tags, i) !in Indexes(prefix, tags) then
                  Some(NoIndex(Id(prefix, tags[i])))
                else None
    ensures !IsRef(prefix, tags[i]) ==> RefFaultAt(prefix, tags, i).None?
  {
    InsertOne(Parents(prefix, tags), RefEntries(prefix, tags), i);
    RefEntryAt(prefix, tags, i);
    if IsRef(prefix, tags[i]) {
      GrowingMap(prefix, tags, i, m, Id(prefix, tags[i]));
    }
  }

  lemma RenamedAll(prefix: string, tags: seq<Tag>, m: map<string, string>)
    requires m == Inserted(Parents(prefix, tags), RefEntries(prefix, tags)[..|tags|])
    ensures m == Renaming(prefix, tags)
  {
    assert RefEntries(prefix, tags)[..|tags|] == RefEntries(prefix, tags);
  }

  /** No reference among the first `i` tags is faulty. */
  ghost predicate CleanTo(prefix: string, tags: seq<Tag>, i: nat)
    requires i <= |tags|
  {
    i == 0 || (CleanTo(prefix, tags, i - 1) && RefFaultAt(prefix, tags, i - 1).None?)
  }

  lemma {:induction false} CleanAt(prefix: string, tags: seq<Tag>, i: nat, j: nat)
    requires j < i <= |tags| && CleanTo(prefix, tags, i)
    ensures RefFaultAt(prefix, tags, j).None?
  {
    if j < i - 1 {
      CleanAt(prefix, tags, i - 1, j);
    }
  }

  lemma NoRefFault(prefix: string, tags: seq<Tag>)
    requires CleanTo(prefix, tags, |tags|)
    ensures FirstFault(RefFaults(prefix, tags)) == None
  {
    forall j | 0 <= j < |tags| ensures RefFaultAt(prefix, tags, j).None? {
      CleanAt(prefix, tags, |tags|, j);
    }
    NoFault(RefFaults(prefix, tags));
  }

  lemma FirstRefFault(prefix: string, tags: seq<Tag>, i: nat)
    requires i < |tags| && RefFaultAt(prefix, tags, i).Some? && CleanTo(prefix, tags, i)
    ensures FirstFault(RefFaults(prefix, tags)) == RefFaultAt(prefix, tags, i)
  {
    forall j | 0 <= j < i ensures RefFaultAt(prefix, tags, j).None? {
      CleanAt(prefix, tags, i, j);
    }
    FirstFaultAt(RefFaults(prefix, tags), i);
  }

  /** One tag of the second pass. */
  method NameOne(prefix: string, parsed: seq<Tag>, i: nat, renaming: map<string, string>, parentInt: map<string, nat>,
                 instances: map<string, nat>, used: map<string, set<nat>>, next: map<string, nat>)
    returns (fault: Option<Fault>, renaming': map<string, string>,
             instances': map<string, nat>, used': map<string, set<nat>>, next': map<string, nat>)
    requires i < |parsed| && parentInt == Indexes(prefix, parsed)
    requires renaming == Inserted(Parents(prefix, parsed), RefEntries(prefix, parsed)[..i])
    requires PassState(prefix, parsed, i, instances, used, next) && CleanTo(prefix, parsed, i)
    ensures fault.Some? ==> fault == FirstFault(RefFaults(prefix, parsed))
    ensures fault.None? ==>
              && CleanTo(prefix, parsed, i + 1)
              && renaming' == Inserted(Parents(prefix, parsed), RefEntries(prefix, parsed)[..i + 1])
              && PassState(prefix, parsed, i + 1, instances', used', next')
  {
    var t := parsed[i];
    RenameOne(prefix, parsed, i, renaming);
    fault, renaming', instances', used', next' := None, renaming, instances, used, next;
    if !IsRef(prefix, t) {
      NoReferenceKeepsState(prefix, parsed, i, instances, used, next);
      return;
    }
    var id := Id(prefix, t);
    var split := SplitRef(id, renaming);
    if split.None? {
      FirstRefFault(prefix, parsed, i);
      return Some(UndeclaredParent(id)), renaming, instances, used, next;
    }
    var (parent, suffix) := split.value;
    if t.name == ParameterRef && parent !in parentInt {
      FirstRefFault(prefix, parsed, i);
      return Some(NoIndex(id)), renaming, instances, used, next;
    }
    var newSuffix;
    newSuffix, instances', used', next' :=
      NameReference(prefix, parsed, i, t, parent, suffix, parentInt, instances, used, next);
    renaming' := renaming[id := renaming[parent] + BOUNDARY + newSuffix];
  }

  /** Name the references after their parents, in document order. */
  method NameReferences(prefix: string, parsed: seq<Tag>, parents: map<string, string>, parentInt: map<string, nat>)
    returns (fault: Option<Fault>, renaming: map<string, string>)
    requires parents == Parents(prefix, parsed) && parentInt == Indexes(prefix, parsed)
    ensures fault == FirstFault(RefFaults(prefix, parsed))
    ensures fault.None? ==> renaming == Renaming(prefix, parsed)
  {
    var used := CollectCarried(prefix, parsed, parents);
    PassStarts(prefix, parsed, used);
    fault, renaming := NameAll(prefix, parsed, parents, parentInt, used);
    if fault.None? {
      RenamedAll(prefix, parsed, renaming);
      NoRefFault(prefix, parsed);
    }
  }

  /** The loop of the second pass. */
  method NameAll(prefix: string, parsed: seq<Tag>, parents: map<string, string>, parentInt: map<string, nat>,
                 carried: map<string, set<nat>>)
    returns (fault: Option<Fault>, renaming: map<string, string>)
    requires parents == Parents(prefix, parsed) && parentInt == Indexes(prefix, parsed)
    requires PassState(prefix, parsed, 0, map[], carried, map[])
    ensures fault.Some? ==> fault == FirstFault(RefFaults(prefix, parsed))
    ensures fault.None? ==>
              && CleanTo(prefix, parsed, |parsed|)
              && renaming == Inserted(Parents(prefix, parsed), RefEntries(prefix, parsed)[..|parsed|])
  {
    renaming := parents;
    var instances, used, next := map[], carried, map[];
    var i := 0;
    while i < |parsed|
      invariant i <= |parsed| && CleanTo(prefix, parsed, i)
      invariant renaming == Inserted(Parents(prefix, parsed), RefEntries(prefix, parsed)[..i])
      invariant PassState(prefix, parsed, i, instances, used, next)
    {
      fault, renaming, instances, used, next :=
        NameOne(prefix, parsed, i, renaming, parentInt, instances, used, next);
      if fault.Some? {
        return;
      }
      i := i + 1;
    }
    fault := None;
  }

  /** Build the full map from old ids to new ones. */
  method BuildMap(prefix: string, parsed: seq<Tag>) returns (r: Result<map<string, string>, Fault>)
    ensures r == Built(prefix, parsed)
  {
    var fault, parents, parentInt := NumberDeclarations(prefix, parsed);
    if fault.Some? {
      return Err(fault.value);
    }
    var second, renaming := NameReferences(prefix, parsed, parents, parentInt);
    if second.Some? {
      return Err(second.value);
    }
    return Ok(renaming);
  }
}
