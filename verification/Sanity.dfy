/**
 The check that every numbered part of an id is an integer (`bad_integer_suffix`), and that
 renumbered ids pass it.
 */
module Sanity {
  import opened Basics
  import opened Decimal
  import opened Renumber
  import opened RenumberMaps
  import opened RenumberTwice

  /** The type markers whose suffix has to be a base-10 integer, in the order they are looked for. */
  const INT_MARKERS: seq<string> := ["_UP-", "_P-", "_O-", "_R-", "_PB-", "_PS-"]

  predicate OccursAt(s: string, pattern: string, p: nat) {
    p + |pattern| <= |s| && s[p..p + |pattern|] == pattern
  }

  /** The first occurrence at or after `from`. */
  function NextOccurrence(s: string, pattern: string, from: nat): (p: Option<nat>)
    ensures p.Some? ==> from <= p.value && OccursAt(s, pattern, p.value)
    ensures p.Some? ==> forall q :: from <= q < p.value ==> !OccursAt(s, pattern, q)
    ensures p.None? ==> forall q :: from <= q ==> !OccursAt(s, pattern, q)
    decreases |s| - from
  {
    if from + |pattern| > |s| then None
    else if OccursAt(s, pattern, from) then Some(from)
    else NextOccurrence(s, pattern, from + 1)
  }

  /** The leading part without underscores and quotes. */
  function Segment(s: string): string {
    if s == [] || s[0] == '_' || s[0] == '\"' then [] else [s[0]] + Segment(s[1..])
  }

  /** An underscore at the beginning, and no other. */
  predicate IsMarker(marker: string) {
    |marker| >= 2 && marker[0] == '_' && forall i :: 1 <= i < |marker| ==> marker[i] != '_'
  }

  predicate AllMarkers(markers: seq<string>) {
    forall i :: 0 <= i < |markers| ==> IsMarker(markers[i])
  }

  /** Behind position `q` there is a non-empty run of digits that ends with an underscore, a quote, or the string. */
  predicate IntegerAt(s: string, q: nat)
    requires q <= |s|
  {
    IsDigits(Segment(s[q..]))
  }

  /** The marker stands at `p`, and no integer follows it. */
  predicate BadAt(s: string, marker: string, p: nat) {
    OccursAt(s, marker, p) && !IntegerAt(s, p + |marker|)
  }

  function BadFrom(s: string, marker: string, from: nat): (p: Option<nat>)
    ensures p.Some? ==> BadAt(s, marker, p.value) && forall q :: from <= q < p.value ==> !BadAt(s, marker, q)
    ensures p.None? ==> forall q :: from <= q ==> !BadAt(s, marker, q)
    decreases |s| - from
  {
    if from + |marker| > |s| then None
    else if BadAt(s, marker, from) then Some(from)
    else BadFrom(s, marker, from + 1)
  }

  /** The first marker without an integer, with what follows it instead. */
  function BadFor(s: string, marker: string): Option<string> {
    match BadFrom(s, marker, 0)
    case None => None
    case Some(p) => Some(marker + Segment(s[p + |marker|..]))
  }

  function FirstBad(search: string, markers: seq<string>): Option<string>
    requires AllMarkers(markers)
  {
    if markers == [] then None
    else if BadFor(search, markers[0]).Some? then BadFor(search, markers[0])
    else FirstBad(search, markers[1..])
  }

  /** The marker an id starts with behind the prefix: up to and including the first hyphen. */
  function Leading(after: string): Option<string> {
    match NextOccurrence(after, "-", 0)
    case None => None
    case Some(e) => Some("_" + after[..e + 1])
  }

  function BadIntegerSuffix(value: string, prefix: string): Option<string> {
    match NextOccurrence(value, prefix, 0)
    case None => None
    case Some(start) =>
      match Leading(value[start + |prefix|..])
      case None => None
      case Some(leading) =>
        if leading !in INT_MARKERS then None
        else
          MarkersAreMarkers();
          FirstBad(value[start..], INT_MARKERS)
  }

  lemma MarkersAreMarkers()
    ensures AllMarkers(INT_MARKERS)
  {
    forall i | 0 <= i < |INT_MARKERS| ensures IsMarker(INT_MARKERS[i]) {
      assert INT_MARKERS[i] in {"_UP-", "_P-", "_O-", "_R-", "_PB-", "_PS-"};
    }
  }

  // ── The loops ───────────────────────────────────────────────────

  /** Walk over the occurrences of one marker in a shrinking slice. */
  method CheckMarker(value: string, marker: string) returns (bad: Option<string>)
    requires IsMarker(marker)
    ensures bad == BadFor(value, marker)
  {
    var search := value;
    ghost var k: nat := 0;
    while true
      invariant k <= |value| && search == value[k..]
      invariant CleanBefore(value, marker, k)
      decreases |search|
    {
      SliceStep(value, marker, k, search);
      var pos := NextOccurrence(search, marker, 0);
      if pos.None? {
        return None;
      }
      var after := search[pos.value + |marker|..];
      var segment := Segment(after);
      if !IsDigits(segment) {
        return Some(marker + segment);
      }
      search, k := after, k + pos.value + |marker|;
    }
  }

  /** No marker before `k` lacks its integer. */
  ghost predicate CleanBefore(s: string, marker: string, k: nat) {
    forall q :: 0 <= q < k ==> !BadAt(s, marker, q)
  }

  /** What the next occurrence in the slice says about the whole string. */
  lemma SliceStep(s: string, marker: string, k: nat, search: string)
    requires IsMarker(marker) && k <= |s| && search == s[k..] && CleanBefore(s, marker, k)
    ensures match NextOccurrence(search, marker, 0)
            case None => BadFor(s, marker) == None
            case Some(p) =>
              var next := k + p + |marker|;
              var after := search[p + |marker|..];
              && next <= |s| && after == s[next..]
              && if IsDigits(Segment(after)) then CleanBefore(s, marker, next)
                 else BadFor(s, marker) == Some(marker + Segment(after))
  {
    FindInSlice(s, k, marker);
    match NextOccurrence(s, marker, k)
    case Some(p) =>
      SliceBehind(s, k, p + |marker|);
      WholeStep(s, marker, k, p, search[p - k + |marker|..]);
    case None => NoMoreBad(s, marker, k);
  }

  lemma NoMoreBad(s: string, marker: string, k: nat)
    requires NextOccurrence(s, marker, k).None? && CleanBefore(s, marker, k)
    ensures BadFor(s, marker).None?
  {
  }

  lemma SliceBehind(s: string, k: nat, n: nat)
    requires k <= n <= |s|
    ensures s[k..][n - k..] == s[n..]
  {
  }

  lemma WholeStep(s: string, marker: string, k: nat, p: nat, after: string)
    requires IsMarker(marker) && NextOccurrence(s, marker, k) == Some(p) && CleanBefore(s, marker, k)
    requires after == s[p + |marker|..]
    ensures if IsDigits(Segment(after)) then CleanBefore(s, marker, p + |marker|)
            else BadFor(s, marker) == Some(marker + Segment(after))
  {
    if IntegerAt(s, p + |marker|) {
      forall q | 0 <= q < p + |marker| ensures !BadAt(s, marker, q) {
        if p < q {
          NoOverlap(s, marker, p, q);
        }
      }
    } else {
      assert BadAt(s, marker, p);
      FirstBadIs(s, marker, p);
    }
  }

  lemma FirstBadIs(s: string, marker: string, p: nat)
    requires BadAt(s, marker, p) && forall q :: 0 <= q < p ==> !BadAt(s, marker, q)
    ensures BadFor(s, marker) == Some(marker + Segment(s[p + |marker|..]))
  {
    var found := BadFrom(s, marker, 0);
    assert found.Some?;
  }

  lemma MarkerByMarker(search: string, markers: seq<string>, i: nat)
    requires i < |markers| && AllMarkers(markers)
    ensures FirstBad(search, markers[i..])
         == if BadFor(search, markers[i]).Some? then BadFor(search, markers[i]) else FirstBad(search, markers[i + 1..])
  {
    assert markers[i..][0] == markers[i] && markers[i..][1..] == markers[i + 1..];
  }

  method CheckSuffixes(value: string, prefix: string) returns (bad: Option<string>)
    ensures bad == BadIntegerSuffix(value, prefix)
  {
    var start := NextOccurrence(value, prefix, 0);
    if start.None? {
      return None;
    }
    var leading := Leading(value[start.value + |prefix|..]);
    if leading.None? || leading.value !in INT_MARKERS {
      return None;
    }
    MarkersAreMarkers();
    bad := CheckMarkers(value[start.value..], INT_MARKERS);
  }

  /** One marker after the other. */
  method CheckMarkers(search: string, markers: seq<string>) returns (bad: Option<string>)
    requires AllMarkers(markers)
    ensures bad == FirstBad(search, markers)
  {
    assert markers[0..] == markers;
    for i := 0 to |markers|
      invariant FirstBad(search, markers[i..]) == FirstBad(search, markers)
    {
      MarkerByMarker(search, markers, i);
      bad := CheckMarker(search, markers[i]);
      if bad.Some? {
        return;
      }
    }
    return None;
  }

  // ── What the check means ────────────────────────────────────────

  /** An integer follows every occurrence of the marker. */
  ghost predicate AllInteger(s: string, marker: string) {
    forall p :: 0 <= p && OccursAt(s, marker, p) ==> IntegerAt(s, p + |marker|)
  }

  lemma OccursInSlice(s: string, k: nat, pattern: string, q: nat)
    requires k <= |s|
    ensures OccursAt(s[k..], pattern, q) <==> OccursAt(s, pattern, k + q)
  {
    if k + q + |pattern| <= |s| {
      assert s[k..][q..q + |pattern|] == s[k + q..k + q + |pattern|];
    }
  }

  lemma FindInSlice(s: string, k: nat, pattern: string)
    requires k <= |s|
    ensures match NextOccurrence(s, pattern, k)
            case None => NextOccurrence(s[k..], pattern, 0).None?
            case Some(p) => NextOccurrence(s[k..], pattern, 0) == Some(p - k)
  {
    if NextOccurrence(s[k..], pattern, 0).Some? {
      OccursInSlice(s, k, pattern, NextOccurrence(s[k..], pattern, 0).value);
    }
    if NextOccurrence(s, pattern, k).Some? {
      OccursInSlice(s, k, pattern, NextOccurrence(s, pattern, k).value - k);
    }
  }

  /** Markers do not overlap themselves. */
  lemma NoOverlap(s: string, marker: string, p: nat, q: nat)
    requires IsMarker(marker) && OccursAt(s, marker, p) && p < q < p + |marker|
    ensures !OccursAt(s, marker, q)
  {
    assert s[p..p + |marker|][q - p] == s[q];
    assert q + |marker| <= |s| ==> s[q..q + |marker|][0] == s[q];
  }

  /** The check finds no fault with a marker exactly if an integer follows every occurrence of it. */
  lemma NoBad(s: string, marker: string)
    ensures BadFor(s, marker).None? <==> AllInteger(s, marker)
  {
    if AllInteger(s, marker) {
      assert forall p :: 0 <= p ==> !BadAt(s, marker, p);
    } else {
      var p: nat :| OccursAt(s, marker, p) && !IntegerAt(s, p + |marker|);
      assert BadAt(s, marker, p);
    }
  }

  lemma {:induction false} NoneBad(s: string, markers: seq<string>)
    requires AllMarkers(markers)
    ensures FirstBad(s, markers).None? <==> forall i :: 0 <= i < |markers| ==> AllInteger(s, markers[i])
  {
    if markers != [] {
      NoBad(s, markers[0]);
      NoneBad(s, markers[1..]);
      assert forall i :: 1 <= i < |markers| ==> markers[i] == markers[1..][i - 1];
      assert forall i :: 0 <= i < |markers| - 1 ==> markers[1..][i] == markers[i + 1];
    }
  }

  // ── Renumbered ids ──────────────────────────────────────────────

  lemma {:induction false} SegmentOfDigits(d: string, more: string)
    requires forall i :: 0 <= i < |d| ==> IsDigit(d[i])
    requires more == [] || more[0] == '_'
    ensures Segment(d + more) == d
  {
    if d == [] {
      assert d + more == more;
    } else {
      SegmentOfDigits(d[1..], more);
      assert (d + more)[1..] == d[1..] + more;
    }
  }

  /** A segment does not reach beyond an underscore. */
  lemma {:induction false} SegmentStops(a: string, more: string, i: nat)
    requires i < |a| && a[i] == '_'
    ensures Segment(a + more) == Segment(a)
  {
    assert (a + more)[1..] == a[1..] + more;
    if i > 0 {
      SegmentStops(a[1..], more, i - 1);
    }
  }

  /** What may follow the new id of a declaration in a new id: nothing, or a numbered reference. */
  predicate Follows(more: string) {
    more == [] || (StartsWith(more, BOUNDARY) && IsDigits(more[3..]))
  }

  lemma OccursPointwise(s: string, pattern: string, p: nat)
    ensures OccursAt(s, pattern, p)
            <==> p + |pattern| <= |s| && forall i :: 0 <= i < |pattern| ==> s[p + i] == pattern[i]
  {
    if p + |pattern| <= |s| {
      var slice := s[p..p + |pattern|];
      assert forall i :: 0 <= i < |slice| ==> slice[i] == s[p + i];
    }
  }

  /** The integer markers, letter by letter. */
  lemma MarkerList(marker: string)
    requires marker in INT_MARKERS
    ensures IsMarker(marker) && 3 <= |marker| <= 4 && marker[|marker| - 1] == '-'
    ensures |marker| == 3 ==> marker[1] == 'P' || marker[1] == 'O' || marker[1] == 'R'
    ensures |marker| == 4 ==> (marker[1] == 'U' && marker[2] == 'P') || (marker[1] == 'P' && marker[2] in {'B', 'S'})
    ensures marker == BOUNDARY <==> marker[1] == 'R'
  {
    MarkersAreMarkers();
    assert marker in {"_UP-", "_P-", "_O-", "_R-", "_PB-", "_PS-"};
  }

  /** The marker of a type of ids. */
  function MarkerText(m: Marker): string {
    "_" + Text(m) + "-"
  }

  lemma OwnMarkerIsListed(m: Marker)
    ensures MarkerText(m) in INT_MARKERS
  {
    match m
    case UP => assert INT_MARKERS[0] == MarkerText(m);
    case P => assert INT_MARKERS[1] == MarkerText(m);
    case O => assert INT_MARKERS[2] == MarkerText(m);
    case PB => assert INT_MARKERS[4] == MarkerText(m);
    case PS => assert INT_MARKERS[5] == MarkerText(m);
  }

  /** The letters of a new id. */
  lemma NewIdLetters(prefix: string, m: Marker, n: nat, more: string)
    ensures var own := NewId(prefix, m, n);
            var id := own + more;
            && |own| == |prefix| + |Text(m)| + 1 + |Digits(n)|
            && (forall i :: 0 <= i < |prefix| ==> id[i] == prefix[i])
            && (forall i :: 0 <= i < |Text(m)| ==> id[|prefix| + i] == Text(m)[i])
            && id[|prefix| + |Text(m)|] == '-'
            && (forall i :: 0 <= i < |more| ==> id[|own| + i] == more[i])
  {
  }

  /** A marker that stands at the end of the prefix of a new id is the marker of its type. */
  lemma MarkerBehindPrefix(prefix: string, m: Marker, n: nat, more: string, marker: string)
    requires Underscored(prefix) && marker in INT_MARKERS
    ensures OccursAt(NewId(prefix, m, n) + more, marker, |prefix| - 1) <==> marker == MarkerText(m)
  {
    var id := NewId(prefix, m, n) + more;
    var k := |prefix| - 1;
    OwnMarkerBehindPrefix(prefix, m, n, more);
    if OccursAt(id, marker, k) {
      NewIdLetters(prefix, m, n, more);
      OccursPointwise(id, marker, k);
      forall i | 0 < i < |marker| && i <= |Text(m)| ensures marker[i] == Text(m)[i - 1] {
        assert marker[i] == id[k + i] && id[|prefix| + (i - 1)] == Text(m)[i - 1];
      }
      MarkerList(marker);
      SameLetters(marker, m);
    }
  }

  lemma OwnMarkerBehindPrefix(prefix: string, m: Marker, n: nat, more: string)
    requires Underscored(prefix)
    ensures OccursAt(NewId(prefix, m, n) + more, MarkerText(m), |prefix| - 1)
  {
    MarkerAtEndOfPrefix(prefix, m, n, more);
    OccursBetween(prefix[..|prefix| - 1], MarkerText(m), Digits(n) + more);
  }

  lemma OccursBetween(a: string, pattern: string, b: string)
    ensures OccursAt(a + (pattern + b), pattern, |a|)
  {
    assert (a + (pattern + b))[|a|..|a| + |pattern|] == pattern;
  }

  lemma MarkerAtEndOfPrefix(prefix: string, m: Marker, n: nat, more: string)
    requires Underscored(prefix)
    ensures NewId(prefix, m, n) + more == prefix[..|prefix| - 1] + (MarkerText(m) + (Digits(n) + more))
  {
    var start := prefix[..|prefix| - 1];
    var tail := Text(m) + "-";
    LastApart([], prefix);
    assert prefix == start + "_";
    assert MarkerText(m) == "_" + tail;
    Associative(tail, Digits(n), more);
    Associative(start, "_", tail + (Digits(n) + more));
    Associative("_", tail, Digits(n) + more);
    assert NewId(prefix, m, n) == prefix + (tail + Digits(n));
    Associative(prefix, tail + Digits(n), more);
  }

  /** A listed marker that begins like the marker of a type is that marker. */
  lemma SameLetters(marker: string, m: Marker)
    requires IsMarker(marker) && 3 <= |marker| <= 4 && marker[|marker| - 1] == '-'
    requires |marker| == 3 ==> marker[1] == 'P' || marker[1] == 'O' || marker[1] == 'R'
    requires |marker| == 4 ==> (marker[1] == 'U' && marker[2] == 'P') || (marker[1] == 'P' && marker[2] in {'B', 'S'})
    requires forall i :: 0 < i < |marker| && i <= |Text(m)| ==> marker[i] == Text(m)[i - 1]
    requires |Text(m)| + 1 < |marker| ==> marker[|Text(m)| + 1] == '-'
    ensures marker == MarkerText(m)
  {
    assert marker[1] == Text(m)[0];
    if |Text(m)| == 2 {
      assert marker[2] == Text(m)[1];
    }
    assert |marker| == |Text(m)| + 2;
    assert marker == MarkerText(m);
  }

  /** Behind the prefix, markers occur in a new id only at the prefix and at the reference. */
  lemma OccurrencesBehind(prefix: string, m: Marker, n: nat, more: string, marker: string, p: nat)
    requires Underscored(prefix) && Follows(more) && marker in INT_MARKERS && |prefix| <= p
    ensures OccursAt(NewId(prefix, m, n) + more, marker, p)
            <==> p == |NewId(prefix, m, n)| && more != [] && marker == BOUNDARY
  {
    var own := NewId(prefix, m, n);
    var id := own + more;
    MarkerList(marker);
    NewIdLetters(prefix, m, n, more);
    OccursPointwise(id, marker, p);
    ReferenceLetters(more);
    if OccursAt(id, marker, p) {
      assert id[p] == '_';
      if p < |own| {
        NoUnderscore(prefix, m, n, p);
      } else {
        assert more[p - |own|] == '_';
        assert id[p + 1] == more[1];
      }
    }
  }

  lemma ReferenceLetters(more: string)
    requires Follows(more)
    ensures more != [] ==> |more| > 3 && more[0] == '_' && more[1] == 'R' && more[2] == '-'
    ensures forall i :: 0 < i < |more| ==> more[i] != '_'
  {
    if more != [] {
      assert more[..3] == BOUNDARY;
      assert forall i :: 0 <= i < 3 ==> more[i] == more[..3][i];
      assert forall i :: 3 <= i < |more| ==> more[i] == more[3..][i - 3];
    }
  }

  /** Inside the prefix, markers occur in a new id where they occur in the prefix, and with the same segments. */
  lemma OccurrencesInPrefix(prefix: string, more: string, marker: string, p: nat)
    requires Underscored(prefix) && IsMarker(marker) && p < |prefix| - 1
    ensures OccursAt(prefix + more, marker, p) <==> OccursAt(prefix, marker, p)
    ensures OccursAt(prefix, marker, p) ==>
              (IntegerAt(prefix + more, p + |marker|) <==> IntegerAt(prefix, p + |marker|))
  {
    var id := prefix + more;
    var q := p + |marker|;
    OccursPointwise(id, marker, p);
    OccursPointwise(prefix, marker, p);
    assert |prefix| <= q <= |id| ==> id[p + (|prefix| - 1 - p)] == '_';
    if q < |prefix| {
      assert id[q..] == prefix[q..] + more;
      SegmentStops(prefix[q..], more, |prefix| - 1 - q);
    }
  }

  /** The number of the declaration follows its marker. */
  lemma FirstInteger(prefix: string, m: Marker, n: nat, more: string)
    requires Follows(more)
    ensures IntegerAt(NewId(prefix, m, n) + more, |prefix| + |Text(m)| + 1)
  {
    var id := NewId(prefix, m, n) + more;
    NewIdEnd(prefix, m, n, more);
    ReferenceLetters(more);
    SegmentOfDigits(Digits(n), more);
  }

  lemma NewIdEnd(prefix: string, m: Marker, n: nat, more: string)
    ensures (NewId(prefix, m, n) + more)[|prefix| + |Text(m)| + 1..] == Digits(n) + more
  {
    assert NewId(prefix, m, n) + more == (prefix + Text(m) + "-") + (Digits(n) + more);
  }

  /** The number of the reference follows the boundary. */
  lemma SecondInteger(own: string, more: string)
    requires Follows(more) && more != []
    ensures IntegerAt(own + more, |own| + 3)
  {
    ReferenceLetters(more);
    assert (own + more)[|own| + 3..] == more[3..];
    EmptyIsUnit(more[3..]);
    SegmentOfDigits(more[3..], []);
  }

  /** All integers of a new id are fine exactly if those inside the prefix are. */
  lemma AllIntegersOfNewId(prefix: string, m: Marker, n: nat, more: string, marker: string)
    requires Underscored(prefix) && Follows(more) && marker in INT_MARKERS
    ensures AllInteger(NewId(prefix, m, n) + more, marker) <==> AllInteger(prefix, marker)
  {
    var id := NewId(prefix, m, n) + more;
    if AllInteger(prefix, marker) {
      forall p: nat | OccursAt(id, marker, p) ensures IntegerAt(id, p + |marker|) {
        OneOccurrence(prefix, m, n, more, marker, p);
      }
    } else {
      var p: nat :| OccursAt(prefix, marker, p) && !IntegerAt(prefix, p + |marker|);
      OneOccurrence(prefix, m, n, more, marker, p);
    }
  }

  /** One occurrence of a marker in a new id. */
  lemma OneOccurrence(prefix: string, m: Marker, n: nat, more: string, marker: string, p: nat)
    requires Underscored(prefix) && Follows(more) && marker in INT_MARKERS
    ensures var id := NewId(prefix, m, n) + more;
            if p < |prefix| - 1 then
              && (OccursAt(id, marker, p) <==> OccursAt(prefix, marker, p))
              && (OccursAt(prefix, marker, p) ==>
                    (IntegerAt(id, p + |marker|) <==> IntegerAt(prefix, p + |marker|)))
            else
              && !OccursAt(prefix, marker, p)
              && (OccursAt(id, marker, p) ==> IntegerAt(id, p + |marker|))
  {
    if p < |prefix| - 1 {
      EarlyOccurrence(prefix, m, n, more, marker, p);
    } else {
      LateOccurrence(prefix, m, n, more, marker, p);
    }
  }

  lemma EarlyOccurrence(prefix: string, m: Marker, n: nat, more: string, marker: string, p: nat)
    requires Underscored(prefix) && marker in INT_MARKERS && p < |prefix| - 1
    ensures var id := NewId(prefix, m, n) + more;
            && (OccursAt(id, marker, p) <==> OccursAt(prefix, marker, p))
            && (OccursAt(prefix, marker, p) ==>
                  (IntegerAt(id, p + |marker|) <==> IntegerAt(prefix, p + |marker|)))
  {
    MarkerList(marker);
    var tail := Text(m) + "-" + Digits(n) + more;
    assert NewId(prefix, m, n) + more == prefix + tail;
    OccurrencesInPrefix(prefix, tail, marker, p);
  }

  lemma LateOccurrence(prefix: string, m: Marker, n: nat, more: string, marker: string, p: nat)
    requires Underscored(prefix) && Follows(more) && marker in INT_MARKERS && |prefix| - 1 <= p
    ensures !OccursAt(prefix, marker, p)
    ensures OccursAt(NewId(prefix, m, n) + more, marker, p) ==> IntegerAt(NewId(prefix, m, n) + more, p + |marker|)
  {
    MarkerList(marker);
    if OccursAt(NewId(prefix, m, n) + more, marker, p) {
      if p == |prefix| - 1 {
        MarkerBehindPrefix(prefix, m, n, more, marker);
        FirstInteger(prefix, m, n, more);
      } else {
        OccurrencesBehind(prefix, m, n, more, marker, p);
        SecondInteger(NewId(prefix, m, n), more);
      }
    }
  }

  lemma SuffixFollows(prefix: string, tags: seq<Tag>, i: nat)
    requires RefAt(prefix, tags, i)
    ensures Follows(BOUNDARY + NewSuffix(prefix, tags, i))
  {
    var suffix := NewSuffix(prefix, tags, i);
    assert IsDigits(suffix) by {
      SuffixIsDigits(prefix, tags, i);
    }
    assert (BOUNDARY + suffix)[3..] == suffix && (BOUNDARY + suffix)[..3] == BOUNDARY;
  }

  lemma SuffixIsDigits(prefix: string, tags: seq<Tag>, i: nat)
    requires RefAt(prefix, tags, i)
    ensures IsDigits(NewSuffix(prefix, tags, i))
  {
  }

  /** Every new id is one of a declaration, perhaps followed by a numbered reference. */
  lemma ShapeOfNewId(prefix: string, tags: seq<Tag>, id: string) returns (m: Marker, n: nat, more: string)
    requires id in Renaming(prefix, tags)
    ensures Follows(more) && Renaming(prefix, tags)[id] == NewId(prefix, m, n) + more
  {
    var i := EntryFrom(prefix, tags, id);
    if NoRef(prefix, tags, id) {
      m, n, more := Declares(prefix, tags[i]).value, Number(prefix, tags[..i], tags[i]), [];
      EmptyIsUnit(NewId(prefix, m, n));
    } else {
      var j, k := NewOfReference(prefix, tags, i);
      m, n := Declares(prefix, tags[k]).value, Number(prefix, tags[..k], tags[k]);
      more := BOUNDARY + NewSuffix(prefix, tags, j);
      SuffixFollows(prefix, tags, j);
      Associative(NewId(prefix, m, n), BOUNDARY, NewSuffix(prefix, tags, j));
    }
  }

  /**
   Every new id starts with a marker whose suffix has to be an integer, and it passes the check if
   and only if every such marker inside the prefix itself is followed by an integer; so it always
   does when the prefix contains none.
   */
  lemma NewIdsPassExactlyWhen(prefix: string, tags: seq<Tag>, id: string)
    requires Underscored(prefix) && id in Renaming(prefix, tags)
    ensures var renamed := Renaming(prefix, tags)[id];
            && StartsWith(renamed, prefix)
            && Leading(renamed[|prefix|..]).Some? && Leading(renamed[|prefix|..]).value in INT_MARKERS
            && (BadIntegerSuffix(renamed, prefix).None?
                <==> forall i :: 0 <= i < |INT_MARKERS| ==> AllInteger(prefix, INT_MARKERS[i]))
  {
    var renamed := Renaming(prefix, tags)[id];
    var m, n, more := ShapeOfNewId(prefix, tags, id);
    NewIdStart(prefix, m, n, more);
    LeadingMarker(prefix, m, n, more);
    CheckApplies(renamed, prefix);
    forall i | 0 <= i < |INT_MARKERS| ensures AllInteger(renamed, INT_MARKERS[i]) <==> AllInteger(prefix, INT_MARKERS[i]) {
      AllIntegersOfNewId(prefix, m, n, more, INT_MARKERS[i]);
    }
  }

  /** What the check says of an id that starts with the prefix and a listed marker. */
  lemma CheckApplies(value: string, prefix: string)
    requires StartsWith(value, prefix)
    requires Leading(value[|prefix|..]).Some? && Leading(value[|prefix|..]).value in INT_MARKERS
    ensures BadIntegerSuffix(value, prefix).None?
            <==> forall i :: 0 <= i < |INT_MARKERS| ==> AllInteger(value, INT_MARKERS[i])
  {
    assert OccursAt(value, prefix, 0);
    assert value[0..] == value;
    MarkersAreMarkers();
    NoneBad(value, INT_MARKERS);
  }

  lemma LeadingMarker(prefix: string, m: Marker, n: nat, more: string)
    ensures Leading((NewId(prefix, m, n) + more)[|prefix|..]) == Some(MarkerText(m))
    ensures MarkerText(m) in INT_MARKERS
  {
    var id := NewId(prefix, m, n) + more;
    var after := id[|prefix|..];
    var k := |Text(m)|;
    NewIdLetters(prefix, m, n, more);
    assert forall i :: 0 <= i <= k ==> after[i] == id[|prefix| + i];
    assert forall i :: 0 <= i < k ==> after[i] == Text(m)[i] != '-';
    FirstHyphen(after, k);
    assert after[..k + 1] == Text(m) + "-";
    assert "_" + (Text(m) + "-") == MarkerText(m);
    OwnMarkerIsListed(m);
  }

  lemma FirstHyphen(s: string, k: nat)
    requires k < |s| && s[k] == '-' && forall i :: 0 <= i < k ==> s[i] != '-'
    ensures NextOccurrence(s, "-", 0) == Some(k)
  {
    OccursPointwise(s, "-", k);
    forall q | 0 <= q < k ensures !OccursAt(s, "-", q) {
      OccursPointwise(s, "-", q);
    }
  }
}
