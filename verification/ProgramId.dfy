/** Ids of an application program without the fingerprint, which is computed from the hash itself. */
module ProgramId {
  import opened Basics
  import opened XmlScan
  import opened XmlRewrite

  const PROGRAM_MARK: string := "_A-"
  const FINGERPRINT: nat := 5

  /** Where the second dash is, if `dashes` have been seen. */
  function SecondDash(s: string, dashes: nat): (p: Option<nat>)
    ensures p.Some? ==> p.value < |s| && s[p.value] == '-'
  {
    if s == [] then None
    else if s[0] == '-' && dashes + 1 == 2 then Some(0)
    else
      match SecondDash(s[1..], if s[0] == '-' then dashes + 1 else dashes)
      case None => None
      case Some(k) => Some(k + 1)
  }

  /** Where the fingerprint of a program id starts, with its dash. */
  function FingerprintAt(id: string): (p: Option<nat>)
    ensures p.Some? ==> p.value + FINGERPRINT <= |id| && id[p.value] == '-'
  {
    match Find(id, PROGRAM_MARK)
    case None => None
    case Some(a) => FingerprintBehind(id, a + 3)
  }

  function FingerprintBehind(id: string, start: nat): (p: Option<nat>)
    requires start <= |id|
    ensures p.Some? ==> p.value + FINGERPRINT <= |id| && id[p.value] == '-'
  {
    match SecondDash(id[start..], 0)
    case None => None
    case Some(i) => FingerprintIn(id, start, i)
  }

  /** The fingerprint at the dash at position `i` behind `start`, if the id is long enough. */
  function FingerprintIn(id: string, start: nat, i: nat): (p: Option<nat>)
    requires start + i < |id| && id[start..][i] == '-'
    ensures p.Some? ==> p.value == start + i && p.value + FINGERPRINT <= |id| && id[p.value] == '-'
  {
    assert id[start..][i] == id[start + i];
    if start + i + FINGERPRINT <= |id| then Some(start + i) else None
  }

  function NormalizeId(id: string): string {
    match FingerprintAt(id)
    case None => id
    case Some(p) => id[..p] + id[p + FINGERPRINT..]
  }

  /** Counts the dashes up to the second one. */
  method FindSecondDash(s: string) returns (p: Option<nat>)
    ensures p == SecondDash(s, 0)
  {
    var dashes, i: nat := 0, 0;
    assert s[0..] == s;
    while i < |s|
      invariant i <= |s| && dashes < 2
      invariant SecondDash(s, 0) == match SecondDash(s[i..], dashes) case None => None case Some(k) => Some(i + k)
    {
      assert s[i..][0] == s[i] && s[i..][1..] == s[i + 1..];
      if s[i] == '-' {
        dashes := dashes + 1;
        if dashes == 2 {
          return Some(i);
        }
      }
      i := i + 1;
    }
    return None;
  }

  method NormalizeApplProgId(id: string) returns (r: string)
    ensures r == NormalizeId(id)
  {
    var found := Find(id, PROGRAM_MARK);
    if found.None? {
      return id;
    }
    var dash := FindSecondDash(id[found.value + 3..]);
    if dash.None? {
      return id;
    }
    var start := found.value + 3 + dash.value;
    if start + FINGERPRINT <= |id| {
      return id[..start] + id[start + FINGERPRINT..];
    }
    return id;
  }

  lemma {:induction false} DashSooner(s: string, t: string, dashes: nat, p: nat)
    requires SecondDash(s, dashes) == Some(p) && p < |t| && s[..p + 1] == t[..p + 1]
    ensures SecondDash(t, dashes) == Some(p)
  {
    assert s[0] == s[..p + 1][0] && t[0] == t[..p + 1][0];
    if p > 0 {
      assert s[1..][..p] == s[..p + 1][1..] && t[1..][..p] == t[..p + 1][1..];
      DashSooner(s[1..], t[1..], if s[0] == '-' then dashes + 1 else dashes, p - 1);
    }
  }

  /** An id with another fingerprint has the same normal form. */
  lemma FingerprintIsIgnored(id: string, fingerprint: string)
    requires FingerprintAt(id).Some? && |fingerprint| == 4
    ensures var p := FingerprintAt(id).value;
            NormalizeId(id[..p + 1] + fingerprint + id[p + FINGERPRINT..]) == NormalizeId(id)
  {
    var p := FingerprintAt(id).value;
    var a := Find(id, PROGRAM_MARK).value;
    var other := id[..p + 1] + fingerprint + id[p + FINGERPRINT..];
    DashBehindMark(id, a, p);
    SameUpTo(id, other, a, p);
    FindIsLocal(id, PROGRAM_MARK, a, other);
    DashSooner(id[a + 3..], other[a + 3..], 0, p - a - 3);
    FingerprintFrom(other, a, p);
    assert other[..p] == id[..p] && other[p + FINGERPRINT..] == id[p + FINGERPRINT..];
  }

  lemma DashBehindMark(id: string, a: nat, p: nat)
    requires a + 3 <= |id| && FingerprintBehind(id, a + 3) == Some(p)
    ensures a + 3 <= p && SecondDash(id[a + 3..], 0) == Some(p - a - 3)
  {
  }

  lemma FingerprintFrom(id: string, a: nat, p: nat)
    requires a + 3 <= p && p + FINGERPRINT <= |id| && SecondDash(id[a + 3..], 0) == Some(p - a - 3)
    ensures FingerprintBehind(id, a + 3) == Some(p)
  {
  }

  lemma SameUpTo(id: string, other: string, a: nat, p: nat)
    requires a + 3 <= p < |id| && p < |other| && id[..p + 1] == other[..p + 1]
    ensures id[..a + 3] <= other
    ensures id[a + 3..][..p - a - 2] == other[a + 3..][..p - a - 2]
  {
    assert id[..a + 3] == id[..p + 1][..a + 3] && other[..a + 3] == other[..p + 1][..a + 3];
    assert id[a + 3..][..p - a - 2] == id[..p + 1][a + 3..] && other[a + 3..][..p - a - 2] == other[..p + 1][a + 3..];
  }

  // ── What the normal form is ─────────────────────────────────────

  predicate NoDash(s: string) {
    forall i :: 0 <= i < |s| ==> s[i] != '-'
  }

  lemma {:induction false} NoDashBefore(b: string, t: string, dashes: nat)
    requires NoDash(b) && t != [] && t[0] == '-'
    ensures SecondDash(b + t, dashes)
         == if dashes == 1 then Some(|b|)
            else match SecondDash(t[1..], dashes + 1) case None => None case Some(k) => Some(|b| + 1 + k)
    decreases |b|
  {
    if b == [] {
      assert b + t == t;
    } else {
      NoDashBefore(b[1..], t, dashes);
      assert (b + t)[1..] == b[1..] + t;
    }
  }

  predicate MarkAt(id: string, q: nat) {
    q + 3 <= |id| && id[q] == '_' && id[q + 1] == 'A' && id[q + 2] == '-'
  }

  /** The mark of a program is at `a`, and nowhere before. */
  predicate MarkFirstAt(id: string, a: nat) {
    MarkAt(id, a) && forall q: nat :: q < a ==> !MarkAt(id, q)
  }

  lemma MarkIsStart(id: string, q: nat)
    requires q <= |id|
    ensures StartsWith(id[q..], PROGRAM_MARK) <==> MarkAt(id, q)
  {
    if q + 3 <= |id| {
      assert id[q..][..3] == [id[q], id[q + 1], id[q + 2]];
    }
  }

  lemma {:induction false} MarkIsFound(id: string, a: nat)
    requires MarkFirstAt(id, a)
    ensures Find(id, PROGRAM_MARK) == Some(a)
    decreases a
  {
    assert id[0..] == id;
    MarkIsStart(id, 0);
    if a > 0 {
      assert !MarkAt(id, 0);
      assert forall q: nat :: q < a - 1 && MarkAt(id[1..], q) ==> MarkAt(id, q + 1);
      MarkIsFound(id[1..], a - 1);
    }
  }

  /** The second dash of `number-version-...` is behind the version. */
  lemma BehindVersion(number: string, version: string, middle: string, tail: string)
    requires NoDash(number) && NoDash(version) && tail != [] && tail[0] == '-'
    requires middle != [] && middle[0] == '-' && middle[1..] == version + tail
    ensures SecondDash(number + middle, 0) == Some(|number| + 1 + |version|)
  {
    NoDashBefore(number, middle, 0);
    NoDashBefore(version, tail, 1);
  }

  lemma DashFirst(dash: string, rest: string)
    requires |dash| == 1
    ensures (dash + rest)[0] == dash[0] && (dash + rest)[1..] == rest
  {
  }

  lemma WithoutFingerprint(id: string, start: string, cut: string, more: string, a: nat)
    requires id == start + cut + more && |cut| == FINGERPRINT && a + 3 <= |start|
    requires MarkFirstAt(id, a) && SecondDash(id[a + 3..], 0) == Some(|start| - a - 3)
    ensures NormalizeId(id) == start + more
  {
    MarkIsFound(id, a);
    FingerprintFrom(id, a, |start|);
    CutOut(start, cut, more);
  }

  lemma CutOut(start: string, cut: string, more: string)
    ensures (start + cut + more)[..|start|] == start && (start + cut + more)[|start| + |cut|..] == more
  {
  }

  lemma Regrouped(front: string, number: string, dash: string, version: string, cut: string, more: string)
    ensures (front + number + dash + version + cut + more)[|front|..] == number + (dash + (version + (cut + more)))
  {
  }

  /**
   A program id consists of a manufacturer, a number, a version, a fingerprint of four characters,
   and perhaps more: the normal form is the same without the fingerprint and its dash.
   */
  lemma NormalFormOf(manufacturer: string, number: string, version: string, fingerprint: string, more: string)
    requires NoDash(number) && NoDash(version) && |fingerprint| == 4
    requires MarkFirstAt(manufacturer + "_A-" + number + "-" + version + ("-" + fingerprint) + more, |manufacturer|)
    ensures NormalizeId(manufacturer + "_A-" + number + "-" + version + ("-" + fingerprint) + more)
         == manufacturer + "_A-" + number + "-" + version + more
  {
    var front, cut := manufacturer + "_A-", "-" + fingerprint;
    Regrouped(front, number, "-", version, cut, more);
    assert (cut + more)[0] == '-';
    DashFirst("-", version + (cut + more));
    BehindVersion(number, version, "-" + (version + (cut + more)), cut + more);
    WithoutFingerprint(front + number + "-" + version + cut + more, front + number + "-" + version, cut, more, |manufacturer|);
  }

  lemma {:induction false} NoMarkIsFound(id: string)
    requires forall q: nat :: !MarkAt(id, q)
    ensures Find(id, PROGRAM_MARK).None?
    decreases |id|
  {
    assert id[0..] == id;
    MarkIsStart(id, 0);
    if id != [] {
      assert forall q: nat :: MarkAt(id[1..], q) ==> MarkAt(id, q + 1);
      NoMarkIsFound(id[1..]);
    }
  }

  /** Ids without the mark are their own normal form. */
  lemma OtherIdsStay(id: string)
    requires forall q: nat :: !MarkAt(id, q)
    ensures NormalizeId(id) == id
  {
    NoMarkIsFound(id);
  }
}
