/**
 The routing rate limiter (KNX 3.2.6 p.6): at most so many sends in any second, and a pause on
 request. Times are instants of a clock that never runs backwards, in a unit of which a second
 has `SECOND`.
 */
module RateLimiter {
  import opened Basics

  const SECOND: nat := 1_000_000_000

  /** The sends of the last second as far as remembered, the limit, and the end of a pause. */
  datatype Limiter = Limiter(timestamps: seq<nat>, limit: nat, pausedUntil: Option<nat>)

  /** How many of the oldest timestamps left the window of one second before `now`. */
  function Gone(timestamps: seq<nat>, now: nat): (k: nat)
    ensures k <= |timestamps| && (k < |timestamps| ==> now <= timestamps[k] + SECOND)
  {
    if timestamps != [] && timestamps[0] + SECOND < now then 1 + Gone(timestamps[1..], now) else 0
  }

  function Trimmed(timestamps: seq<nat>, now: nat): (kept: seq<nat>)
    ensures kept != [] ==> now <= kept[0] + SECOND
  {
    timestamps[Gone(timestamps, now)..]
  }

  /** A check: the limiter afterwards, and how long to wait unless the send is granted. */
  function Checked(l: Limiter, now: nat): (Limiter, Option<nat>) {
    if l.pausedUntil.Some? && now < l.pausedUntil.value then
      (l, Some(l.pausedUntil.value - now))
    else
      var kept := Trimmed(l.timestamps, now);
      if |kept| < l.limit then
        (Limiter(kept + [now], l.limit, None), None)
      else if kept == [] then
        (Limiter(kept, l.limit, None), None)
      else
        (Limiter(kept, l.limit, None), Some(kept[0] + SECOND - now))
  }

  function Paused(l: Limiter, now: nat, duration: nat): Limiter {
    l.(pausedUntil := Some(now + duration))
  }

  lemma {:induction false} GoneWereOld(timestamps: seq<nat>, now: nat)
    ensures forall i :: 0 <= i < Gone(timestamps, now) ==> timestamps[i] + SECOND < now
  {
    if timestamps != [] && timestamps[0] + SECOND < now {
      GoneWereOld(timestamps[1..], now);
    }
  }

  lemma {:induction false} GoneExactly(timestamps: seq<nat>, now: nat, k: nat)
    requires k <= |timestamps| && forall i :: 0 <= i < k ==> timestamps[i] + SECOND < now
    requires k < |timestamps| ==> now <= timestamps[k] + SECOND
    ensures Gone(timestamps, now) == k
  {
    if k > 0 {
      GoneExactly(timestamps[1..], now, k - 1);
    }
  }

  lemma TrimmedTwice(timestamps: seq<nat>, now: nat, later: nat)
    requires now <= later
    ensures Trimmed(Trimmed(timestamps, now), later) == Trimmed(timestamps, later)
  {
    var k := Gone(timestamps, now);
    var kept := timestamps[k..];
    var m := Gone(kept, later);
    GoneWereOld(timestamps, now);
    GoneWereOld(kept, later);
    forall i | 0 <= i < k + m ensures timestamps[i] + SECOND < later {
      assert i >= k ==> timestamps[i] == kept[i - k];
    }
    GoneExactly(timestamps, later, k + m);
    assert kept[m..] == timestamps[k + m..];
  }

  lemma NothingGone(timestamps: seq<nat>, now: nat)
    requires timestamps != [] ==> now <= timestamps[0] + SECOND
    ensures Trimmed(timestamps, now) == timestamps
  {
    GoneExactly(timestamps, now, 0);
  }

  /** Trimming the end of a longer log: what is dropped is again its oldest part. */
  lemma TrimmedLog(log: seq<nat>, k: nat, now: nat, j: nat)
    requires k <= |log| && forall i :: 0 <= i < k ==> log[i] + SECOND < now
    requires j == k + Gone(log[k..], now)
    ensures j <= |log| && Trimmed(log[k..], now) == log[j..]
    ensures forall i :: 0 <= i < j ==> log[i] + SECOND < now
    ensures j < |log| ==> now <= log[j] + SECOND
  {
    GoneWereOld(log[k..], now);
    forall i | 0 <= i < j ensures log[i] + SECOND < now {
      assert i >= k ==> log[i] == log[k..][i - k];
    }
  }

  /**
   The wait after a refusal by the window is exact: without a pause, a later check is granted if
   and only if it comes strictly later than the wait said. At the very end of the wait it is
   refused once more, with nothing left to wait.
   */
  lemma WaitIsExact(l: Limiter, now: nat, later: nat)
    requires 0 < l.limit && |l.timestamps| <= l.limit && now <= later
    requires Checked(l, now).1.Some? && !(l.pausedUntil.Some? && now < l.pausedUntil.value)
    ensures var (refused, wait) := Checked(l, now);
            && (Checked(refused, later).1.None? <==> now + wait.value < later)
            && Checked(refused, now + wait.value).1 == Some(0)
  {
    var kept := Trimmed(l.timestamps, now);
    RefusedIs(l, now, kept);
    FullWindow(kept, l.limit, later);
    AtEndOfWait(kept, l.limit, kept[0] + SECOND);
  }

  lemma AtEndOfWait(kept: seq<nat>, limit: nat, now: nat)
    requires 0 < limit == |kept| && now == kept[0] + SECOND
    ensures Checked(Limiter(kept, limit, None), now).1 == Some(0)
  {
    FullWindow(kept, limit, now);
  }

  /** A refusal by the window. */
  lemma RefusedIs(l: Limiter, now: nat, kept: seq<nat>)
    requires 0 < l.limit && |l.timestamps| <= l.limit && kept == Trimmed(l.timestamps, now)
    requires Checked(l, now).1.Some? && !(l.pausedUntil.Some? && now < l.pausedUntil.value)
    ensures |kept| == l.limit && now <= kept[0] + SECOND
    ensures Checked(l, now) == (Limiter(kept, l.limit, None), Some(kept[0] + SECOND - now))
  {
  }

  /** A limiter that remembers as many sends as it allows. */
  lemma FullWindow(kept: seq<nat>, limit: nat, now: nat)
    requires 0 < limit == |kept|
    ensures var wait := Checked(Limiter(kept, limit, None), now).1;
            if kept[0] + SECOND < now then wait.None?
            else wait == Some(kept[0] + SECOND - now)
  {
    if now <= kept[0] + SECOND {
      NothingGone(kept, now);
    }
  }

  // ── The limiter's own form ──────────────────────────────────────

  class RateLimiter {
    var timestamps: seq<nat>
    const maxPerSec: nat
    var pausedUntil: Option<nat>

    function Model(): Limiter
      reads this
    {
      Limiter(timestamps, maxPerSec, pausedUntil)
    }

    constructor (maxPerSec: nat)
      ensures Model() == Limiter([], maxPerSec, None)
    {
      this.maxPerSec := maxPerSec;
      timestamps := [];
      pausedUntil := None;
    }

    /** Check if a send is allowed at `now`, and record it if it is; otherwise, how long to wait. */
    method Check(now: nat) returns (wait: Option<nat>)
      modifies `timestamps, `pausedUntil
      ensures (Model(), wait) == Checked(old(Model()), now)
    {
      if pausedUntil.Some? {
        if now < pausedUntil.value {
          return Some(pausedUntil.value - now);
        }
        pausedUntil := None;
      }
      while timestamps != [] && timestamps[0] + SECOND < now
        invariant pausedUntil == None && Trimmed(timestamps, now) == Trimmed(old(timestamps), now)
        decreases |timestamps|
      {
        timestamps := timestamps[1..];
      }
      NothingGone(timestamps, now);
      if |timestamps| < maxPerSec {
        timestamps := timestamps + [now];
        return None;
      }
      if timestamps == [] {
        return None;
      }
      return Some(timestamps[0] + SECOND - now);
    }

    method Pause(now: nat, duration: nat)
      modifies `pausedUntil
      ensures Model() == Paused(old(Model()), now, duration)
    {
      pausedUntil := Some(now + duration);
    }

    /**
     Wait until a send is allowed. A sleep lasts at least as long as asked, here `late` more than
     that; if every sleep is a little late, the third check succeeds at the latest.
     */
    method AwaitSlot(start: nat, late: seq<nat>) returns (granted: nat, checks: nat)
      requires 0 < maxPerSec && |timestamps| <= maxPerSec
      requires |late| >= 2 && forall i :: 0 <= i < |late| ==> late[i] > 0
      modifies `timestamps, `pausedUntil
      ensures 1 <= checks <= 3 && start <= granted
      ensures old(pausedUntil).Some? && start < old(pausedUntil).value ==> old(pausedUntil).value < granted
      ensures timestamps == Trimmed(old(timestamps), granted) + [granted] && pausedUntil == None
    {
      granted := start;
      checks := 1;
      ghost var before := Model();
      var wait := Check(granted);
      FirstCheck(before, start);
      while wait.Some?
        invariant start <= granted && 1 <= checks <= 3
        invariant if wait.None? then Granted(before, Model(), granted) else MustWait(before, Model(), start, granted, wait.value, checks)
        invariant before.pausedUntil.Some? && start < before.pausedUntil.value ==>
                    before.pausedUntil.value < granted || (wait.Some? && pausedUntil.Some?)
        decreases 3 - checks
      {
        var next := granted + wait.value + late[checks - 1];
        CheckAfterWait(before, Model(), start, granted, wait.value, checks, next);
        granted := next;
        wait := Check(granted);
        checks := checks + 1;
      }
    }
  }

  /** The send was granted at `now`; the limiter was `before` when the first check came. */
  ghost predicate Granted(before: Limiter, l: Limiter, now: nat) {
    l == Limiter(Trimmed(before.timestamps, now) + [now], before.limit, None)
  }

  /** Check number `checks` was refused, by the pause if it was the first one, or by a full window. */
  ghost predicate MustWait(before: Limiter, l: Limiter, start: nat, now: nat, wait: nat, checks: nat) {
    || (checks == 1 && now == start && l == before && l.pausedUntil == Some(now + wait) && |l.timestamps| <= l.limit)
    || (&& checks <= 2
        && l == Limiter(Trimmed(before.timestamps, now), before.limit, None)
        && |l.timestamps| == l.limit && 0 < l.limit && now + wait == l.timestamps[0] + SECOND)
  }

  lemma FirstCheck(l: Limiter, now: nat)
    requires 0 < l.limit && |l.timestamps| <= l.limit
    ensures var (m, wait) := Checked(l, now);
            if wait.None? then Granted(l, m, now) else MustWait(l, m, now, now, wait.value, 1)
  {
  }

  lemma CheckAfterWait(before: Limiter, l: Limiter, start: nat, now: nat, wait: nat, checks: nat, later: nat)
    requires 0 < before.limit && |before.timestamps| <= before.limit
    requires MustWait(before, l, start, now, wait, checks) && now + wait < later
    ensures var (m, more) := Checked(l, later);
            if more.None? then Granted(before, m, later) else MustWait(before, m, start, later, more.value, checks + 1)
  {
    if l.pausedUntil.None? {
      TrimmedTwice(before.timestamps, now, later);
      FullWindow(l.timestamps, l.limit, later);
    }
  }

  // ── Runs ────────────────────────────────────────────────────────

  datatype Event = Check(now: nat) | Pause(now: nat, duration: nat)

  /**
   The limiter with its history: every granted send, how many of them it no longer remembers, the
   end of the latest pause, and the clock.
   */
  datatype History = History(limiter: Limiter, grants: seq<nat>, forgotten: nat, pause: Option<nat>, clock: nat)

  function Initial(limit: nat): History {
    History(Limiter([], limit, None), [], 0, None, 0)
  }

  /** One event; the clock does not run backwards. */
  function After(h: History, e: Event): History {
    match e
    case Check(now) =>
      var (l, wait) := Checked(h.limiter, now);
      History(l, if wait.None? then h.grants + [now] else h.grants, h.forgotten + Forgets(h.limiter, now), h.pause, now)
    case Pause(now, duration) =>
      History(Paused(h.limiter, now, duration), h.grants, h.forgotten, Some(now + duration), now)
  }

  function Forgets(l: Limiter, now: nat): nat {
    if l.pausedUntil.Some? && now < l.pausedUntil.value then 0 else Gone(l.timestamps, now)
  }

  function Run(limit: nat, events: seq<Event>): History {
    if events == [] then Initial(limit) else After(Run(limit, events[..|events| - 1]), events[|events| - 1])
  }

  predicate Monotone(events: seq<Event>) {
    forall i, j :: 0 <= i < j < |events| ==> events[i].now <= events[j].now
  }

  ghost predicate Ascending(times: seq<nat>) {
    forall i, j :: 0 <= i < j < |times| ==> times[i] <= times[j]
  }

  /** Any send and the `n`-th one after it are more than a second apart. */
  ghost predicate Apart(times: seq<nat>, n: nat) {
    forall i, j :: 0 <= i && i + n == j && j < |times| ==> times[i] + SECOND < times[j]
  }

  /**
   What holds after every event: the remembered timestamps are the youngest grants, the others
   left the window, and a pause that is still due is known to the limiter.
   */
  ghost predicate HistoryOk(h: History) {
    && h.forgotten <= |h.grants| && h.limiter.timestamps == h.grants[h.forgotten..]
    && |h.limiter.timestamps| <= h.limiter.limit
    && (forall i :: 0 <= i < h.forgotten ==> h.grants[i] + SECOND < h.clock)
    && (forall i :: 0 <= i < |h.grants| ==> h.grants[i] <= h.clock)
    && Ascending(h.grants) && Apart(h.grants, h.limiter.limit)
    && match h.limiter.pausedUntil
       case Some(until) => h.pause == Some(until)
       case None => h.pause.Some? ==> h.pause.value <= h.clock
  }

  lemma AfterIsOk(h: History, e: Event)
    requires HistoryOk(h) && 0 < h.limiter.limit && h.clock <= e.now
    ensures HistoryOk(After(h, e)) && After(h, e).limiter.limit == h.limiter.limit
  {
    match e
    case Pause(_, _) =>
    case Check(now) =>
      if !(h.limiter.pausedUntil.Some? && now < h.limiter.pausedUntil.value) {
        GrantIsOk(h, now);
      }
  }

  lemma GrantIsOk(h: History, now: nat)
    requires HistoryOk(h) && 0 < h.limiter.limit && h.clock <= now
    requires !(h.limiter.pausedUntil.Some? && now < h.limiter.pausedUntil.value)
    ensures HistoryOk(After(h, Check(now)))
  {
    var j := h.forgotten + Forgets(h.limiter, now);
    TrimmedLog(h.grants, h.forgotten, now, j);
    CheckedIsOk(h, now, j, After(h, Check(now)));
  }

  /** The history after a check that forgot all but `h.grants[j..]`. */
  lemma CheckedIsOk(h: History, now: nat, j: nat, g: History)
    requires HistoryOk(h) && 0 < h.limiter.limit && h.clock <= now && j <= |h.grants|
    requires h.pause.Some? ==> h.pause.value <= now
    requires forall i :: 0 <= i < j ==> h.grants[i] + SECOND < now
    requires |h.grants| - j <= h.limiter.limit
    requires var kept := h.grants[j..];
             var limit := h.limiter.limit;
             g == if |kept| < limit then
                    History(Limiter(kept + [now], limit, None), h.grants + [now], j, h.pause, now)
                  else
                    History(Limiter(kept, limit, None), h.grants, j, h.pause, now)
    ensures HistoryOk(g)
  {
    if |h.grants| - j < h.limiter.limit {
      LogGrows(h.grants, h.limiter.limit, j, now);
    }
  }

  lemma LogGrows(log: seq<nat>, limit: nat, j: nat, now: nat)
    requires Ascending(log) && Apart(log, limit) && j <= |log| && |log| - j < limit
    requires forall i :: 0 <= i < |log| ==> log[i] <= now
    requires forall i :: 0 <= i < j ==> log[i] + SECOND < now
    ensures Ascending(log + [now]) && Apart(log + [now], limit) && (log + [now])[j..] == log[j..] + [now]
  {
    var more := log + [now];
    forall i, j | 0 <= i && i + limit == j && j < |more| ensures more[i] + SECOND < more[j] {
      assert j < |log| ==> log[i] + SECOND < log[j];
    }
  }

  lemma {:induction false} RunIsOk(limit: nat, events: seq<Event>)
    requires 0 < limit && Monotone(events)
    ensures HistoryOk(Run(limit, events)) && Run(limit, events).limiter.limit == limit
    ensures events != [] ==> Run(limit, events).clock == events[|events| - 1].now
  {
    if events != [] {
      var n := |events| - 1;
      RunIsOk(limit, events[..n]);
      AfterIsOk(Run(limit, events[..n]), events[n]);
    }
  }

  // ── The window ──────────────────────────────────────────────────

  /** How many of `times` lie in the closed second that starts at `from`. */
  function CountIn(times: seq<nat>, from: nat): nat {
    if times == [] then 0
    else
      var last := times[|times| - 1];
      CountIn(times[..|times| - 1], from) + (if from <= last <= from + SECOND then 1 else 0)
  }

  lemma {:induction false} OldOnesDoNotCount(times: seq<nat>, from: nat, k: nat)
    requires k <= |times| && forall i :: 0 <= i < k ==> times[i] < from
    ensures CountIn(times, from) <= |times| - k
  {
    if times != [] {
      var n := |times| - 1;
      OldOnesDoNotCount(times[..n], from, if k <= n then k else n);
    }
  }

  lemma {:induction false} AtMostNInASecond(times: seq<nat>, n: nat, from: nat)
    requires 0 < n && Ascending(times) && Apart(times, n)
    ensures CountIn(times, from) <= n
  {
    if times != [] {
      var last := |times| - 1;
      var earlier := times[..last];
      if from <= times[last] <= from + SECOND {
        if last < n {
          OldOnesDoNotCount(earlier, from, 0);
        } else {
          assert times[last - n] + SECOND < times[last];
          OldOnesDoNotCount(earlier, from, last - n + 1);
        }
      } else {
        AtMostNInASecond(earlier, n, from);
      }
    }
  }

  /** In every run, every closed interval of one second contains at most `limit` granted sends. */
  lemma AtMostLimitInAnySecond(limit: nat, events: seq<Event>, from: nat)
    requires 0 < limit && Monotone(events)
    ensures CountIn(Run(limit, events).grants, from) <= limit
  {
    RunIsOk(limit, events);
    AtMostNInASecond(Run(limit, events).grants, limit, from);
  }

  /** The end of the latest pause among the events. */
  function LatestPause(events: seq<Event>): Option<nat> {
    if events == [] then None
    else
      var last := events[|events| - 1];
      if last.Pause? then Some(last.now + last.duration) else LatestPause(events[..|events| - 1])
  }

  lemma {:induction false} PauseIsRemembered(limit: nat, events: seq<Event>)
    ensures Run(limit, events).pause == LatestPause(events)
  {
    if events != [] {
      PauseIsRemembered(limit, events[..|events| - 1]);
    }
  }

  /**
   After any run, a check grants a send only when the latest pause is over, also if that one ends
   earlier than a pause before it; and the send is refused, once it is over, exactly while `limit`
   sends lie within the last second.
   */
  lemma GrantedExactlyWhen(limit: nat, events: seq<Event>, now: nat)
    requires 0 < limit && Monotone(events) && forall i :: 0 <= i < |events| ==> events[i].now <= now
    ensures var h := Run(limit, events);
            Checked(h.limiter, now).1.None? <==>
              && (LatestPause(events).Some? ==> LatestPause(events).value <= now)
              && (|h.grants| >= limit ==> h.grants[|h.grants| - limit] + SECOND < now)
  {
    RunIsOk(limit, events);
    PauseIsRemembered(limit, events);
    GrantedInState(Run(limit, events), now);
  }

  lemma GrantedInState(h: History, now: nat)
    requires HistoryOk(h) && 0 < h.limiter.limit && h.clock <= now
    ensures Checked(h.limiter, now).1.None? <==>
              && (h.pause.Some? ==> h.pause.value <= now)
              && var n := |h.grants| - h.limiter.limit; (0 <= n ==> h.grants[n] + SECOND < now)
  {
    if !(h.limiter.pausedUntil.Some? && now < h.limiter.pausedUntil.value) {
      var j := h.forgotten + Forgets(h.limiter, now);
      TrimmedLog(h.grants, h.forgotten, now, j);
      CheckDecides(h.limiter, now, h.grants[j..]);
      WindowDecides(h.grants, h.limiter.limit, j, now);
    }
  }

  lemma CheckDecides(l: Limiter, now: nat, kept: seq<nat>)
    requires 0 < l.limit && !(l.pausedUntil.Some? && now < l.pausedUntil.value)
    requires kept == Trimmed(l.timestamps, now)
    ensures Checked(l, now).1.None? <==> |kept| < l.limit
  {
  }

  /** With all but `log[j..]` forgotten, there is room exactly when the `limit`-th last send left the window. */
  lemma WindowDecides(log: seq<nat>, limit: nat, j: nat, now: nat)
    requires j <= |log| && |log| - j <= limit && 0 < limit
    requires forall i :: 0 <= i < j ==> log[i] + SECOND < now
    requires j < |log| ==> now <= log[j] + SECOND
    ensures |log[j..]| < limit <==> (|log| >= limit ==> log[|log| - limit] + SECOND < now)
  {
  }

  /**
   How long a refused send has to wait after any run: to the end of the latest pause while that is
   on, else until the send `limit` places back is a second old.
   */
  lemma RefusedUntil(limit: nat, events: seq<Event>, now: nat)
    requires 0 < limit && Monotone(events) && forall i :: 0 <= i < |events| ==> events[i].now <= now
    requires Checked(Run(limit, events).limiter, now).1.Some?
    ensures var h := Run(limit, events);
            var until := now + Checked(h.limiter, now).1.value;
            if LatestPause(events).Some? && now < LatestPause(events).value then until == LatestPause(events).value
            else |h.grants| >= limit && until == h.grants[|h.grants| - limit] + SECOND
  {
    var h := Run(limit, events);
    RunIsOk(limit, events);
    PauseIsRemembered(limit, events);
    RefusedInState(h, now);
  }

  lemma RefusedInState(h: History, now: nat)
    requires HistoryOk(h) && 0 < h.limiter.limit && h.clock <= now && Checked(h.limiter, now).1.Some?
    ensures var until := now + Checked(h.limiter, now).1.value;
            if h.pause.Some? && now < h.pause.value then until == h.pause.value
            else |h.grants| >= h.limiter.limit && until == h.grants[|h.grants| - h.limiter.limit] + SECOND
  {
    if !(h.limiter.pausedUntil.Some? && now < h.limiter.pausedUntil.value) {
      var j := h.forgotten + Forgets(h.limiter, now);
      TrimmedLog(h.grants, h.forgotten, now, j);
      RefusedIs(h.limiter, now, h.grants[j..]);
    }
  }

  /** Why the limit has to be positive: a limiter that allows nothing grants everything, and remembers nothing. */
  lemma LimitZeroGrantsAll(events: seq<Event>, now: nat)
    requires Monotone(events) && forall i :: 0 <= i < |events| ==> events[i].now <= now
    requires LatestPause(events).Some? ==> LatestPause(events).value <= now
    ensures Checked(Run(0, events).limiter, now) == (Limiter([], 0, None), None)
  {
    RunWithoutLimit(events);
    PauseIsRemembered(0, events);
  }

  lemma {:induction false} RunWithoutLimit(events: seq<Event>)
    requires Monotone(events)
    ensures var l := Run(0, events).limiter;
            && l.timestamps == [] && l.limit == 0
            && (l.pausedUntil.Some? ==> l.pausedUntil == Run(0, events).pause)
  {
    if events != [] {
      RunWithoutLimit(events[..|events| - 1]);
    }
  }
}
