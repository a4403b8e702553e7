/**
 What holds of one transport layer over every run: the state invariant, the bound on
 retransmission and on the time an acknowledgement is awaited, and the independence of
 an open connection from every other device on the bus.
 */
module TransportRuns {
  import opened Basics
  import opened TransportLayer

  /** An event and the time it happens. */
  datatype Stamped = Stamped(now: nat, event: Event)

  function Run(t: Layer, es: seq<Stamped>): Step {
    if es == [] then
      Step(t, [])
    else
      var before := Run(t, es[..|es| - 1]);
      var last := es[|es| - 1];
      var s := Handle(before.layer, last.event, last.now);
      Step(s.layer, before.actions + s.actions)
  }

  /** The layer after the first `k` events. */
  function After(t: Layer, es: seq<Stamped>, k: nat): Layer
    requires k <= |es|
  {
    Run(t, es[..k]).layer
  }

  lemma OneMore(t: Layer, es: seq<Stamped>, k: nat)
    requires k < |es|
    ensures After(t, es, k + 1) == Handle(After(t, es, k), es[k].event, es[k].now).layer
    ensures Run(t, es[..k + 1]).actions
         == Run(t, es[..k]).actions + Handle(After(t, es, k), es[k].event, es[k].now).actions
  {
    assert es[..k + 1][..k] == es[..k];
  }

  // ── The state invariant ─────────────────────────────────────────

  /** Timers, counters and the saved frame agree with the state. */
  ghost predicate Inv(t: Layer) {
    && (t.ackDeadline.Some? <==> t.state == OpenWait)
    && (t.connectionDeadline.Some? <==> t.state != Closed)
    && (t.state == OpenWait ==>
          && t.saved.Some?
          && t.saved.value.seqNo == t.seqSend
          && t.saved.value.destination == t.peer)
    && t.repCount <= MAX_REP_COUNT
    && t.seqSend < SEQ_MODULUS
    && t.seqRecv < SEQ_MODULUS
  }

  lemma StepKeepsInv(t: Layer, e: Event, now: nat)
    requires Inv(t)
    ensures Inv(Handle(t, e, now).layer)
  {
    match e
    case DataInd(_, _, _, _) =>
    case AckInd(_, _) =>
    case NackInd(_, _) =>
    case Poll =>
    case _ =>
  }

  lemma {:induction false} RunKeepsInv(t: Layer, es: seq<Stamped>)
    requires Inv(t)
    ensures Inv(Run(t, es).layer)
  {
    if es != [] {
      RunKeepsInv(t, es[..|es| - 1]);
      StepKeepsInv(Run(t, es[..|es| - 1]).layer, es[|es| - 1].event, es[|es| - 1].now);
    }
  }

  // ── Bounded retransmission ──────────────────────────────────────

  /** The data frames among `actions`, in order. */
  function DataSends(actions: seq<Action>): seq<Action> {
    if actions == [] then []
    else
      var rest := DataSends(actions[..|actions| - 1]);
      if actions[|actions| - 1].SendDataConnected? then rest + [actions[|actions| - 1]] else rest
  }

  lemma {:induction false} DataSendsConcat(a: seq<Action>, b: seq<Action>)
    ensures DataSends(a + b) == DataSends(a) + DataSends(b)
  {
    if b == [] {
      assert a + b == a;
    } else {
      DataSendsConcat(a, b[..|b| - 1]);
      assert (a + b)[..|a + b| - 1] == a + b[..|b| - 1];
    }
  }

  /** What the events from position `i` up to position `j` send. */
  function SentBetween(t: Layer, es: seq<Stamped>, i: nat, j: nat): seq<Action>
    requires i <= j <= |es|
    decreases j - i
  {
    if i == j then []
    else SentBetween(t, es, i, j - 1) + DataSends(Handle(After(t, es, j - 1), es[j - 1].event, es[j - 1].now).actions)
  }

  /** Nothing happens later than `lag` after a due acknowledgement timer that was not polled yet. */
  ghost predicate PromptlyPolled(t: Layer, es: seq<Stamped>, lag: nat) {
    forall k :: 0 <= k < |es| ==>
      var ack := After(t, es, k).ackDeadline;
      ack.Some? ==> es[k].now <= ack.value + lag
  }

  /** The stretch `i < .. <= j` of a run in which one frame waits for its acknowledgement. */
  ghost predicate WaitsFrom(t: Layer, es: seq<Stamped>, i: nat, j: nat) {
    && i < j <= |es|
    && After(t, es, i).state != OpenWait
    && forall k :: i < k <= j ==> After(t, es, k).state == OpenWait
  }

  function FrameOf(t: Layer): Action
    requires t.saved.Some?
  {
    SendDataConnected(t.saved.value.destination, t.saved.value.seqNo, t.saved.value.priority, t.saved.value.apdu)
  }

  /** `n` copies of one action. */
  function Copies(a: Action, n: nat): (r: seq<Action>)
    ensures |r| == n
  {
    seq(n, _ => a)
  }

  /** Entering the wait sends the saved frame once and starts its timer. */
  lemma EnteringWait(t: Layer, e: Event, now: nat)
    requires Inv(t) && t.state != OpenWait
    requires Handle(t, e, now).layer.state == OpenWait
    ensures var s := Handle(t, e, now);
            && s.layer.saved.Some? && s.actions == [FrameOf(s.layer)]
            && s.layer.repCount == 0 && s.layer.ackDeadline == Some(now + ACK_TIMEOUT_MS)
  {
    match e
    case DataReq(_, _) =>
    case Poll =>
    case _ =>
  }

  lemma {:induction false} NoDataSends(actions: seq<Action>)
    requires forall a :: a in actions ==> !a.SendDataConnected?
    ensures DataSends(actions) == []
  {
    if actions != [] {
      NoDataSends(actions[..|actions| - 1]);
    }
  }

  lemma OneDataSend(frame: Action)
    requires frame.SendDataConnected?
    ensures DataSends([frame]) == [frame]
  {
    assert [frame][..0] == [];
  }

  /** While the wait lasts, an event repeats the same frame and counts it, or sends no data and leaves its timer. */
  lemma Waiting(t: Layer, e: Event, now: nat)
    requires Inv(t) && t.state == OpenWait
    requires Handle(t, e, now).layer.state == OpenWait
    ensures var s := Handle(t, e, now);
            && s.layer.saved == t.saved
            && (s == Resending(t, now) || s == Resending(t.(ackDeadline := None), now)
                || (s.layer.repCount == t.repCount && s.layer.ackDeadline == t.ackDeadline
                    && forall a :: a in s.actions ==> !a.SendDataConnected?))
  {
    match e
    case DataInd(_, _, _, _) =>
    case NackInd(_, _) =>
    case Poll =>
    case _ =>
  }

  /** The latest expiry of the acknowledgement timer after `reps` repetitions of a frame first sent at `start`. */
  function LatestExpiry(start: nat, reps: nat, lag: nat): nat {
    if reps == 0 then start + ACK_TIMEOUT_MS else LatestExpiry(start, reps - 1, lag) + lag + ACK_TIMEOUT_MS
  }

  lemma ExpiryWithinFour(start: nat, reps: nat, lag: nat)
    requires reps <= MAX_REP_COUNT
    ensures LatestExpiry(start, reps, lag) + lag <= start + 4 * (ACK_TIMEOUT_MS + lag)
  {
    assert LatestExpiry(start, 1, lag) == LatestExpiry(start, 0, lag) + lag + ACK_TIMEOUT_MS;
    assert LatestExpiry(start, 2, lag) == LatestExpiry(start, 1, lag) + lag + ACK_TIMEOUT_MS;
    assert LatestExpiry(start, 3, lag) == LatestExpiry(start, 2, lag) + lag + ACK_TIMEOUT_MS;
  }

  /** The state a frame that was first sent at `start` waits in, after `sent` was put on the wire for it. */
  ghost predicate WaitBounded(u: Layer, sent: seq<Action>, start: nat, lag: nat) {
    && u.saved.Some?
    && sent == Copies(FrameOf(u), u.repCount + 1)
    && u.ackDeadline.Some?
    && u.ackDeadline.value <= LatestExpiry(start, u.repCount, lag)
  }

  lemma WaitStaysBounded(t: Layer, e: Event, now: nat, sent: seq<Action>, start: nat, lag: nat)
    requires Inv(t) && t.state == OpenWait && WaitBounded(t, sent, start, lag)
    requires now <= t.ackDeadline.value + lag
    requires Handle(t, e, now).layer.state == OpenWait
    ensures WaitBounded(Handle(t, e, now).layer, sent + DataSends(Handle(t, e, now).actions), start, lag)
  {
    Waiting(t, e, now);
    StepKeepsBound(t, Handle(t, e, now), now, sent, start, lag);
  }

  /** As `WaitStaysBounded`, for what `Waiting` says about the step. */
  lemma StepKeepsBound(t: Layer, s: Step, now: nat, sent: seq<Action>, start: nat, lag: nat)
    requires WaitBounded(t, sent, start, lag) && now <= t.ackDeadline.value + lag && s.layer.saved == t.saved
    requires s == Resending(t, now) || s == Resending(t.(ackDeadline := None), now)
             || (s.layer.repCount == t.repCount && s.layer.ackDeadline == t.ackDeadline
                 && forall a :: a in s.actions ==> !a.SendDataConnected?)
    ensures WaitBounded(s.layer, sent + DataSends(s.actions), start, lag)
  {
    if s.layer.repCount == t.repCount {
      NoDataSends(s.actions);
      assert sent + [] == sent;
    } else {
      assert s.actions == [FrameOf(t)];
      OneDataSend(FrameOf(t));
      assert Copies(FrameOf(t), t.repCount + 1) + [FrameOf(t)] == Copies(FrameOf(t), t.repCount + 2);
    }
  }

  lemma WaitStartsBounded(t: Layer, es: seq<Stamped>, lag: nat, i: nat)
    requires Inv(t) && WaitsFrom(t, es, i, i + 1)
    ensures WaitBounded(After(t, es, i + 1), SentBetween(t, es, i, i + 1), es[i].now, lag)
  {
    var before := After(t, es, i);
    var s := Handle(before, es[i].event, es[i].now);
    assert s.layer == After(t, es, i + 1) by { OneMore(t, es, i); }
    RunKeepsInv(t, es[..i]);
    EnteringWait(before, es[i].event, es[i].now);
    OneDataSend(FrameOf(s.layer));
    assert SentBetween(t, es, i, i + 1) == [] + [FrameOf(s.layer)];
    assert Copies(FrameOf(s.layer), 1) == [FrameOf(s.layer)];
  }

  lemma {:induction false} WaitBoundedThroughout(t: Layer, es: seq<Stamped>, lag: nat, i: nat, j: nat)
    requires Inv(t) && PromptlyPolled(t, es, lag)
    requires WaitsFrom(t, es, i, j)
    ensures WaitBounded(After(t, es, j), SentBetween(t, es, i, j), es[i].now, lag)
    decreases j
  {
    if j == i + 1 {
      WaitStartsBounded(t, es, lag, i);
    } else {
      WaitBoundedThroughout(t, es, lag, i, j - 1);
      var before, last := After(t, es, j - 1), es[j - 1];
      assert before.state == OpenWait && After(t, es, j).state == OpenWait;
      assert Inv(before) by { RunKeepsInv(t, es[..j - 1]); }
      assert After(t, es, j) == Handle(before, last.event, last.now).layer by { OneMore(t, es, j - 1); }
      WaitStaysBounded(before, last.event, last.now, SentBetween(t, es, i, j - 1), es[i].now, lag);
    }
  }

  /**
   However acknowledgements, refusals, timeouts and the remote's own data interleave, one
   frame is put on the wire once and repeated at most three times, always the same, and
   every event that finds it waiting happens within four acknowledgement times.
   */
  lemma RetransmissionIsBounded(t: Layer, es: seq<Stamped>, lag: nat, i: nat, j: nat)
    requires Inv(t) && PromptlyPolled(t, es, lag)
    requires WaitsFrom(t, es, i, j)
    ensures var u := After(t, es, j);
            && u.saved.Some?
            && SentBetween(t, es, i, j) == Copies(FrameOf(u), u.repCount + 1)
            && u.repCount <= MAX_REP_COUNT
    ensures j < |es| ==> es[j].now <= es[i].now + 4 * (ACK_TIMEOUT_MS + lag)
  {
    WaitBoundedThroughout(t, es, lag, i, j);
    RunKeepsInv(t, es[..j]);
    ExpiryWithinFour(es[i].now, After(t, es, j).repCount, lag);
  }

  /**
   With polling exactly on time, an event that finds a frame waiting happens at most twelve
   seconds after the frame was first sent, in every run of a fresh layer.
   */
  lemma WaitEndsWithinTwelveSeconds(es: seq<Stamped>, i: nat, j: nat)
    requires PromptlyPolled(INITIAL, es, 0)
    requires WaitsFrom(INITIAL, es, i, j)
    ensures j < |es| ==> es[j].now <= es[i].now + 12_000
    ensures |SentBetween(INITIAL, es, i, j)| <= 4
  {
    RetransmissionIsBounded(INITIAL, es, 0, i, j);
  }

  /** A poll that finds the fourth transmission overdue closes the connection. */
  lemma LastTimeoutCloses(t: Layer, now: nat)
    requires Inv(t) && t.state == OpenWait && t.repCount == MAX_REP_COUNT
    requires Due(t.ackDeadline, now)
    ensures Handle(t, Poll, now).layer.state == Closed
    ensures Handle(t, Poll, now).actions == [SendControl(t.peer, Disconnect, 0), DisconnectIndication(t.peer)]
  {
    assert t.state != Closed;
  }

  // ── Independence from other devices ─────────────────────────────

  /** Whether an event is a frame of a device other than `peer`. */
  predicate Foreign(e: Event, peer: Address) {
    match e
    case ConnectInd(source) => source != peer
    case DisconnectInd(source) => source != peer
    case DataInd(source, _, _, _) => source != peer
    case AckInd(source, _) => source != peer
    case NackInd(source, _) => source != peer
    case _ => false
  }

  function WithoutForeign(es: seq<Stamped>, peer: Address): seq<Stamped> {
    if es == [] then []
    else
      var rest := WithoutForeign(es[..|es| - 1], peer);
      if Foreign(es[|es| - 1].event, peer) then rest else rest + [es[|es| - 1]]
  }

  /** A disconnect sent to a device other than `peer`. */
  predicate Rejection(a: Action, peer: Address) {
    a.SendControl? && a.control == Disconnect && a.destination != peer
  }

  function WithoutRejections(actions: seq<Action>, peer: Address): seq<Action> {
    if actions == [] then []
    else
      var rest := WithoutRejections(actions[..|actions| - 1], peer);
      if Rejection(actions[|actions| - 1], peer) then rest else rest + [actions[|actions| - 1]]
  }

  lemma {:induction false} WithoutRejectionsConcat(a: seq<Action>, b: seq<Action>, peer: Address)
    ensures WithoutRejections(a + b, peer) == WithoutRejections(a, peer) + WithoutRejections(b, peer)
  {
    if b == [] {
      assert a + b == a;
    } else {
      WithoutRejectionsConcat(a, b[..|b| - 1], peer);
      assert (a + b)[..|a + b| - 1] == a + b[..|b| - 1];
    }
  }

  lemma {:induction false} NothingToReject(actions: seq<Action>, peer: Address)
    requires forall a :: a in actions ==> !Rejection(a, peer)
    ensures WithoutRejections(actions, peer) == actions
  {
    if actions != [] {
      NothingToReject(actions[..|actions| - 1], peer);
      assert actions == actions[..|actions| - 1] + [actions[|actions| - 1]];
    }
  }

  /** An open layer answers a foreign frame with a rejection or not at all, and does not change. */
  lemma ForeignEventIsHarmless(t: Layer, e: Event, now: nat)
    requires t.state != Closed && Foreign(e, t.peer)
    ensures Handle(t, e, now).layer == t
    ensures WithoutRejections(Handle(t, e, now).actions, t.peer) == []
  {
    var actions := Handle(t, e, now).actions;
    assert |actions| == 1 ==> actions[..0] == [];
  }

  /** The other events of an open layer reject nobody, and the remote stays the same. */
  lemma OwnEventRejectsNobody(t: Layer, e: Event, now: nat)
    requires Inv(t) && t.state != Closed && !Foreign(e, t.peer)
    ensures var s := Handle(t, e, now);
            s.layer.peer == t.peer && forall a :: a in s.actions ==> !Rejection(a, t.peer)
  {
    match e
    case DataInd(_, _, _, _) =>
    case AckInd(_, _) =>
    case NackInd(_, _) =>
    case Poll =>
    case _ =>
  }

  /** The connection is open at every event of the run. */
  ghost predicate OpenThroughout(t: Layer, es: seq<Stamped>) {
    forall k :: 0 <= k < |es| ==> After(t, es, k).state != Closed
  }

  /**
   Non-interference: as long as a connection is open, removing every frame of every other
   device from the run changes nothing but the rejections those devices get. State, timers,
   counters and all other actions are the same.
   */
  lemma {:induction false} OtherDevicesDoNotInterfere(t: Layer, es: seq<Stamped>)
    requires Inv(t) && OpenThroughout(t, es)
    ensures Run(t, es).layer == Run(t, WithoutForeign(es, t.peer)).layer
    ensures WithoutRejections(Run(t, es).actions, t.peer) == Run(t, WithoutForeign(es, t.peer)).actions
    ensures Run(t, es).layer.peer == t.peer
  {
    if es != [] {
      var n := |es| - 1;
      var prefix, last := es[..n], es[n];
      assert forall k :: 0 <= k <= n ==> prefix[..k] == es[..k];
      assert OpenThroughout(t, prefix) by {
        forall k | 0 <= k < |prefix| ensures After(t, prefix, k).state != Closed {
          assert After(t, prefix, k) == After(t, es, k);
        }
      }
      assert After(t, es, n) == Run(t, prefix).layer;
      OtherDevicesDoNotInterfere(t, prefix);
      RunKeepsInv(t, prefix);
      var before := Run(t, prefix);
      var s := Handle(before.layer, last.event, last.now);
      WithoutRejectionsConcat(before.actions, s.actions, t.peer);
      if Foreign(last.event, t.peer) {
        ForeignEventIsHarmless(before.layer, last.event, last.now);
      } else {
        OwnEventRejectsNobody(before.layer, last.event, last.now);
        NothingToReject(s.actions, t.peer);
        var kept := WithoutForeign(prefix, t.peer);
        assert (kept + [last])[..|kept|] == kept;
      }
    }
  }
}
