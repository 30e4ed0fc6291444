/** What the publisher's flags say about the socket, over every interleaving of
    its own calls, the client's callbacks and the fault-injection hooks. */
module LinkSafety {
  import opened MqttPublishers

  /** Whether the client's socket is open, as the calls made by this class and
      the callbacks it receives show it. The flags only decide which client call
      an operation makes; what that call does to the socket is the client's. */
  function SocketAfter(l: Link, open: bool, op: Op): bool {
    match op
    case Connect(answer) => open || answer
    case Disconnected => false
    case TryReconnect(now, answer) => if CallsReconnect(l, now) then answer else open
    case Publish(_, drops) => if CallsPublish(l) && drops then false else open
    case Disconnect => if l.connected || l.intact then false else open
    case _ => open
  }

  function SocketAfterAll(l: Link, open: bool, ops: seq<Op>): bool
    decreases |ops|
  {
    if ops == [] then open else SocketAfterAll(Step(l, ops[0]), SocketAfter(l, open, ops[0]), ops[1..])
  }

  predicate Sound(l: Link, open: bool) {
    && open == (l.connected || l.intact)
    && (l.connected ==> l.backoff == INITIAL_RECONNECT_BACKOFF_SECONDS && l.nextAttempt == 0.0)
    && INITIAL_RECONNECT_BACKOFF_SECONDS <= l.backoff <= MAX_RECONNECT_BACKOFF_SECONDS
  }

  /** The flags tell the truth about the socket after any sequence of
      operations on a new publisher, `disconnect` leaves it closed, and a
      connected publisher has no backoff pending. */
  lemma {:induction false} FlagsMatchSocket(l: Link, open: bool, ops: seq<Op>)
    requires Sound(l, open)
    ensures Sound(Steps(l, ops), SocketAfterAll(l, open, ops))
    ensures ops != [] && ops[|ops| - 1].Disconnect? ==> !SocketAfterAll(l, open, ops)
    decreases |ops|
  {
    if ops != [] {
      FlagsMatchSocket(Step(l, ops[0]), SocketAfter(l, open, ops[0]), ops[1..]);
      if |ops| == 1 {
        assert SocketAfterAll(l, open, ops) == SocketAfter(l, open, ops[0]);
      }
    }
  }

  /** `client.reconnect()` is only ever called on a closed socket. */
  lemma ReconnectOnlyWhenClosed(ops: seq<Op>, now: real)
    requires CallsReconnect(Steps(FRESH, ops), now)
    ensures !SocketAfterAll(FRESH, false, ops)
  {
    FlagsMatchSocket(FRESH, false, ops);
  }

  // --- simulated outages ---

  /** The operations that can end a simulated outage. */
  predicate EndsOutage(op: Op) {
    op.ClearConnectionOutage? || op.Disconnect? || (op.Connect? && op.answer)
  }

  lemma {:induction false} OutageHolds(l: Link, ops: seq<Op>)
    requires l.outage && !l.connected
    requires forall i :: 0 <= i < |ops| ==> !EndsOutage(ops[i])
    ensures Steps(l, ops).outage && !Steps(l, ops).connected
    decreases |ops|
  {
    if ops != [] {
      OutageHolds(Step(l, ops[0]), ops[1..]);
    }
  }

  /** From an injected outage to the operation that ends it, nothing is
      acknowledged and no reconnect succeeds. */
  lemma NothingAcknowledgedDuringOutage(l: Link, ops: seq<Op>, next: Op)
    requires forall i :: 0 <= i < |ops| ==> !EndsOutage(ops[i])
    ensures var during := Steps(Step(l, InjectConnectionOutage), ops);
            !Acknowledged(during, next) && (next.TryReconnect? ==> !Step(during, next).connected)
  {
    OutageHolds(Step(l, InjectConnectionOutage), ops);
  }

  lemma OutageLastsUntilConnect(l: Link, ops: seq<Op>)
    requires forall i :: 0 <= i < |ops| ==> !ops[i].ClearConnectionOutage? && !ops[i].Disconnect?
    requires l.outage && !l.connected && Steps(l, ops).connected
    ensures exists i :: 0 <= i < |ops| && ops[i] == Connect(true)
  {
    if forall i :: 0 <= i < |ops| ==> ops[i] != Connect(true) {
      OutageHolds(l, ops);
    }
  }

  /** While an outage is neither cleared nor ended by `disconnect`, the publisher
      gets connected at some point exactly if some `connect` call succeeds. */
  lemma OutageIsDefeatedOnlyByConnect(l: Link, ops: seq<Op>)
    requires forall i :: 0 <= i < |ops| ==> !ops[i].ClearConnectionOutage? && !ops[i].Disconnect?
    requires l.outage && !l.connected
    ensures (exists k :: 0 <= k <= |ops| && Steps(l, ops[..k]).connected) <==>
            (exists i :: 0 <= i < |ops| && ops[i] == Connect(true))
  {
    if k :| 0 <= k <= |ops| && Steps(l, ops[..k]).connected {
      OutageLastsUntilConnect(l, ops[..k]);
      var i :| 0 <= i < k && ops[..k][i] == Connect(true);
      assert ops[i] == Connect(true);
    }
    if i :| 0 <= i < |ops| && ops[i] == Connect(true) {
      StepsSnoc(l, ops[..i], ops[i]);
      assert ops[..i + 1] == ops[..i] + [ops[i]];
    }
  }

  /** Injecting and clearing an outage on an open connection loses nothing: the
      next due attempt finds the socket still open, whatever the broker would
      have answered to a real reconnect. */
  lemma ClearedOutageRecovers(l: Link, now: real, answer: bool)
    requires l.connected && Sound(l, true) && now >= 0.0
    ensures var cleared := Steps(l, [InjectConnectionOutage, ClearConnectionOutage]);
            !cleared.connected && !CallsReconnect(cleared, now) &&
            Step(cleared, TryReconnect(now, answer)) == l.(outage := false, intact := false)
  {
    var ops := [InjectConnectionOutage, ClearConnectionOutage];
    assert Steps(Step(l, ops[0]), ops[1..]) == Step(Step(l, ops[0]), ops[1]);
  }

  /** `disconnect` ends an outage, whatever happened during it: from then on
      the publisher gets connected exactly when a due attempt is answered. */
  lemma DisconnectEndsOutage(l: Link, ops: seq<Op>, now: real, answer: bool)
    ensures var after := Steps(l, [InjectConnectionOutage] + ops + [Op.Disconnect]);
            && !after.outage && !after.connected && !after.intact
            && (Step(after, TryReconnect(now, answer)).connected <==> now >= after.nextAttempt && answer)
  {
    StepsSnoc(l, [InjectConnectionOutage] + ops, Op.Disconnect);
  }

  // --- injected publish failures ---

  function Publishes(ops: seq<Op>): nat {
    if ops == [] then 0 else Publishes(ops[..|ops| - 1]) + (if ops[|ops| - 1].Publish? then 1 else 0)
  }

  /** No hook for publish failures is called. */
  ghost predicate LeavesFailures(ops: seq<Op>) {
    forall i :: 0 <= i < |ops| ==> !ops[i].InjectPublishFailures? && !ops[i].ClearInjectedFailures?
  }

  /** Each publish, acknowledged or not, connected or not, uses up one failure. */
  lemma {:induction false} FailuresAreUsedUp(l: Link, ops: seq<Op>)
    requires LeavesFailures(ops)
    ensures Steps(l, ops).forcedFailures ==
            if l.forcedFailures <= Publishes(ops) then (if l.forcedFailures < 0 then l.forcedFailures else 0)
            else l.forcedFailures - Publishes(ops)
  {
    if ops != [] {
      var before, op := ops[..|ops| - 1], ops[|ops| - 1];
      FailuresAreUsedUp(l, before);
      StepsSnoc(l, before, op);
      assert ops == before + [op];
    }
  }

  /** After `inject_publish_failures(count)` and any operations but these hooks,
      the hook still fails the next publish exactly if fewer than `count` were
      made; the publish after them is acknowledged exactly if the publisher is
      connected and the broker answers. A publish that the hook fails changes
      nothing else, not even when the connection would have dropped. */
  lemma ExactlyCountPublishesFail(l: Link, count: int, ops: seq<Op>, answer: bool, drops: bool)
    requires LeavesFailures(ops)
    ensures var after := Steps(Step(l, InjectPublishFailures(count)), ops);
            var next := Op.Publish(answer, drops);
            && (Acknowledged(after, next) <==> Publishes(ops) >= count && after.connected && answer)
            && (Publishes(ops) < count ==> Step(after, next) == after.(forcedFailures := count - Publishes(ops) - 1))
            && (Publishes(ops) >= count && after.connected ==> Step(after, next).connected == !drops)
  {
    FailuresAreUsedUp(Step(l, InjectPublishFailures(count)), ops);
  }

  /** `clear_injected_failures` ends them at once. */
  lemma ClearedFailuresAreGone(l: Link, ops: seq<Op>, answer: bool, drops: bool)
    requires LeavesFailures(ops)
    ensures var after := Steps(Step(l, ClearInjectedFailures), ops);
            Acknowledged(after, Op.Publish(answer, drops)) <==> after.connected && answer
  {
    FailuresAreUsedUp(Step(l, ClearInjectedFailures), ops);
  }
}
