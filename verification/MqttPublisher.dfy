/** The publisher's view of its connection: the connected flag, the reconnect
    backoff, and the two fault-injection hooks. What the broker and the clock
    answer is a parameter of each operation. */
module MqttPublishers {
  import opened Telemetry

  const INITIAL_RECONNECT_BACKOFF_SECONDS := 1.0
  const MAX_RECONNECT_BACKOFF_SECONDS := 30.0

  datatype Link = Link(connected: bool, backoff: real, nextAttempt: real, forcedFailures: int,
                       outage: bool, intact: bool)

  const FRESH := Link(false, INITIAL_RECONNECT_BACKOFF_SECONDS, 0.0, 0, false, false)

  /** Everything that can happen to a publisher. `answer` is the outside
      world's reply: the client call returned, or the broker acknowledged in
      time. `drops` says that the disconnect callback ran before the publish
      call returned. */
  datatype Op =
    | Connect(answer: bool)
    | Disconnected
    | TryReconnect(now: real, answer: bool)
    | Publish(answer: bool, drops: bool)
    | Disconnect
    | InjectPublishFailures(count: int)
    | ClearInjectedFailures
    | InjectConnectionOutage
    | ClearConnectionOutage

  /** Operations the gateway loop does not perform itself: callbacks and hooks
      that other threads run between its own steps. */
  predicate IsExternal(op: Op) {
    !op.Connect? && !op.TryReconnect? && !op.Publish?
  }

  function Opened(l: Link): Link {
    l.(connected := true, backoff := INITIAL_RECONNECT_BACKOFF_SECONDS, nextAttempt := 0.0)
  }

  function Dropped(l: Link): Link {
    l.(connected := false, intact := false)
  }

  /** The gate of `try_reconnect`: an attempt is really made. */
  predicate Attempts(l: Link, now: real) {
    !l.connected && now >= l.nextAttempt
  }

  /** The attempt re-opens a socket, rather than finding it still open. */
  predicate CallsReconnect(l: Link, now: real) {
    Attempts(l, now) && !l.outage && !l.intact
  }

  predicate AttemptSucceeds(l: Link, answer: bool) {
    !l.outage && (l.intact || answer)
  }

  function Doubled(backoff: real): real {
    if backoff * 2.0 < MAX_RECONNECT_BACKOFF_SECONDS then backoff * 2.0 else MAX_RECONNECT_BACKOFF_SECONDS
  }

  /** The publish call reaches the client library. */
  predicate CallsPublish(l: Link) {
    l.forcedFailures <= 0 && l.connected
  }

  predicate Acknowledged(l: Link, op: Op) {
    op.Publish? && CallsPublish(l) && op.answer
  }

  function Step(l: Link, op: Op): Link {
    match op
    case Connect(answer) => if answer then Opened(l) else l
    case Disconnected => Dropped(l)
    case TryReconnect(now, answer) =>
      if !Attempts(l, now) then l
      else if AttemptSucceeds(l, answer) then Opened(l).(intact := false)
      else l.(nextAttempt := now + l.backoff, backoff := Doubled(l.backoff))
    case Publish(_, drops) =>
      if l.forcedFailures > 0 then l.(forcedFailures := l.forcedFailures - 1)
      else if l.connected && drops then Dropped(l)
      else l
    case Disconnect => l.(connected := false, intact := false, outage := false)
    case InjectPublishFailures(count) => l.(forcedFailures := count)
    case ClearInjectedFailures => l.(forcedFailures := 0)
    case InjectConnectionOutage => l.(outage := true, connected := false, intact := l.connected || l.intact)
    case ClearConnectionOutage => l.(outage := false)
  }

  function Steps(l: Link, ops: seq<Op>): Link
    decreases |ops|
  {
    if ops == [] then l else Steps(Step(l, ops[0]), ops[1..])
  }

  lemma {:induction false} StepsCompose(l: Link, first: seq<Op>, second: seq<Op>)
    ensures Steps(l, first + second) == Steps(Steps(l, first), second)
    decreases |first|
  {
    if first == [] {
      assert first + second == second;
    } else {
      assert (first + second)[1..] == first[1..] + second;
      StepsCompose(Step(l, first[0]), first[1..], second);
    }
  }

  lemma StepsSnoc(l: Link, ops: seq<Op>, op: Op)
    ensures Steps(l, ops + [op]) == Step(Steps(l, ops), op)
  {
    StepsCompose(l, ops, [op]);
    assert Steps(Steps(l, ops), [op]) == Step(Steps(l, ops), op);
  }

  class MqttPublisher {
    var connected: bool
    var reconnectBackoffSeconds: real
    var nextReconnectAttemptAt: real
    var forcedFailuresRemaining: int
    var simulatedOutage: bool
    var simulatedLinkIntact: bool

    function State(): Link
      reads this
    {
      Link(connected, reconnectBackoffSeconds, nextReconnectAttemptAt, forcedFailuresRemaining,
           simulatedOutage, simulatedLinkIntact)
    }

    constructor ()
      ensures State() == FRESH
    {
      connected, forcedFailuresRemaining, simulatedOutage, simulatedLinkIntact := false, 0, false, false;
      reconnectBackoffSeconds, nextReconnectAttemptAt := INITIAL_RECONNECT_BACKOFF_SECONDS, 0.0;
    }

    /** The client's refusal is an exception: no field has been written yet. */
    method Connect(answer: bool) returns (r: Result<(), ()>)
      modifies this
      ensures State() == Step(old(State()), Op.Connect(answer)) && r.Ok? == answer
    {
      if !answer {
        return Err(());
      }
      connected := true;
      reconnectBackoffSeconds := INITIAL_RECONNECT_BACKOFF_SECONDS;
      nextReconnectAttemptAt := 0.0;
      return Ok(());
    }

    method HandleDisconnect()
      modifies this
      ensures State() == Step(old(State()), Disconnected)
    {
      connected := false;
      simulatedLinkIntact := false;
    }

    method TryReconnect(now: real, answer: bool) returns (ok: bool)
      modifies this
      ensures State() == Step(old(State()), Op.TryReconnect(now, answer))
      ensures ok == State().connected
    {
      if connected {
        return true;
      }
      if now < nextReconnectAttemptAt {
        return false;
      }
      if !simulatedOutage && (simulatedLinkIntact || answer) {
        simulatedLinkIntact := false;
        connected := true;
        reconnectBackoffSeconds := INITIAL_RECONNECT_BACKOFF_SECONDS;
        nextReconnectAttemptAt := 0.0;
        return true;
      }
      nextReconnectAttemptAt := now + reconnectBackoffSeconds;
      reconnectBackoffSeconds := Doubled(reconnectBackoffSeconds);
      return false;
    }

    method Publish(answer: bool, drops: bool) returns (ok: bool)
      modifies this
      ensures State() == Step(old(State()), Op.Publish(answer, drops))
      ensures old(forcedFailuresRemaining) > 0 ==> !ok && forcedFailuresRemaining == old(forcedFailuresRemaining) - 1
      ensures old(forcedFailuresRemaining) <= 0 ==> (ok <==> old(connected) && answer)
      ensures ok == Acknowledged(old(State()), Op.Publish(answer, drops))
    {
      if forcedFailuresRemaining > 0 {
        forcedFailuresRemaining := forcedFailuresRemaining - 1;
        return false;
      }
      if !connected {
        return false;
      }
      if drops {
        HandleDisconnect();
      }
      return answer;
    }

    method Disconnect()
      modifies this
      ensures State() == Step(old(State()), Op.Disconnect)
    {
      if connected || simulatedLinkIntact {
        connected := false;
        simulatedLinkIntact := false;
      }
      simulatedOutage := false;
    }

    method InjectPublishFailures(count: int)
      modifies this
      ensures State() == Step(old(State()), Op.InjectPublishFailures(count))
    {
      forcedFailuresRemaining := count;
    }

    method ClearInjectedFailures()
      modifies this
      ensures State() == Step(old(State()), Op.ClearInjectedFailures)
    {
      forcedFailuresRemaining := 0;
    }

    method InjectConnectionOutage()
      modifies this
      ensures State() == Step(old(State()), Op.InjectConnectionOutage)
    {
      simulatedOutage := true;
      if connected {
        connected := false;
        simulatedLinkIntact := true;
      }
    }

    method ClearConnectionOutage()
      modifies this
      ensures State() == Step(old(State()), Op.ClearConnectionOutage)
    {
      simulatedOutage := false;
    }

    /** Callbacks and hooks run by other threads, one after the other. */
    method HandleExternal(ops: seq<Op>)
      requires forall i :: 0 <= i < |ops| ==> IsExternal(ops[i])
      modifies this
      ensures State() == Steps(old(State()), ops)
    {
      var i := 0;
      while i < |ops|
        invariant 0 <= i <= |ops|
        invariant State() == Steps(old(State()), ops[..i])
      {
        StepsSnoc(old(State()), ops[..i], ops[i]);
        assert ops[..i + 1] == ops[..i] + [ops[i]];
        match ops[i] {
          case Disconnected => HandleDisconnect();
          case Disconnect => Disconnect();
          case InjectPublishFailures(count) => InjectPublishFailures(count);
          case ClearInjectedFailures => ClearInjectedFailures();
          case InjectConnectionOutage => InjectConnectionOutage();
          case ClearConnectionOutage => ClearConnectionOutage();
        }
        i := i + 1;
      }
      assert ops[..i] == ops;
    }
  }
}
