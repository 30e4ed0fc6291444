/** The store-and-forward loop as functions of its state and of the outside
    world: `RunOnce` is one iteration of the loop, `Machine` the same iteration
    cut into the atomic effects between which the process can be killed. */
module Gateways {
  import opened Telemetry
  import opened Ingestion
  import opened TelemetryBuffers
  import opened MqttPublishers

  const REPLAY_BATCH_SIZE := 100

  type ExternalOps = ops: seq<Op> | forall i :: 0 <= i < |ops| ==> IsExternal(ops[i]) witness []

  /** One interaction with the outside: the callbacks and hooks that ran since
      the previous one, then whatever answer this interaction asks for. */
  datatype Moment = Moment(events: ExternalOps, answer: bool, drops: bool, now: real, frame: Option<Frame>)

  type World = nat -> Moment

  datatype Metrics = Metrics(processed: nat, rejected: nat, publishFailures: nat, buffered: nat, replayed: nat)

  const NO_METRICS := Metrics(0, 0, 0, 0, 0)

  /** The observable effects, in order. `Stored` is the insert-and-trim
      transaction, `Deleted` the removal of one confirmed batch. */
  datatype Action =
    | Live(event: Event, acked: bool)
    | Stored(row: Row, trimmed: seq<Row>)
    | Resent(row: Row, acked: bool)
    | Deleted(rows: seq<Row>)
    | Reconnection(succeeded: bool)
    | Refused(eventId: nat)

  datatype Gateway = Gateway(table: Table, maxSize: int, dropped: int, link: Link, replayRequested: bool,
                             metrics: Metrics, sessionId: string, vehicleId: string, minted: nat,
                             received: nat, ignored: nat, cursor: nat, journal: seq<Action>)

  // --- one interaction ---

  function Settled(g: Gateway, world: World): Link {
    Steps(g.link, world(g.cursor).events)
  }

  /** `is_connected()`. */
  function Observe(g: Gateway, world: World): Gateway {
    g.(link := Settled(g, world), cursor := g.cursor + 1)
  }

  /** `try_reconnect()`, requesting a replay when it reports a connection. */
  function Attempt(g: Gateway, world: World): Gateway {
    var m, l := world(g.cursor), Settled(g, world);
    var after := Step(l, Op.TryReconnect(m.now, m.answer));
    g.(link := after, cursor := g.cursor + 1,
       replayRequested := g.replayRequested || after.connected,
       journal := if Attempts(l, m.now) then g.journal + [Reconnection(after.connected)] else g.journal)
  }

  /** The outcome of one `publish()`. */
  predicate SendSucceeds(g: Gateway, world: World) {
    Acknowledged(Settled(g, world), Op.Publish(world(g.cursor).answer, world(g.cursor).drops))
  }

  function Send(g: Gateway, world: World): Gateway {
    var m := world(g.cursor);
    g.(link := Step(Settled(g, world), Op.Publish(m.answer, m.drops)), cursor := g.cursor + 1)
  }

  // --- replay ---

  function Resend(g: Gateway, world: World, row: Row): Gateway {
    var ok := SendSucceeds(g, world);
    Send(g, world).(journal := g.journal + [Resent(row, ok)],
                    metrics := if ok then g.metrics.(replayed := g.metrics.replayed + 1) else g.metrics)
  }

  function DeleteConfirmed(g: Gateway, confirmed: seq<Row>): Gateway {
    if confirmed == [] then g
    else g.(table := Removed(g.table, Ids(confirmed)), journal := g.journal + [Deleted(confirmed)])
  }

  /** The `for row in batch` loop: rows already confirmed and rows still to send. */
  function ReplayBatch(g: Gateway, world: World, sent: seq<Row>, pending: seq<Row>): (r: (Gateway, seq<Row>))
    ensures r.0.table == g.table && |sent| <= |r.1| <= |sent| + |pending|
    ensures r.1 <= sent + pending
    decreases |pending|
  {
    if pending == [] then (g, sent) else
    var g0 := Observe(g, world);
    if !g0.link.connected then (g0, sent) else
    var g1 := Resend(g0, world, pending[0]);
    if !SendSucceeds(g0, world) then (g1, sent) else
    assert sent + pending == sent + [pending[0]] + pending[1..];
    ReplayBatch(g1, world, sent + [pending[0]], pending[1..])
  }

  lemma DeletedBatchShrinksTable(t: Table, confirmed: seq<Row>)
    requires confirmed != [] && confirmed <= t.rows
    ensures |Removed(t, Ids(confirmed)).rows| < |t.rows|
  {
    assert t.rows[0].id == Ids(confirmed)[0];
    DeleteIdsShrinks(t.rows[1..], Ids(confirmed));
  }

  /** Deleting a confirmed prefix of the table leaves the rest. */
  lemma ConfirmedAreDeleted(t: Table, sent: seq<Row>)
    requires WellFormed(t) && sent <= t.rows
    ensures Removed(t, Ids(sent)) == t.(rows := t.rows[|sent|..]) && WellFormed(Removed(t, Ids(sent)))
  {
    assert t.rows[..|sent|] == sent;
    DeleteOldest(t.rows, |sent|);
  }

  /** The next row of a batch in progress. */
  lemma NextInBatch(rows: seq<Row>, sent: seq<Row>, row: Row, rest: seq<Row>)
    requires sent + [row] + rest <= rows
    ensures |sent| < |rows| && rows[|sent|] == row && sent <= rows && sent + [row] <= rows
    ensures (sent + [row]) + rest <= rows
  {
    assert (sent + [row] + rest)[|sent|] == row;
    assert sent == rows[..|sent|] && sent + [row] == rows[..|sent| + 1];
  }

  lemma {:induction false} DeleteIdsShrinks(rows: seq<Row>, ids: seq<nat>)
    ensures |DeleteIds(rows, ids)| <= |rows|
  {
    if rows != [] {
      DeleteIdsShrinks(rows[1..], ids);
    }
  }

  /** `_replay_buffered()`: the state afterwards, and whether the table was drained. */
  function Replay(g: Gateway, world: World, limit: nat): (Gateway, bool)
    requires limit >= 1
    decreases |g.table.rows|
  {
    var batch := Oldest(g.table.rows, limit);
    if batch == [] then (g, true) else
    var (g1, confirmed) := ReplayBatch(g, world, [], batch);
    var g2 := DeleteConfirmed(g1, confirmed);
    if |confirmed| < |batch| then (g2, false) else
    assert [] + batch == batch;
    DeletedBatchShrinksTable(g.table, confirmed);
    Replay(g2, world, limit)
  }

  // --- one iteration ---

  function ReconnectPhase(g: Gateway, world: World): Gateway {
    var g0 := Observe(g, world);
    if g0.link.connected then g0 else Attempt(g0, world)
  }

  function ReplayPhase(g: Gateway, world: World): Gateway {
    if !g.replayRequested then g else
    var g0 := Observe(g, world);
    if !g0.link.connected then g0 else
    var (g1, drained) := Replay(g0, world, REPLAY_BATCH_SIZE);
    if drained then g1.(replayRequested := false) else g1
  }

  /** What `bus.recv` delivered, already filtered, decoded and validated. */
  function Arrived(g: Gateway, world: World): Option<Arrival> {
    var m := world(g.cursor);
    if m.frame.None? then None
    else Some(Receive(m.frame.value, Context(g.minted, g.sessionId, g.vehicleId, m.now)))
  }

  function Admit(g: Gateway, world: World, arrival: Option<Arrival>): Gateway {
    var g0 := Observe(g, world);
    match arrival
    case None => g0
    case Some(Ignored) => g0.(received := g.received + 1, ignored := g.ignored + 1)
    case Some(Rejected(event)) =>
      g0.(received := g.received + 1, minted := g.minted + 1, journal := g.journal + [Refused(event.eventId)],
          metrics := g.metrics.(rejected := g.metrics.rejected + 1))
    case Some(Accepted(event)) => g0.(received := g.received + 1, minted := g.minted + 1)
  }

  function PublishLive(g: Gateway, world: World, event: Event): Gateway {
    var ok := SendSucceeds(g, world);
    Send(g, world).(journal := g.journal + [Live(event, ok)],
                    metrics := if ok then g.metrics.(processed := g.metrics.processed + 1)
                               else g.metrics.(publishFailures := g.metrics.publishFailures + 1))
  }

  /** The row an event becomes, and the rows trimmed to make room for it. */
  function NewRow(t: Table, event: Event): Row {
    Row(t.lastId + 1, event.eventId, BuildTopic(event), event)
  }

  function Trimmed(t: Table, maxSize: int, row: Row): seq<Row> {
    var longer := t.rows + [row];
    longer[..|longer| - |LastN(longer, maxSize)|]
  }

  function WithEvent(t: Table, maxSize: int, event: Event): Table {
    Enqueued(t, maxSize, event.eventId, BuildTopic(event), event)
  }

  /** The table gets exactly the newest rows of the old ones and the new one. */
  lemma WithEventRows(t: Table, maxSize: int, event: Event)
    requires WellFormed(t)
    ensures var longer, after := t.rows + [NewRow(t, event)], WithEvent(t, maxSize, event);
            && WellFormed(after) && after.lastId == t.lastId + 1
            && after.rows == LastN(longer, maxSize)
            && longer == Trimmed(t, maxSize, NewRow(t, event)) + after.rows
  {
    EnqueueKeepsWellFormed(t, maxSize, event.eventId, BuildTopic(event), event);
    var longer, after := t.rows + [NewRow(t, event)], WithEvent(t, maxSize, event);
    assert after.rows == LastN(longer, maxSize);
    LastNIsSuffix(longer, maxSize);
  }

  function Store(g: Gateway, event: Event): Gateway {
    var row := NewRow(g.table, event);
    g.(table := WithEvent(g.table, g.maxSize, event),
       dropped := g.dropped + Overflow(|g.table.rows| + 1, g.maxSize),
       metrics := g.metrics.(buffered := g.metrics.buffered + 1),
       journal := g.journal + [Stored(row, Trimmed(g.table, g.maxSize, row))])
  }

  function LivePhase(g: Gateway, world: World): Gateway {
    var arrival := Arrived(g, world);
    var g0 := Admit(g, world, arrival);
    if arrival.None? || !arrival.value.Accepted? then g0 else
    var g1 := PublishLive(g0, world, arrival.value.event);
    if SendSucceeds(g0, world) then g1 else Store(g1, arrival.value.event)
  }

  function RunOnce(g: Gateway, world: World): Gateway {
    LivePhase(ReplayPhase(ReconnectPhase(g, world), world), world)
  }

  /** `run()` before its first iteration, and after n of them. */
  function Begin(g: Gateway): Gateway {
    if g.table.rows != [] then g.(replayRequested := true) else g
  }

  function Iterate(g: Gateway, world: World, n: nat): Gateway {
    if n == 0 then g else RunOnce(Iterate(g, world, n - 1), world)
  }

  /** A new gateway process on an existing file. */
  function Started(table: Table, maxSize: int, link: Link, sessionId: string, vehicleId: string, minted: nat): Gateway {
    Gateway(table, maxSize, 0, link, false, NO_METRICS, sessionId, vehicleId, minted, 0, 0, 0, [])
  }

  // --- the same iteration in atomic steps ---

  datatype Pc =
    | Top
    | Reconnecting
    | CheckReplay
    | Peeking
    | Checking(sent: seq<Row>, pending: seq<Row>)
    | Resending(sent: seq<Row>, row: Row, rest: seq<Row>)
    | Removing(sent: seq<Row>, complete: bool)
    | Receiving
    | Publishing(event: Event)
    | Storing(event: Event)

  datatype Machine = Machine(g: Gateway, pc: Pc)

  function Micro(m: Machine, world: World): Machine {
    var g := m.g;
    match m.pc
    case Top =>
      var g0 := Observe(g, world);
      Machine(g0, if g0.link.connected then CheckReplay else Reconnecting)
    case Reconnecting => Machine(Attempt(g, world), CheckReplay)
    case CheckReplay =>
      if !g.replayRequested then Machine(g, Receiving) else
      var g0 := Observe(g, world);
      Machine(g0, if g0.link.connected then Peeking else Receiving)
    case Peeking =>
      var batch := Oldest(g.table.rows, REPLAY_BATCH_SIZE);
      if batch == [] then Machine(g.(replayRequested := false), Receiving) else Machine(g, Checking([], batch))
    case Checking(sent, pending) =>
      if pending == [] then Machine(g, Removing(sent, true)) else
      var g0 := Observe(g, world);
      Machine(g0, if g0.link.connected then Resending(sent, pending[0], pending[1..]) else Removing(sent, false))
    case Resending(sent, row, rest) =>
      Machine(Resend(g, world, row),
              if SendSucceeds(g, world) then Checking(sent + [row], rest) else Removing(sent, false))
    case Removing(sent, complete) =>
      Machine(DeleteConfirmed(g, sent), if complete then Peeking else Receiving)
    case Receiving =>
      var arrival := Arrived(g, world);
      Machine(Admit(g, world, arrival),
              if arrival.Some? && arrival.value.Accepted? then Publishing(arrival.value.event) else Top)
    case Publishing(event) =>
      Machine(PublishLive(g, world, event), if SendSucceeds(g, world) then Top else Storing(event))
    case Storing(event) => Machine(Store(g, event), Top)
  }

  function Micros(m: Machine, world: World, n: nat): Machine {
    if n == 0 then m else Micro(Micros(m, world, n - 1), world)
  }

  // --- an iteration is a number of atomic steps ---

  /** The property is kept by every atomic step. */
  ghost predicate Stable(inv: Machine -> bool, world: World) {
    forall m {:trigger Micro(m, world)} :: inv(m) ==> inv(Micro(m, world))
  }

  lemma {:induction false} ReplayBatchKeeps(inv: Machine -> bool, world: World, g: Gateway,
                                            sent: seq<Row>, pending: seq<Row>)
    requires Stable(inv, world) && inv(Machine(g, Checking(sent, pending)))
    ensures var (after, confirmed) := ReplayBatch(g, world, sent, pending);
            inv(Machine(after, Removing(confirmed, |confirmed| == |sent| + |pending|)))
    decreases |pending|
  {
    var m := Machine(g, Checking(sent, pending));
    assert inv(Micro(m, world));
    if pending != [] && Observe(g, world).link.connected {
      var g0 := Observe(g, world);
      var m0 := Machine(g0, Resending(sent, pending[0], pending[1..]));
      assert inv(Micro(m0, world));
      if SendSucceeds(g0, world) {
        ReplayBatchKeeps(inv, world, Resend(g0, world, pending[0]), sent + [pending[0]], pending[1..]);
      }
    }
  }

  lemma {:induction false} ReplayKeeps(inv: Machine -> bool, world: World, g: Gateway)
    requires Stable(inv, world) && inv(Machine(g, Peeking))
    ensures var (after, drained) := Replay(g, world, REPLAY_BATCH_SIZE);
            inv(Machine(if drained then after.(replayRequested := false) else after, Receiving))
    decreases |g.table.rows|
  {
    assert inv(Micro(Machine(g, Peeking), world));
    var batch := Oldest(g.table.rows, REPLAY_BATCH_SIZE);
    if batch != [] {
      ReplayBatchKeeps(inv, world, g, [], batch);
      var (g1, confirmed) := ReplayBatch(g, world, [], batch);
      assert inv(Micro(Machine(g1, Removing(confirmed, |confirmed| == |batch|)), world));
      if |confirmed| == |batch| {
        assert [] + batch == batch;
        DeletedBatchShrinksTable(g.table, confirmed);
        ReplayKeeps(inv, world, DeleteConfirmed(g1, confirmed));
      }
    }
  }

  lemma ReconnectPhaseKeeps(inv: Machine -> bool, world: World, g: Gateway)
    requires Stable(inv, world) && inv(Machine(g, Top))
    ensures inv(Machine(ReconnectPhase(g, world), CheckReplay))
  {
    assert inv(Micro(Machine(g, Top), world));
    if !Observe(g, world).link.connected {
      assert inv(Micro(Machine(Observe(g, world), Reconnecting), world));
    }
  }

  lemma ReplayPhaseKeeps(inv: Machine -> bool, world: World, g: Gateway)
    requires Stable(inv, world) && inv(Machine(g, CheckReplay))
    ensures inv(Machine(ReplayPhase(g, world), Receiving))
  {
    assert inv(Micro(Machine(g, CheckReplay), world));
    if g.replayRequested && Observe(g, world).link.connected {
      ReplayKeeps(inv, world, Observe(g, world));
    }
  }

  lemma LivePhaseKeeps(inv: Machine -> bool, world: World, g: Gateway)
    requires Stable(inv, world) && inv(Machine(g, Receiving))
    ensures inv(Machine(LivePhase(g, world), Top))
  {
    assert inv(Micro(Machine(g, Receiving), world));
    var arrival := Arrived(g, world);
    if arrival.Some? && arrival.value.Accepted? {
      var m := Machine(Admit(g, world, arrival), Publishing(arrival.value.event));
      assert inv(Micro(m, world));
      if !SendSucceeds(m.g, world) {
        assert inv(Micro(Micro(m, world), world));
      }
    }
  }

  lemma RunOnceKeeps(inv: Machine -> bool, world: World, g: Gateway)
    requires Stable(inv, world) && inv(Machine(g, Top))
    ensures inv(Machine(RunOnce(g, world), Top))
  {
    ReconnectPhaseKeeps(inv, world, g);
    ReplayPhaseKeeps(inv, world, ReconnectPhase(g, world));
    LivePhaseKeeps(inv, world, ReplayPhase(ReconnectPhase(g, world), world));
  }

  /** Whatever every atomic step keeps holds at every iteration boundary. */
  lemma {:induction false} IterateKeeps(inv: Machine -> bool, world: World, g: Gateway, n: nat)
    requires Stable(inv, world) && inv(Machine(g, Top))
    ensures inv(Machine(Iterate(g, world, n), Top))
  {
    if n > 0 {
      IterateKeeps(inv, world, g, n - 1);
      RunOnceKeeps(inv, world, Iterate(g, world, n - 1));
    }
  }

  /** ... and in every state in between. */
  lemma {:induction false} MicrosKeep(inv: Machine -> bool, world: World, m: Machine, n: nat)
    requires Stable(inv, world) && inv(m)
    ensures inv(Micros(m, world, n))
  {
    if n > 0 {
      MicrosKeep(inv, world, m, n - 1);
    }
  }

  /** The same for a property that speaks of the number of steps as well. */
  ghost predicate StableFrom(inv: (Machine, nat) -> bool, world: World, start: Machine) {
    forall k: nat {:trigger Micros(start, world, k)} ::
      inv(Micros(start, world, k), k) ==> inv(Micro(Micros(start, world, k), world), k + 1)
  }

  lemma {:induction false} MicrosKeepFrom(inv: (Machine, nat) -> bool, world: World, start: Machine, n: nat)
    requires StableFrom(inv, world, start) && inv(start, 0)
    ensures inv(Micros(start, world, n), n)
  {
    if n > 0 {
      MicrosKeepFrom(inv, world, start, n - 1);
    }
  }

  ghost predicate Reachable(start: Machine, world: World, m: Machine) {
    exists n: nat :: Micros(start, world, n) == m
  }

  lemma MicroIsReachable(start: Machine, world: World, m: Machine)
    requires Reachable(start, world, m)
    ensures Reachable(start, world, Micro(m, world))
  {
    var n: nat :| Micros(start, world, n) == m;
    assert Micros(start, world, n + 1) == Micro(m, world);
  }

  /** The iterations are iterations of the atomic steps: every boundary state
      of the loop is reached by some number of them. */
  lemma BoundariesAreReachable(g: Gateway, world: World, n: nat)
    ensures Reachable(Machine(g, Top), world, Machine(Iterate(g, world, n), Top))
  {
    var start := Machine(g, Top);
    var inv := m => Reachable(start, world, m);
    forall m {:trigger Micro(m, world)} | inv(m) ensures inv(Micro(m, world)) {
      MicroIsReachable(start, world, m);
    }
    assert Micros(start, world, 0) == start;
    IterateKeeps(inv, world, g, n);
  }
}
