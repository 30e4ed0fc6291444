/** What a calm broker makes of a backlog: it is delivered in full, in order
    and at once, unless the gateway does not know that it has to replay. */
module Recovery {
  import opened Ingestion
  import opened TelemetryBuffers
  import opened Gateways
  import opened ReplayRefinement
  import opened DeliveryOrder

  /** From this interaction on nothing fails and nothing interferes. */
  ghost predicate Calm(world: World, start: nat) {
    forall i {:trigger world(i)} :: i >= start ==> world(i).events == [] && world(i).answer && !world(i).drops
  }

  /** After the callbacks and hooks that run before the next interaction, no
      outage and no forced failure is left, and a reconnect is due if needed. */
  ghost predicate Undisturbed(g: Gateway, world: World) {
    var l := Settled(g, world);
    && Calm(world, g.cursor + 1) && l.forcedFailures <= 0 && !l.outage
    && (l.connected || world(g.cursor + 1).now >= l.nextAttempt)
  }

  lemma CalmSend(g: Gateway, world: World)
    requires Calm(world, g.cursor) && g.link.connected && g.link.forcedFailures <= 0
    ensures Observe(g, world) == g.(cursor := g.cursor + 1)
    ensures SendSucceeds(g, world) && Send(g, world) == g.(cursor := g.cursor + 1)
  {
    assert Settled(g, world) == g.link;
  }

  // --- the replay ---

  /** Which publish calls were made determines what was acknowledged. */
  lemma {:induction false} AcknowledgedSends(journal: seq<Action>)
    ensures Acknowledgements(Sends(journal)) == Acknowledgements(journal)
  {
    if journal != [] {
      var before, last := journal[..|journal| - 1], journal[|journal| - 1];
      AcknowledgedSends(before);
      if last.Live? || last.Resent? {
        AcknowledgementsAppend(Sends(before), last);
      } else {
        assert Sends(before) + [] == Sends(before);
      }
    }
  }

  /** Everything was sent and acknowledged in order; nothing else changed. */
  ghost predicate Drained(g: Gateway, after: Gateway) {
    && after.table == g.table.(rows := []) && after.link == g.link && after.minted == g.minted
    && after.cursor >= g.cursor && after.replayRequested == g.replayRequested
    && Acknowledgements(after.journal) == Acknowledgements(g.journal) + EventIdsOf(g.table.rows)
  }

  /** The oldest row was sent, acknowledged and deleted. */
  ghost predicate RowDelivered(g: Gateway, after: Gateway) {
    && g.table.rows != [] && after.table == g.table.(rows := g.table.rows[1..]) && WellFormed(after.table)
    && after.link == g.link && after.minted == g.minted && after.cursor == g.cursor + 2
    && after.replayRequested == g.replayRequested
    && Acknowledgements(after.journal) == Acknowledgements(g.journal) + [g.table.rows[0].eventId]
  }

  /** One row of the simple loop, under a calm broker. */
  lemma CalmRow(g: Gateway, world: World) returns (next: Gateway)
    requires Calm(world, g.cursor) && g.link.connected && g.link.forcedFailures <= 0
    requires WellFormed(g.table) && g.table.rows != []
    ensures ReplayOneByOne(g, world) == ReplayOneByOne(next, world) && RowDelivered(g, next)
  {
    var row, g0 := g.table.rows[0], Observe(g, world);
    CalmSend(g, world);
    CalmSend(g0, world);
    FirstRowConfirmed(g, g0, world);
    AcknowledgementsAppend(g.journal, Resent(row, true));
    AcknowledgementsAppend(g.journal + [Resent(row, true)], Deleted([row]));
    next := DeleteConfirmed(Resend(g0, world, row), [row]);
  }

  lemma FirstEventId(rows: seq<Row>, acked: seq<nat>)
    requires rows != []
    ensures acked + [rows[0].eventId] + EventIdsOf(rows[1..]) == acked + EventIdsOf(rows)
  {
    assert [rows[0].eventId] + EventIdsOf(rows[1..]) == EventIdsOf(rows);
  }

  lemma DrainedAfterOne(g: Gateway, next: Gateway, after: Gateway)
    requires RowDelivered(g, next) && Drained(next, after)
    ensures Drained(g, after)
  {
    FirstEventId(g.table.rows, Acknowledgements(g.journal));
  }

  lemma {:induction false} CalmLoopDrains(g: Gateway, world: World)
    requires Calm(world, g.cursor) && g.link.connected && g.link.forcedFailures <= 0 && WellFormed(g.table)
    ensures var (after, drained) := ReplayOneByOne(g, world); drained && Drained(g, after)
    decreases |g.table.rows|
  {
    if g.table.rows == [] {
      assert Acknowledgements(g.journal) + EventIdsOf([]) == Acknowledgements(g.journal);
    } else {
      var next := CalmRow(g, world);
      CalmLoopDrains(next, world);
      DrainedAfterOne(g, next, ReplayOneByOne(g, world).0);
    }
  }

  lemma CalmReplayDrains(g: Gateway, world: World)
    requires Calm(world, g.cursor) && g.link.connected && g.link.forcedFailures <= 0 && WellFormed(g.table)
    ensures var (after, drained) := Replay(g, world, REPLAY_BATCH_SIZE); drained && Drained(g, after)
  {
    ReplayRefinesSimpleLoop(g, world, REPLAY_BATCH_SIZE);
    CalmLoopDrains(g, world);
    var a, b := Replay(g, world, REPLAY_BATCH_SIZE).0, ReplayOneByOne(g, world).0;
    AcknowledgedSends(a.journal);
    AcknowledgedSends(b.journal);
    SameButJournal(a, b);
  }

  lemma SameButJournal(a: Gateway, b: Gateway)
    requires a.(journal := []) == b.(journal := [])
    ensures a == b.(journal := a.journal)
  {
    assert a == a.(journal := []).(journal := a.journal);
  }

  // --- one iteration ---

  lemma CalmReconnect(g: Gateway, world: World)
    requires Undisturbed(g, world)
    ensures var l, after := Settled(g, world), ReconnectPhase(g, world);
            && after.link.connected && after.link.forcedFailures <= 0 && !after.link.outage
            && after.table == g.table && after.minted == g.minted && after.cursor > g.cursor
            && after.replayRequested == (g.replayRequested || !l.connected)
            && Acknowledgements(after.journal) == Acknowledgements(g.journal)
  {
    var g0 := Observe(g, world);
    assert Settled(g0, world) == g0.link;
    AcknowledgementsAppend(g.journal, Reconnection(true));
  }

  /** The backlog an iteration delivers before it looks at the bus. */
  function Delivery(g: Gateway, world: World): seq<nat> {
    if Stranded(Observe(g, world)) then [] else EventIdsOf(g.table.rows)
  }

  lemma CalmUntilReceive(g: Gateway, world: World)
    requires Undisturbed(g, world) && WellFormed(g.table)
    ensures var after := ReplayPhase(ReconnectPhase(g, world), world);
            && after.link.connected && after.link.forcedFailures <= 0 && !after.link.outage
            && after.minted == g.minted && after.cursor > g.cursor && !after.replayRequested
            && after.table == g.table.(rows := if Stranded(Observe(g, world)) then g.table.rows else [])
            && Acknowledgements(after.journal) == Acknowledgements(g.journal) + Delivery(g, world)
  {
    var g1 := ReconnectPhase(g, world);
    CalmReconnect(g, world);
    if g1.replayRequested {
      CalmSend(g1, world);
      CalmReplayDrains(Observe(g1, world), world);
    } else {
      assert Acknowledgements(g.journal) + [] == Acknowledgements(g.journal);
      assert g.table.rows == [] ==> EventIdsOf(g.table.rows) == [];
    }
  }

  lemma CalmLive(g: Gateway, world: World) returns (live: seq<nat>)
    requires Calm(world, g.cursor) && g.link.connected && g.link.forcedFailures <= 0
    ensures var after := LivePhase(g, world);
            && after.link == g.link && after.table == g.table && after.replayRequested == g.replayRequested
            && after.cursor > g.cursor && (live == [] || live == [g.minted])
            && (world(g.cursor).frame.None? ==> live == [])
            && Acknowledgements(after.journal) == Acknowledgements(g.journal) + live
  {
    var arrival := Arrived(g, world);
    var g0 := Admit(g, world, arrival);
    CalmSend(g, world);
    AdmitKeeps(g, world, arrival);
    if arrival.None? || !arrival.value.Accepted? {
      live := [];
    } else {
      var event := arrival.value.event;
      ReceiveKeepsContext(world(g.cursor).frame.value,
                          Context(g.minted, g.sessionId, g.vehicleId, world(g.cursor).now));
      CalmSend(g0, world);
      AcknowledgementsAppend(g0.journal, Live(event, true));
      live := [event.eventId];
    }
  }

  /** The link is up, no replay is due, and the table is empty unless the
      backlog was stranded, in which case it is unchanged. */
  ghost predicate Recovered(g: Gateway, world: World, after: Gateway) {
    && after.link.connected && !after.replayRequested && Undisturbed(after, world)
    && after.table == g.table.(rows := if Stranded(Observe(g, world)) then g.table.rows else [])
    && after.cursor > g.cursor
  }

  /** One iteration under a calm broker reconnects if it has to, delivers the
      backlog in order and then at most the event that arrives; only a
      stranded backlog stays where it is. */
  lemma CalmIteration(g: Gateway, world: World) returns (live: seq<nat>)
    requires Undisturbed(g, world) && WellFormed(g.table)
    ensures Recovered(g, world, RunOnce(g, world)) && (live == [] || live == [g.minted])
    ensures (forall i :: i >= g.cursor ==> world(i).frame.None?) ==> live == []
    ensures Acknowledgements(RunOnce(g, world).journal) ==
            Acknowledgements(g.journal) + Delivery(g, world) + live
  {
    var g2, after := ReplayPhase(ReconnectPhase(g, world), world), RunOnce(g, world);
    CalmUntilReceive(g, world);
    live := CalmLive(g2, world);
    assert Settled(after, world) == after.link;
  }

  lemma StaysRecovered(g: Gateway, world: World, before: Gateway, after: Gateway)
    requires Recovered(g, world, before) && Recovered(before, world, after) && Calm(world, before.cursor)
    ensures Recovered(g, world, after)
  {
    assert Settled(before, world) == before.link;
  }

  lemma {:induction false} CalmRun(g: Gateway, world: World, n: nat)
    requires Undisturbed(g, world) && WellFormed(g.table) && n >= 1
    ensures Recovered(g, world, Iterate(g, world, n))
  {
    var before := Iterate(g, world, n - 1);
    if n == 1 {
      var _ := CalmIteration(g, world);
    } else {
      CalmRun(g, world, n - 1);
      var _ := CalmIteration(before, world);
      StaysRecovered(g, world, before, RunOnce(before, world));
    }
  }

  /** Once a broker stays calm, the buffer is empty after one iteration and
      after any later one, if and only if the backlog was not stranded; a
      stranded one is never touched, however long the calm lasts. */
  lemma RecoversIffNotStranded(g: Gateway, world: World, n: nat)
    requires Undisturbed(g, world) && WellFormed(g.table) && n >= 1
    ensures Iterate(g, world, n).table.rows == [] <==> !Stranded(Observe(g, world))
    ensures Stranded(Observe(g, world)) ==> Iterate(g, world, n).table == g.table && Stranded(Iterate(g, world, n))
  {
    CalmRun(g, world, n);
  }
}
