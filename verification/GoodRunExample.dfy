/** A run that meets every hypothesis of the self-check theorem. */
module GoodRunExample {
  import opened Telemetry
  import opened TelemetryBuffers
  import opened MqttPublishers
  import opened Gateways
  import opened ReplayRefinement
  import opened DeliveryOrder
  import opened OrderLimits
  import opened ResilienceDemo
  import opened GoodRun
  import opened SelfCheck

  /** A frame is always waiting; the connection breaks in the third
      interaction, the first publish, and nothing else goes wrong. */
  const OUTAGE_WORLD: World := i => Moment([], i != 2, i == 2, 0.0, Some(QUIET_FRAME))

  ghost predicate BreaksOnce(w: World) {
    forall i {:trigger w(i)} ::
      && w(i).events == [] && w(i).answer == (i != 2) && w(i).drops == (i == 2)
      && w(i).now == 0.0 && w(i).frame == Some(QUIET_FRAME)
  }

  /** What a gateway looks like between its two iterations. */
  ghost predicate Interrupted(g: Gateway, e: Event, row: Row) {
    && g.link == Dropped(Step(FRESH, Connect(true))) && !g.replayRequested && g.cursor == 3 && g.minted == 1
    && WellFormed(g.table) && g.table.rows == [row] && row.payload == e && row.eventId == e.eventId == 0
    && g.dropped == 0 && g.metrics.rejected == 0
    && g.journal == [Live(e, false), Stored(row, [])]
  }

  /** A gateway before its first iteration on an empty file and an open link. */
  ghost predicate JustStarted(g: Gateway) {
    && g.link == Step(FRESH, Connect(true)) && !g.replayRequested && g.cursor == 0 && g.minted == 0
    && g.table == EMPTY_TABLE && g.maxSize > 0 && g.dropped == 0 && g.metrics.rejected == 0 && g.journal == []
  }

  lemma FirstStored(t: Table, maxSize: int, e: Event)
    requires t == EMPTY_TABLE && maxSize > 0
    ensures WellFormed(WithEvent(t, maxSize, e)) && WithEvent(t, maxSize, e).rows == [NewRow(t, e)]
    ensures Trimmed(t, maxSize, NewRow(t, e)) == [] && Overflow(|t.rows| + 1, maxSize) == 0
  {
    WithEventRows(t, maxSize, e);
  }

  /** The publish is not answered, and the connection breaks. */
  lemma FirstPublish(g: Gateway, w: World, e: Event)
    requires BreaksOnce(w) && g.link == Step(FRESH, Connect(true)) && g.cursor == 2 && g.journal == []
    ensures !SendSucceeds(g, w)
    ensures var after := PublishLive(g, w, e);
            && after == g.(link := Dropped(g.link), cursor := 3, journal := [Live(e, false)], metrics := after.metrics)
            && after.metrics.rejected == g.metrics.rejected
  {
    assert Settled(g, w) == g.link;
  }

  lemma FirstStore(g: Gateway, e: Event)
    requires g.table == EMPTY_TABLE && g.maxSize > 0 && g.journal == [Live(e, false)]
    ensures var row, after := NewRow(g.table, e), Store(g, e);
            && after == g.(table := after.table, metrics := after.metrics,
                           journal := [Live(e, false), Stored(row, [])])
            && WellFormed(after.table) && after.table.rows == [row] && after.metrics.rejected == g.metrics.rejected
  {
    FirstStored(g.table, g.maxSize, e);
    assert [Live(e, false)] + [Stored(NewRow(g.table, e), [])] == [Live(e, false), Stored(NewRow(g.table, e), [])];
  }

  lemma FirstIteration(g: Gateway, w: World) returns (e: Event, row: Row)
    requires BreaksOnce(w) && JustStarted(g)
    ensures Interrupted(RunOnce(g, w), e, row)
  {
    assert Settled(g, w) == g.link;
    var g0 := g.(cursor := 1);
    assert ReplayPhase(ReconnectPhase(g, w), w) == g0;
    e := FrameIsAdmitted(g0, w);
    var g1 := Admit(g0, w, Arrived(g0, w));
    FirstPublish(g1, w, e);
    FirstStore(PublishLive(g1, w, e), e);
    row := NewRow(g.table, e);
  }

  lemma BatchOfOne(g: Gateway, world: World, row: Row)
    requires g.link.connected && g.link.forcedFailures <= 0
    requires forall i :: g.cursor <= i < g.cursor + 2 ==> world(i).events == [] && world(i).answer && !world(i).drops
    ensures ReplayBatch(g, world, [], [row]) == (Resend(Observe(g, world), world, row), [row])
    ensures var after := Resend(Observe(g, world), world, row);
            after == g.(cursor := g.cursor + 2, journal := g.journal + [Resent(row, true)], metrics := after.metrics)
            && after.metrics.rejected == g.metrics.rejected
  {
    var g0 := Observe(g, world);
    assert Settled(g, world) == g.link && Settled(g0, world) == g.link;
    var g1 := Resend(g0, world, row);
    assert [] + [row] == [row] && [row][1..] == [];
    assert ReplayBatch(g1, world, [row], []) == (g1, [row]);
  }

  lemma ReplayOneRow(g: Gateway, world: World)
    requires g.link.connected && g.link.forcedFailures <= 0 && |g.table.rows| == 1 && WellFormed(g.table)
    requires forall i :: g.cursor <= i < g.cursor + 2 ==> world(i).events == [] && world(i).answer && !world(i).drops
    ensures var row, after := g.table.rows[0], Replay(g, world, REPLAY_BATCH_SIZE);
            && after.1
            && after.0 == g.(cursor := g.cursor + 2, table := after.0.table, metrics := after.0.metrics,
                             journal := g.journal + [Resent(row, true)] + [Deleted([row])])
            && after.0.table.rows == [] && after.0.metrics.rejected == g.metrics.rejected
  {
    var row := g.table.rows[0];
    BatchOfOne(g, world, row);
    assert g.table.rows == [row] && Oldest(g.table.rows, REPLAY_BATCH_SIZE) == [row];
    DeleteFirst(g.table);
    ReplayOfOneBatch(g, world, [row], Resend(Observe(g, world), world, row));
  }

  /** A replay whose first batch is confirmed and empties the table. */
  lemma ReplayOfOneBatch(g: Gateway, world: World, batch: seq<Row>, g1: Gateway)
    requires batch != [] && Oldest(g.table.rows, REPLAY_BATCH_SIZE) == batch
    requires ReplayBatch(g, world, [], batch) == (g1, batch) && Removed(g.table, Ids(batch)).rows == []
    ensures Replay(g, world, REPLAY_BATCH_SIZE) == (DeleteConfirmed(g1, batch), true)
  {
    var g2 := DeleteConfirmed(g1, batch);
    assert Oldest(g2.table.rows, REPLAY_BATCH_SIZE) == [];
    assert Replay(g2, world, REPLAY_BATCH_SIZE) == (g2, true);
  }

  lemma Recovered(g: Gateway, w: World, e: Event, row: Row)
    requires BreaksOnce(w) && Interrupted(g, e, row)
    ensures var after := ReplayPhase(ReconnectPhase(g, w), w);
            && after.link.connected && after.link.forcedFailures == 0 && after.cursor == 8 && after.minted == 1
            && after.table.rows == [] && after.dropped == 0 && after.metrics.rejected == 0
            && after.journal == g.journal + [Reconnection(true)] + [Resent(row, true)] + [Deleted([row])]
  {
    assert Settled(g, w) == g.link;
    var g0 := Observe(g, w);
    assert Settled(g0, w) == g0.link;
    var g1 := ReconnectPhase(g, w);
    assert g1 == Attempt(g0, w) && g1.link.connected && g1.replayRequested;
    assert Settled(g1, w) == g1.link;
    ReplayOneRow(Observe(g1, w), w);
  }

  lemma SecondIteration(g: Gateway, w: World, e: Event, row: Row) returns (next: Event)
    requires BreaksOnce(w) && Interrupted(g, e, row)
    ensures var after := RunOnce(g, w);
            ExampleEnd(after, e, row, next)
  {
    Recovered(g, w, e, row);
    var g0 := ReplayPhase(ReconnectPhase(g, w), w);
    next := FrameIsAdmitted(g0, w);
    var g1 := Admit(g0, w, Arrived(g0, w));
    assert Settled(g1, w) == g1.link && SendSucceeds(g1, w);
  }

  ghost predicate ExampleJournal(journal: seq<Action>, e: Event, row: Row, next: Event) {
    && journal == [Live(e, false), Stored(row, []), Reconnection(true), Resent(row, true), Deleted([row]),
                   Live(next, true)]
    && row.payload == e && row.eventId == e.eventId == 0 && next.eventId == 1
  }

  lemma Enters(journal: seq<Action>, k: nat)
    requires k < |journal|
    ensures TallyOf(journal[..k + 1]) == Tallied(TallyOf(journal[..k]), journal[k])
    ensures Records(journal[..k + 1]) == Records(journal[..k]) + RecordOf(journal[k])
  {
    assert journal[..k + 1] == journal[..k] + [journal[k]];
  }

  lemma ExampleOutage(journal: seq<Action>, e: Event, row: Row, next: Event)
    requires ExampleJournal(journal, e, row, next)
    ensures TallyOf(journal[..3]) == Tally([row], [], [], [], [])
    ensures Records(journal[..3]) == [LogRecord(MsgBuffered, 0, [])] + [LogRecord(MsgReconnected, 0, [])]
  {
    assert journal[..0] == [];
    Enters(journal, 0);
    Enters(journal, 1);
    Enters(journal, 2);
  }

  lemma ExampleRecovery(journal: seq<Action>, e: Event, row: Row, next: Event)
    requires ExampleJournal(journal, e, row, next)
    ensures TallyOf(journal).acked == [e] + [next]
    ensures Records(journal) == [LogRecord(MsgBuffered, 0, [])] + [LogRecord(MsgReconnected, 0, [])]
                                + [LogRecord(MsgReplayed, 0, [0])] + [LogRecord(MsgPublished, 1, [])]
  {
    ExampleOutage(journal, e, row, next);
    Enters(journal, 3);
    Enters(journal, 4);
    Enters(journal, 5);
    assert journal[..6] == journal;
    assert EventIdsOf([row]) == [0];
    assert Records(journal[..3]) + [] == Records(journal[..3]);
  }

  lemma ExampleLog(records: seq<LogRecord>)
    requires records == [LogRecord(MsgBuffered, 0, [])] + [LogRecord(MsgReconnected, 0, [])]
                        + [LogRecord(MsgReplayed, 0, [0])] + [LogRecord(MsgPublished, 1, [])]
    ensures IsSpan(records, 0, 2) && OnePeriod(records, 0, 2) && EventIds(records[2..], MsgPublished) != []
  {
    forall i {:trigger records[..i]} | 0 < i <= 2 ensures Depth(records[..i]) > 0 {
      BufferedOnly(records[..i]);
    }
  }

  /** A log that begins with a buffered line and has no replay line yet. */
  lemma {:induction false} BufferedOnly(records: seq<LogRecord>)
    requires records != [] && records[0].message == MsgBuffered
    requires forall i :: 0 <= i < |records| ==> records[i].message != MsgReplayed
    ensures |EventIds(records, MsgBuffered)| > 0 && ReplayedEventIds(records) == []
  {
    var before := records[..|records| - 1];
    if before == [] {
      assert EventIds(before, MsgBuffered) == [] && ReplayedEventIds(before) == [];
    } else {
      BufferedOnly(before);
    }
  }

  lemma {:induction false} EmbedsItself(ids: seq<nat>)
    ensures Embeds(ids, ids)
  {
    if ids == [] {
      assert EmbedsAt([], [], []);
    } else {
      EmbedsItself(ids[1..]);
      EmbedsMatch(ids[0], ids[1..], ids[1..]);
      assert [ids[0]] + ids[1..] == ids;
    }
  }

  lemma AllReceivedIsFaithful(acked: seq<Event>)
    requires forall a, r :: a in acked && r in acked && a.eventId == r.eventId ==> a == r
    ensures Observed(acked, acked)
  {
    forall like: Event ensures Embeds(IdsOf(TopicOf(acked, like)), IdsOf(TopicOf(acked, like))) {
      EmbedsItself(IdsOf(TopicOf(acked, like)));
    }
  }

  ghost predicate ExampleEnd(after: Gateway, e: Event, row: Row, next: Event) {
    && after.table.rows == [] && after.dropped == 0 && after.metrics.rejected == 0
    && ExampleJournal(after.journal, e, row, next)
  }

  lemma TwoIterations(w: World, g: Gateway) returns (e: Event, row: Row, next: Event)
    requires BreaksOnce(w) && JustStarted(g)
    ensures ExampleEnd(Iterate(g, w, 2), e, row, next)
  {
    e, row := FirstIteration(g, w);
    next := SecondIteration(RunOnce(g, w), w, e, row);
    IterateTwice(g, w);
  }

  /** The example's end as the self-check's theorem wants it. */
  lemma ExampleIsGood(after: Gateway, e: Event, row: Row, next: Event) returns (o: Outcome)
    requires ExampleEnd(after, e, row, next)
    ensures ReportsOf(o, after) && o.recovered && Observed(TallyOf(after.journal).acked, o.received)
    ensures var records := Records(after.journal);
            && IsSpan(records, 0, 2) && OnePeriod(records, 0, 2)
            && EventIds(records[2..], MsgPublished) != []
  {
    ExampleRecovery(after.journal, e, row, next);
    ExampleLog(Records(after.journal));
    AllReceivedIsFaithful([e] + [next]);
    o := Outcome([e] + [next], true, after.sessionId, after.vehicleId, after.metrics, after.dropped,
                 |after.table.rows|);
  }

  ghost predicate PassesSelfCheck(after: Gateway, o: Outcome, first: nat, last: nat) {
    var records := Records(after.journal);
    IsSpan(records, first, last) && EverythingArrived(records, o) && Passed(Judge(records, first, last, o))
  }

  lemma NewGatewayIsEmpty()
    ensures EmptyStart(NEW_GATEWAY) && JustStarted(Begin(NEW_GATEWAY))
  {
  }

  lemma ExamplePasses(w: World, g: Gateway) returns (o: Outcome)
    requires BreaksOnce(w) && EmptyStart(g) && JustStarted(Begin(g))
    ensures FailuresDisconnect(w) && SteadyClock(w) && PassesSelfCheck(Iterate(Begin(g), w, 2), o, 0, 2)
  {
    var e, row, next := TwoIterations(w, Begin(g));
    o := ExampleIsGood(Iterate(Begin(g), w, 2), e, row, next);
    GoodRunPassesSelfCheck(w, g, 2, o, 0, 2);
  }

  /** Two iterations, one outage and one replay: every hypothesis of
      GoodRunPassesSelfCheck holds together, so its conclusion does. */
  lemma OneGoodRun() returns (o: Outcome)
    ensures FailuresDisconnect(OUTAGE_WORLD) && SteadyClock(OUTAGE_WORLD) && EmptyStart(NEW_GATEWAY)
    ensures PassesSelfCheck(Iterate(Begin(NEW_GATEWAY), OUTAGE_WORLD, 2), o, 0, 2)
  {
    NewGatewayIsEmpty();
    o := ExamplePasses(OUTAGE_WORLD, NEW_GATEWAY);
  }
}
