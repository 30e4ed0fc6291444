/** When the order of acknowledgements is lost: which states keep it in every
    world, and the two ways in which an unanswered publish breaks it. */
module OrderLimits {
  import opened Telemetry
  import opened Ingestion
  import opened TelemetryBuffers
  import opened MqttPublishers
  import opened Gateways
  import opened DeliveryOrder
  import opened Recovery

  // --- an iteration up to the receive call ---

  lemma EmptyIsNotOvertaken(g: Gateway, world: World)
    requires g.table.rows == []
    ensures !Overtakes(g, world)
  {
  }

  /** The re-send of the oldest row is not answered in time, on a link that stays up. */
  lemma ReplayTimesOut(g: Gateway, world: World)
    requires g.link.connected && g.link.forcedFailures <= 0 && g.table.rows != []
    requires world(g.cursor).events == [] && world(g.cursor + 1).events == []
    requires !world(g.cursor + 1).answer && !world(g.cursor + 1).drops
    ensures Replay(g, world, REPLAY_BATCH_SIZE) ==
            (g.(cursor := g.cursor + 2, journal := g.journal + [Resent(g.table.rows[0], false)]), false)
  {
    var batch, g0 := Oldest(g.table.rows, REPLAY_BATCH_SIZE), Observe(g, world);
    assert batch != [] && batch[0] == g.table.rows[0];
    assert Settled(g, world) == g.link && Settled(g0, world) == g.link;
    assert ReplayBatch(g, world, [], batch) == (Resend(g0, world, batch[0]), []);
  }

  /** A replay is due and times out on its first row: `run_once` goes on, and
      the live event overtakes the backlog although the gateway was not stranded. */
  lemma FailedReplayIsOvertaken(g: Gateway, world: World)
    requires g.link.connected && g.link.forcedFailures <= 0 && g.replayRequested && g.table.rows != []
    requires forall i :: g.cursor <= i < g.cursor + 6 ==> world(i).events == []
    requires !world(g.cursor + 3).answer && !world(g.cursor + 3).drops
    requires world(g.cursor + 4).frame == Some(QUIET_FRAME) && world(g.cursor + 5).answer
    ensures !Stranded(g) && Overtakes(g, world)
    ensures var g0 := ReplayPhase(ReconnectPhase(g, world), world);
            g0 == g.(cursor := g.cursor + 4, journal := g.journal + [Resent(g.table.rows[0], false)])
  {
    assert Settled(g, world) == g.link;
    var g1 := Observe(g, world);
    assert ReconnectPhase(g, world) == g1 && Settled(g1, world) == g.link;
    ReplayTimesOut(Observe(g1, world), world);
  }

  /** The hooks are cleared at the start; one interaction stays unanswered, the
      connection drops during another one, after its answer if it gets one;
      everything else succeeds, reconnects are due and there is always a frame. */
  function StagedWorld(start: nat, unanswered: int, dropping: nat, due: real): World {
    (i: nat) => Moment(if i == start then [ClearInjectedFailures, ClearConnectionOutage] else [],
                       i != unanswered, i == dropping, due, Some(QUIET_FRAME))
  }

  /** What StagedWorld looks like from the start on. */
  ghost predicate Staged(world: World, start: nat, unanswered: int, dropping: nat, due: real) {
    forall i {:trigger world(i)} :: i >= start ==>
      && world(i).events == (if i == start then [ClearInjectedFailures, ClearConnectionOutage] else [])
      && world(i).answer == (i != unanswered) && world(i).drops == (i == dropping)
      && world(i).now == due && world(i).frame == Some(QUIET_FRAME)
  }

  lemma HooksAreCleared(g: Gateway, world: World)
    requires world(g.cursor).events == [ClearInjectedFailures, ClearConnectionOutage]
    ensures Settled(g, world) == g.link.(forcedFailures := 0, outage := false)
  {
    var ops := world(g.cursor).events;
    var l := Step(g.link, ops[0]);
    assert ops[1..] == [ClearConnectionOutage] && ops[1..][1..] == [];
    assert Steps(g.link, ops) == Steps(l, ops[1..]) == Steps(Step(l, ops[1]), []) == Step(l, ops[1]);
  }

  /** No hook is active, and the link is up or comes up at the next attempt. */
  ghost predicate Usable(l: Link, due: real) {
    l.forcedFailures <= 0 && !l.outage && l.nextAttempt <= due
  }

  /** g0 waits for a frame on an open link, with the backlog of g. */
  ghost predicate StillBacklogged(g: Gateway, g0: Gateway, due: real) {
    && g0.table == g.table && g0.minted == g.minted && g0.maxSize == g.maxSize
    && g0.link.connected && Usable(g0.link, due)
  }

  /** The interaction in which a replay would send its first row. */
  function FirstResend(g: Gateway): int {
    if !g.link.connected then g.cursor + 4 else if g.replayRequested then g.cursor + 3 else -1
  }

  /** The interaction in which the live event is published if that re-send fails. */
  function LivePublish(g: Gateway): nat {
    g.cursor + (if !g.link.connected then 6 else if g.replayRequested then 5 else 2)
  }

  /** A clock reading at which a reconnect is due, before and after a success. */
  function Due(g: Gateway): real {
    if g.link.nextAttempt >= 0.0 then g.link.nextAttempt else 0.0
  }

  /** The first re-send is not answered, the live event is, then the connection drops. */
  function LateWorld(g: Gateway): World {
    StagedWorld(g.cursor, FirstResend(g), LivePublish(g), Due(g))
  }

  lemma StagedReconnect(g: Gateway, world: World, unanswered: int, dropping: nat)
    requires Staged(world, g.cursor, unanswered, dropping, Due(g)) && unanswered != g.cursor + 1
    ensures var after := ReconnectPhase(g, world);
            && StillBacklogged(g, after, Due(g)) && after.cursor == g.cursor + (if g.link.connected then 1 else 2)
            && after.replayRequested == (g.replayRequested || !g.link.connected)
  {
    HooksAreCleared(g, world);
    var g0 := Observe(g, world);
    assert Settled(g0, world) == g0.link;
  }

  /** If the first re-send is not answered, the backlog is still there when
      the frame is awaited. */
  lemma BacklogWaits(g: Gateway, world: World) returns (g0: Gateway)
    requires Staged(world, g.cursor, FirstResend(g), LivePublish(g), Due(g)) && g.table.rows != []
    ensures g0 == ReplayPhase(ReconnectPhase(g, world), world)
    ensures StillBacklogged(g, g0, Due(g)) && g0.cursor + 1 == LivePublish(g)
  {
    StagedReconnect(g, world, FirstResend(g), LivePublish(g));
    var g1 := ReconnectPhase(g, world);
    assert Settled(g1, world) == g1.link;
    if g1.replayRequested {
      ReplayTimesOut(Observe(g1, world), world);
    }
    g0 := ReplayPhase(g1, world);
  }

  /** With an empty table nothing is left to replay. */
  lemma NothingWaits(g: Gateway, world: World, unanswered: nat) returns (g0: Gateway)
    requires Staged(world, g.cursor, unanswered, unanswered + 3, Due(g)) && g.table.rows == []
    requires unanswered == g.cursor + (if !g.link.connected then 4 else if g.replayRequested then 3 else 2)
    ensures g0 == ReplayPhase(ReconnectPhase(g, world), world)
    ensures StillBacklogged(g, g0, Due(g)) && g0.cursor + 1 == unanswered && !g0.replayRequested
  {
    StagedReconnect(g, world, unanswered, unanswered + 3);
    var g1 := ReconnectPhase(g, world);
    assert Settled(g1, world) == g1.link;
    assert Replay(Observe(g1, world), world, REPLAY_BATCH_SIZE) == (Observe(g1, world), true);
    g0 := ReplayPhase(g1, world);
  }

  /** Nothing happens to a stranded backlog before the receive call. */
  lemma StrandedWaits(g: Gateway, world: World)
    requires Stranded(g) && Settled(g, world).connected
    ensures ReplayPhase(ReconnectPhase(g, world), world) == Observe(g, world)
  {
  }

  // --- the live half of an iteration ---

  lemma OpenSend(g: Gateway, world: World)
    requires g.link.connected && g.link.forcedFailures <= 0 && world(g.cursor).events == []
    ensures SendSucceeds(g, world) == world(g.cursor).answer
    ensures Send(g, world) ==
            g.(link := if world(g.cursor).drops then Dropped(g.link) else g.link, cursor := g.cursor + 1)
  {
    assert Settled(g, world) == g.link;
  }

  /** A live publish on an open link, answered or not; the link may drop after it. */
  lemma OpenPublish(g: Gateway, world: World, event: Event)
    requires g.link.connected && g.link.forcedFailures <= 0 && world(g.cursor).events == []
    ensures var m, after := world(g.cursor), PublishLive(g, world, event);
            && after == Send(g, world).(journal := after.journal, metrics := after.metrics)
            && Acknowledgements(after.journal) ==
               Acknowledgements(g.journal) + (if m.answer then [event.eventId] else [])
  {
    OpenSend(g, world);
    AcknowledgementsAppend(g.journal, Live(event, world(g.cursor).answer));
  }

  lemma StoreAcknowledgesNothing(g: Gateway, event: Event)
    ensures Acknowledgements(Store(g, event).journal) == Acknowledgements(g.journal)
  {
    var row := NewRow(g.table, event);
    AcknowledgementsAppend(g.journal, Stored(row, Trimmed(g.table, g.maxSize, row)));
  }

  lemma FrameIsAdmitted(g: Gateway, world: World) returns (event: Event)
    requires world(g.cursor).events == [] && world(g.cursor).frame == Some(QUIET_FRAME)
    ensures Arrived(g, world) == Some(Accepted(event)) && event.eventId == g.minted
    ensures Admit(g, world, Arrived(g, world)) ==
            g.(cursor := g.cursor + 1, received := g.received + 1, minted := g.minted + 1)
  {
    ReceiveKeepsContext(QUIET_FRAME, Context(g.minted, g.sessionId, g.vehicleId, world(g.cursor).now));
    assert Settled(g, world) == g.link;
    event := Arrived(g, world).value.event;
  }

  /** The live phase published this event, and stored it if it was not answered. */
  ghost predicate Published(g: Gateway, after: Gateway, event: Event, m: Moment) {
    && after.link == (if m.drops then Dropped(g.link) else g.link) && after.cursor == g.cursor + 2
    && after.replayRequested == g.replayRequested && after.maxSize == g.maxSize && after.minted == g.minted + 1
    && after.table == (if m.answer then g.table else WithEvent(g.table, g.maxSize, event))
    && Acknowledgements(after.journal) ==
       Acknowledgements(g.journal) + (if m.answer then [g.minted] else [])
  }

  /** The frame's publish is answered or not; the connection may drop after it. */
  lemma FrameIsPublished(g: Gateway, world: World) returns (event: Event)
    requires g.link.connected && g.link.forcedFailures <= 0
    requires world(g.cursor).events == [] && world(g.cursor + 1).events == []
    requires world(g.cursor).frame == Some(QUIET_FRAME)
    ensures Arrived(g, world) == Some(Accepted(event)) && event.eventId == g.minted
    ensures SendSucceeds(Admit(g, world, Arrived(g, world)), world) == world(g.cursor + 1).answer
    ensures Published(g, LivePhase(g, world), event, world(g.cursor + 1))
  {
    event := FrameIsAdmitted(g, world);
    var g1 := Admit(g, world, Arrived(g, world));
    OpenSend(g1, world);
    OpenPublish(g1, world, event);
    StoreAcknowledgesNothing(PublishLive(g1, world, event), event);
  }

  // --- exactly when overtaking is possible, over all worlds ---

  lemma BacklogIsOvertaken(g: Gateway)
    requires g.table.rows != []
    ensures Overtakes(g, LateWorld(g))
  {
    var g0 := BacklogWaits(g, LateWorld(g));
    var _ := FrameIsPublished(g0, LateWorld(g));
  }

  /** With no hypothesis on the world or the gateway: some world lets live
      traffic overtake in the next iteration exactly when rows are buffered. */
  lemma OvertakingIsPossibleIffBuffered(g: Gateway)
    ensures (exists world :: Overtakes(g, world)) <==> g.table.rows != []
  {
    if g.table.rows != [] {
      BacklogIsOvertaken(g);
    } else {
      forall world ensures !Overtakes(g, world) {
        EmptyIsNotOvertaken(g, world);
      }
    }
  }

  // --- what overtaking does to the order ---

  /** A backlog that is overtaken in one iteration and delivered in the next. */
  lemma DeliveredAfterwards(g: Gateway, g0: Gateway, world: World, due: real) returns (live: seq<nat>)
    requires g0 == ReplayPhase(ReconnectPhase(g, world), world) && StillBacklogged(g, g0, due) && WellFormed(g.table)
    requires world(g0.cursor).events == [] && world(g0.cursor + 1).events == []
    requires world(g0.cursor).frame == Some(QUIET_FRAME) && world(g0.cursor + 1).answer
    requires var after := LivePhase(g0, world); Undisturbed(after, world) && !Stranded(Observe(after, world))
    ensures Acknowledgements(Iterate(g, world, 2).journal) ==
            Acknowledgements(g0.journal) + [g.minted] + EventIdsOf(g.table.rows) + live
    ensures (forall i :: i >= g0.cursor + 2 ==> world(i).frame.None?) ==> live == []
  {
    var after := LivePhase(g0, world);
    var _ := FrameIsPublished(g0, world);
    live := CalmIteration(after, world);
    IterateTwice(g, world);
  }

  lemma IterateTwice(g: Gateway, world: World)
    ensures Iterate(g, world, 1) == RunOnce(g, world)
    ensures Iterate(g, world, 2) == RunOnce(RunOnce(g, world), world)
  {
    assert Iterate(g, world, 0) == g;
  }

  lemma OlderAfterNewer(before: seq<nat>, x: nat, rows: seq<Row>, after: seq<nat>)
    requires rows != [] && RowsInOrder(rows, x)
    ensures !Ascending(before + [x] + EventIdsOf(rows) + after)
  {
    var all := before + [x] + EventIdsOf(rows) + after;
    assert all[|before|] == x && all[|before| + 1] == rows[0].eventId;
  }

  /** At g0 a frame arrives, its publish is answered and the connection drops. */
  ghost predicate AnsweredThenDropped(world: World, start: nat) {
    && world(start).events == [] && world(start + 1).events == [] && world(start).frame == Some(QUIET_FRAME)
    && world(start + 1).answer && world(start + 1).drops
  }

  lemma DropIsCalm(g: Gateway, world: World, due: real)
    requires g.link.connected && Usable(g.link, due) && AnsweredThenDropped(world, g.cursor)
    requires Calm(world, g.cursor + 2) && world(g.cursor + 3).now == due
    ensures var after := LivePhase(g, world); Undisturbed(after, world) && !Stranded(Observe(after, world))
  {
    var _ := FrameIsPublished(g, world);
    var after := LivePhase(g, world);
    assert Settled(after, world) == after.link == Dropped(g.link);
  }

  /** The broker answers the publish of a live event, the connection drops,
      and the calm that follows delivers the older backlog. */
  lemma OvertakenLosesOrder(g: Gateway, g0: Gateway, world: World, due: real)
    requires g0 == ReplayPhase(ReconnectPhase(g, world), world) && StillBacklogged(g, g0, due)
    requires WellFormed(g.table) && g.table.rows != [] && RowsInOrder(g.table.rows, g.minted)
    requires AnsweredThenDropped(world, g0.cursor)
    requires Calm(world, g0.cursor + 2) && world(g0.cursor + 3).now == due
    ensures !Ascending(Acknowledgements(Iterate(g, world, 2).journal))
  {
    DropIsCalm(g0, world, due);
    var live := DeliveredAfterwards(g, g0, world, due);
    OlderAfterNewer(Acknowledgements(g0.journal), g.minted, g.table.rows, live);
  }

  // --- exactly which states keep the order ---

  /** A stranded backlog, in one iteration that is answered before the
      connection drops and one calm one. */
  lemma StrandedIsOvertakenFirst(g: Gateway, world: World, due: real)
    requires Stranded(g) && Settled(g, world).connected && Usable(Settled(g, world), due)
    requires WellFormed(g.table) && RowsInOrder(g.table.rows, g.minted)
    requires AnsweredThenDropped(world, g.cursor + 1) && Calm(world, g.cursor + 3) && world(g.cursor + 4).now == due
    ensures !Ascending(Acknowledgements(Iterate(g, world, 2).journal))
  {
    StrandedWaits(g, world);
    OvertakenLosesOrder(g, Observe(g, world), world, due);
  }

  lemma StrandedLosesOrder(g: Gateway) returns (world: World)
    requires g.link.forcedFailures <= 0 && Ordered(g, Top) && Stranded(g)
    ensures FailuresDisconnect(world) && !Ascending(Acknowledgements(Iterate(g, world, 2).journal))
  {
    world := LateWorld(g);
    HooksAreCleared(g, world);
    StrandedIsOvertakenFirst(g, world, Due(g));
  }

  /** From any state of any run: as long as failed publishes disconnect, the
      order of acknowledgements is kept for ever, in every world, exactly if
      the backlog is not stranded now. */
  lemma OrderKeptIffNotStranded(g: Gateway)
    requires g.link.forcedFailures <= 0 && Ordered(g, Top)
    ensures (forall world: World, n: nat :: FailuresDisconnect(world) ==>
               Ascending(Acknowledgements(Iterate(g, world, n).journal))) <==> !Stranded(g)
  {
    if Stranded(g) {
      var world := StrandedLosesOrder(g);
      assert !Ascending(Acknowledgements(Iterate(g, world, 2).journal));
    } else {
      forall world: World, n: nat | FailuresDisconnect(world)
        ensures Ascending(Acknowledgements(Iterate(g, world, n).journal)) {
        InOrderAlways(world, g, n);
      }
    }
  }

  /** An event whose publish is not answered, on an open link. */
  ghost predicate UnansweredFrame(world: World, start: nat) {
    && world(start).events == [] && world(start + 1).events == [] && world(start).frame == Some(QUIET_FRAME)
    && !world(start + 1).answer && !world(start + 1).drops
  }

  /** It becomes the only row, and it is stranded. */
  lemma FirstRowIsStranded(g: Gateway, world: World)
    requires g.link.connected && g.link.forcedFailures <= 0 && !g.replayRequested && UnansweredFrame(world, g.cursor)
    requires WellFormed(g.table) && g.table.rows == [] && g.maxSize > 0
    ensures var after := LivePhase(g, world);
            && after.link == g.link && after.minted == g.minted + 1 && after.cursor == g.cursor + 2
            && Acknowledgements(after.journal) == Acknowledgements(g.journal) && Stranded(after)
            && WellFormed(after.table) && |after.table.rows| == 1 && after.table.rows[0].eventId == g.minted
  {
    var event := FrameIsPublished(g, world);
    WithEventRows(g.table, g.maxSize, event);
  }

  lemma BacklogLosesOrder(g: Gateway)
    requires Ordered(g, Top) && g.table.rows != []
    ensures !Ascending(Acknowledgements(Iterate(g, LateWorld(g), 2).journal))
  {
    var g0 := BacklogWaits(g, LateWorld(g));
    OvertakenLosesOrder(g, g0, LateWorld(g), Due(g));
  }

  /** The first event is not answered; the second one is, and then the connection drops. */
  lemma EmptyTableLosesOrder(g: Gateway) returns (world: World)
    requires Ordered(g, Top) && g.table.rows == [] && g.maxSize > 0
    ensures !Ascending(Acknowledgements(Iterate(g, world, 3).journal))
  {
    var unanswered := g.cursor + (if !g.link.connected then 4 else if g.replayRequested then 3 else 2);
    world := StagedWorld(g.cursor, unanswered, unanswered + 3, Due(g));
    var g0 := NothingWaits(g, world, unanswered);
    FirstRowIsStranded(g0, world);
    var g1 := LivePhase(g0, world);
    assert Settled(g1, world) == g1.link;
    StrandedIsOvertakenFirst(g1, world, Due(g));
    IterateAfter(g, world, 2);
  }

  lemma {:induction false} IterateAfter(g: Gateway, world: World, n: nat)
    ensures Iterate(g, world, n + 1) == Iterate(RunOnce(g, world), world, n)
  {
    if n == 0 {
      IterateTwice(g, world);
    } else {
      IterateAfter(g, world, n - 1);
    }
  }

  /** Nothing is buffered and nothing ever can be. */
  ghost predicate KeepsNothing(m: Machine) {
    m.g.table.rows == [] && m.g.maxSize <= 0 && Ordered(m.g, m.pc)
  }

  lemma KeepsNothingStep(m: Machine, world: World)
    requires KeepsNothing(m)
    ensures KeepsNothing(Micro(m, world))
  {
    OrderedStep(m, world);
    assert m.pc.Peeking? ==> Oldest(m.g.table.rows, REPLAY_BATCH_SIZE) == [];
  }

  /** With no hypothesis on the world: the order is kept for ever, in every
      world, exactly if nothing is buffered and the buffer can hold nothing. */
  lemma OrderKeptInEveryWorldIff(g: Gateway)
    requires Ordered(g, Top)
    ensures (forall world: World, n: nat :: Ascending(Acknowledgements(Iterate(g, world, n).journal)))
            <==> g.table.rows == [] && g.maxSize <= 0
  {
    if g.table.rows != [] {
      BacklogLosesOrder(g);
    } else if g.maxSize > 0 {
      var world := EmptyTableLosesOrder(g);
      assert !Ascending(Acknowledgements(Iterate(g, world, 3).journal));
    } else {
      var inv := m => KeepsNothing(m);
      forall world: World, n: nat ensures Ascending(Acknowledgements(Iterate(g, world, n).journal)) {
        forall m {:trigger Micro(m, world)} | inv(m) ensures inv(Micro(m, world)) {
          KeepsNothingStep(m, world);
        }
        IterateKeeps(inv, world, g, n);
      }
    }
  }

  // --- two concrete runs ---

  /** Two frames arrive. The broker never answers the first publish but the
      connection stays up; it answers the second one; then the connection drops
      and comes back. */
  const TIMEOUT_WORLD: World := i =>
    Moment(if i == 6 then [Disconnected] else [], i != 2, false, 0.0, if i < 6 then Some(QUIET_FRAME) else None)

  const NEW_GATEWAY := Started(EMPTY_TABLE, 5000, Step(FRESH, Connect(true)), "s", "v", 0)

  ghost predicate TimesOut(w: World) {
    forall i {:trigger w(i)} ::
      && w(i).events == (if i == 6 then [Disconnected] else [])
      && w(i).answer == (i != 2) && !w(i).drops && w(i).now == 0.0
      && w(i).frame == (if i < 6 then Some(QUIET_FRAME) else None)
  }

  /** A new gateway process on an empty file. */
  ghost predicate JustConnected(g: Gateway) {
    && g.link == Step(FRESH, Connect(true)) && !g.replayRequested && g.cursor == 0 && g.minted == 0
    && g.table == EMPTY_TABLE && g.maxSize > 0 && g.journal == []
  }

  /** Stranded by the first event. */
  ghost predicate TimedOutOnce(g: Gateway) {
    && g.link == Step(FRESH, Connect(true)) && g.cursor == 3 && g.minted == 1 && Stranded(g)
    && WellFormed(g.table) && EventIdsOf(g.table.rows) == [0] && Acknowledgements(g.journal) == []
  }

  lemma FirstTimeout(g: Gateway, w: World)
    requires TimesOut(w) && JustConnected(g)
    ensures TimedOutOnce(RunOnce(g, w))
  {
    assert Settled(g, w) == g.link;
    FirstRowIsStranded(Observe(g, w), w);
    assert Acknowledgements([]) == [];
  }

  lemma SecondPublish(g: Gateway, w: World)
    requires TimesOut(w) && TimedOutOnce(g)
    ensures Acknowledgements(Iterate(g, w, 2).journal) == [1, 0]
  {
    assert Settled(g, w) == g.link;
    var g0 := Observe(g, w);
    StrandedWaits(g, w);
    var _ := FrameIsPublished(g0, w);
    DroppedLater(LivePhase(g0, w), w);
    var live := DeliveredAfterwards(g, g0, w, 0.0);
  }

  lemma DroppedLater(g: Gateway, w: World)
    requires TimesOut(w) && g.cursor == 6 && g.link == Step(FRESH, Connect(true))
    ensures Undisturbed(g, w) && !Stranded(Observe(g, w))
  {
    var ops := w(6).events;
    assert Steps(g.link, ops) == Steps(Step(g.link, ops[0]), ops[1..]) == Step(g.link, Disconnected);
  }

  lemma TimeoutSetting()
    ensures FreshStart(NEW_GATEWAY) && JustConnected(Begin(NEW_GATEWAY))
    ensures TimesOut(TIMEOUT_WORLD) && !FailuresDisconnect(TIMEOUT_WORLD)
  {
    assert !TIMEOUT_WORLD(2).answer && !TIMEOUT_WORLD(2).drops;
  }

  lemma TimeoutRun(g: Gateway, w: World)
    requires TimesOut(w) && JustConnected(g)
    ensures Acknowledgements(Iterate(g, w, 3).journal) == [1, 0] && Stranded(Iterate(g, w, 1))
  {
    FirstTimeout(g, w);
    SecondPublish(RunOnce(g, w), w);
    IterateAfter(g, w, 2);
    IterateTwice(g, w);
  }

  /** A publish that times out on a link that stays up lets the next live event
      go first: the acknowledgements come out as 1, 0. */
  lemma TimeoutLosesOrder()
    ensures FreshStart(NEW_GATEWAY) && !FailuresDisconnect(TIMEOUT_WORLD)
    ensures Acknowledgements(Iterate(Begin(NEW_GATEWAY), TIMEOUT_WORLD, 3).journal) == [1, 0]
    ensures Stranded(Iterate(Begin(NEW_GATEWAY), TIMEOUT_WORLD, 1))
  {
    TimeoutSetting();
    TimeoutRun(Begin(NEW_GATEWAY), TIMEOUT_WORLD);
  }

  /** A backlog is replayed at the start; its first re-send, the fourth
      interaction, is never answered, everything after it is. */
  const REPLAY_TIMEOUT_WORLD: World := i => Moment([], i != 3, false, 0.0, if i < 6 then Some(QUIET_FRAME) else None)

  ghost predicate ReplayTimesOutAtStart(w: World) {
    forall i {:trigger w(i)} ::
      && w(i).events == [] && w(i).answer == (i != 3) && !w(i).drops
      && w(i).frame == (if i < 6 then Some(QUIET_FRAME) else None)
  }

  lemma ReplayTimeoutWorld()
    ensures ReplayTimesOutAtStart(REPLAY_TIMEOUT_WORLD) && !FailuresDisconnect(REPLAY_TIMEOUT_WORLD)
  {
    assert !REPLAY_TIMEOUT_WORLD(3).answer && !REPLAY_TIMEOUT_WORLD(3).drops;
  }

  /** Restarted on an open link with rows in the file. */
  ghost predicate RestartedOnBacklog(g: Gateway) {
    && g.link.connected && g.link.forcedFailures <= 0 && !g.link.outage && g.replayRequested && g.cursor == 0
    && WellFormed(g.table) && g.table.rows != []
  }

  lemma FailedReplayRun(g: Gateway, w: World)
    requires ReplayTimesOutAtStart(w) && RestartedOnBacklog(g) && g.journal == []
    ensures Acknowledgements(Iterate(g, w, 2).journal) == [g.minted] + EventIdsOf(g.table.rows)
  {
    FailedReplayIsOvertaken(g, w);
    var g0 := ReplayPhase(ReconnectPhase(g, w), w);
    var _ := FrameIsPublished(g0, w);
    var after := LivePhase(g0, w);
    assert Settled(after, w) == after.link;
    var live := DeliveredAfterwards(g, g0, w, g.link.nextAttempt);
    AcknowledgementsAppend([], Resent(g.table.rows[0], false));
    assert [] + [Resent(g.table.rows[0], false)] == [Resent(g.table.rows[0], false)];
  }

  /** A re-send that times out on a link that stays up lets the live event go
      first as well: a newer id is acknowledged before the older backlog. */
  lemma FailedReplayLosesOrder(g: Gateway)
    requires FreshStart(g) && RestartedOnBacklog(Begin(g))
    ensures !FailuresDisconnect(REPLAY_TIMEOUT_WORLD)
    ensures Acknowledgements(Iterate(Begin(g), REPLAY_TIMEOUT_WORLD, 2).journal) == [g.minted] +
            EventIdsOf(g.table.rows)
    ensures forall i :: 0 <= i < |g.table.rows| ==> g.minted > g.table.rows[i].eventId
    ensures !Stranded(Begin(g)) && Overtakes(Begin(g), REPLAY_TIMEOUT_WORLD)
  {
    ReplayTimeoutWorld();
    FailedReplayIsOvertaken(Begin(g), REPLAY_TIMEOUT_WORLD);
    FailedReplayRun(Begin(g), REPLAY_TIMEOUT_WORLD);
  }
}
