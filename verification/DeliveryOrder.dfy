/** In which order the broker acknowledges: never a live event while an older
    one is buffered, provided a failed publish shows as a disconnect. */
module DeliveryOrder {
  import opened Telemetry
  import opened CanSignalMap
  import opened Ingestion
  import opened TelemetryBuffers
  import opened MqttPublishers
  import opened Gateways

  /** Every failed publish is accompanied by the disconnect callback; the hook
      that fails publishes on an open connection is not used. */
  ghost predicate FailuresDisconnect(world: World) {
    forall i {:trigger world(i)} ::
      && (!world(i).answer ==> world(i).drops)
      && forall k :: 0 <= k < |world(i).events| && world(i).events[k].InjectPublishFailures? ==>
           world(i).events[k].count <= 0
  }

  lemma {:induction false} ExternalOnlyDisconnects(l: Link, ops: seq<Op>)
    requires forall k :: 0 <= k < |ops| ==> IsExternal(ops[k])
    ensures Steps(l, ops).connected ==> l.connected
    decreases |ops|
  {
    if ops != [] {
      ExternalOnlyDisconnects(Step(l, ops[0]), ops[1..]);
    }
  }

  lemma {:induction false} NoForcedFailures(l: Link, ops: seq<Op>)
    requires l.forcedFailures <= 0
    requires forall k :: 0 <= k < |ops| && ops[k].InjectPublishFailures? ==> ops[k].count <= 0
    ensures Steps(l, ops).forcedFailures <= 0
    decreases |ops|
  {
    if ops != [] {
      NoForcedFailures(Step(l, ops[0]), ops[1..]);
    }
  }

  lemma SettledLink(g: Gateway, world: World)
    requires FailuresDisconnect(world) && g.link.forcedFailures <= 0
    ensures Settled(g, world).forcedFailures <= 0
    ensures Settled(g, world).connected ==> g.link.connected
    ensures SendSucceeds(g, world) ==> g.link.connected
    ensures !SendSucceeds(g, world) ==> !Send(g, world).link.connected
    ensures Send(g, world).link.forcedFailures <= 0
  {
    var m := world(g.cursor);
    ExternalOnlyDisconnects(g.link, m.events);
    NoForcedFailures(g.link, m.events);
  }

  // --- the gate: buffered rows keep live traffic out ---

  ghost predicate GateAt(g: Gateway, pc: Pc) {
    match pc
    case Top => g.table.rows != [] ==> g.replayRequested || !g.link.connected
    case Reconnecting => !g.link.connected
    case CheckReplay => g.table.rows != [] ==> g.replayRequested || !g.link.connected
    case Peeking => true
    case Checking(_, _) => true
    case Resending(_, _, _) => true
    case Removing(_, complete) => !complete ==> !g.link.connected
    case Receiving => g.table.rows != [] ==> !g.link.connected
    case Publishing(_) => g.table.rows != [] ==> !g.link.connected
    case Storing(_) => !g.link.connected
  }

  ghost predicate Gate(m: Machine) {
    m.g.link.forcedFailures <= 0 && GateAt(m.g, m.pc)
  }

  lemma GateStep(m: Machine, world: World)
    requires FailuresDisconnect(world) && Gate(m)
    ensures Gate(Micro(m, world))
  {
    SettledLink(m.g, world);
  }

  lemma GateIsStable(world: World)
    requires FailuresDisconnect(world)
    ensures Stable(m => Gate(m), world)
  {
    forall m {:trigger Micro(m, world)} | Gate(m) ensures Gate(Micro(m, world)) {
      GateStep(m, world);
    }
  }

  // --- the order ---

  ghost predicate Ascending(s: seq<nat>) {
    forall i, j :: 0 <= i < j < |s| ==> s[i] < s[j]
  }

  ghost predicate AllBelow(s: seq<nat>, bound: nat) {
    forall i :: 0 <= i < |s| ==> s[i] < bound
  }

  /** The acknowledged events, live and replayed, in the order of acknowledgement. */
  function Acknowledgements(journal: seq<Action>): seq<nat> {
    if journal == [] then [] else
    Acknowledgements(journal[..|journal| - 1]) +
    match journal[|journal| - 1]
    case Live(event, true) => [event.eventId]
    case Resent(row, true) => [row.eventId]
    case _ => []
  }

  lemma AcknowledgementsAppend(journal: seq<Action>, a: Action)
    ensures Acknowledgements(journal + [a]) == Acknowledgements(journal) +
            match a case Live(e, true) => [e.eventId] case Resent(row, true) => [row.eventId] case _ => []
  {
    assert (journal + [a])[..|journal|] == journal;
  }

  lemma AcksMore(journal: seq<Action>, a: Action)
    requires (a.Live? && a.acked) || (a.Resent? && a.acked)
    ensures Acknowledgements(journal + [a]) == Acknowledgements(journal) +
            [if a.Live? then a.event.eventId else a.row.eventId]
  {
    AcknowledgementsAppend(journal, a);
  }

  lemma AscendingAppend(s: seq<nat>, x: nat)
    requires Ascending(s) && AllBelow(s, x)
    ensures Ascending(s + [x])
  {
  }

  /** The backlog is in arrival order, and every event in it was minted. */
  ghost predicate RowsInOrder(rows: seq<Row>, minted: nat) {
    && (forall i :: 0 <= i < |rows| ==> rows[i].eventId < minted)
    && (forall i, j :: 0 <= i < j < |rows| ==> rows[i].eventId < rows[j].eventId)
  }

  /** The rows the replay in progress has sent and not yet deleted, and the
      rows of its batch that are still to be sent. */
  function SentRows(pc: Pc): seq<Row> {
    match pc
    case Checking(sent, _) => sent
    case Resending(sent, _, _) => sent
    case Removing(sent, _) => sent
    case _ => []
  }

  function BatchRows(pc: Pc): seq<Row> {
    match pc
    case Checking(sent, pending) => sent + pending
    case Resending(sent, row, rest) => sent + [row] + rest
    case Removing(sent, _) => sent
    case _ => []
  }

  /** The eventId of the live event being handled, if any. */
  function Candidate(pc: Pc): Option<nat> {
    match pc
    case Publishing(event) => Some(event.eventId)
    case Storing(event) => Some(event.eventId)
    case _ => None
  }

  /** Everything acknowledged is older than every row from `sent` on. */
  ghost predicate AckedBeforeUnsent(acked: seq<nat>, rows: seq<Row>, sent: nat) {
    forall i :: sent <= i < |rows| ==> AllBelow(acked, rows[i].eventId)
  }

  ghost predicate Consistent(t: Table, acked: seq<nat>, minted: nat, sent: nat, batch: seq<Row>,
                             candidate: Option<nat>) {
    && WellFormed(t) && batch <= t.rows
    && Ascending(acked) && AllBelow(acked, minted)
    && AckedBeforeUnsent(acked, t.rows, sent)
    && RowsInOrder(t.rows, minted)
    && (candidate.Some? ==>
          candidate.value < minted && RowsInOrder(t.rows, candidate.value) && AllBelow(acked, candidate.value))
  }

  ghost predicate Ordered(g: Gateway, pc: Pc) {
    Consistent(g.table, Acknowledgements(g.journal), g.minted, |SentRows(pc)|, BatchRows(pc), Candidate(pc))
  }

  ghost predicate InOrder(m: Machine) {
    Gate(m) && Ordered(m.g, m.pc)
  }

  /** A step that leaves table, acknowledgements and minted ids alone. */
  lemma OrderedSame(g: Gateway, g': Gateway, pc: Pc, pc': Pc)
    requires Ordered(g, pc) && g'.table == g.table && g'.minted == g.minted
    requires Acknowledgements(g'.journal) == Acknowledgements(g.journal)
    requires |SentRows(pc')| == |SentRows(pc)| && BatchRows(pc') <= g.table.rows && Candidate(pc') == Candidate(pc)
    ensures Ordered(g', pc')
  {
  }

  lemma OrderedResend(g: Gateway, world: World, sent: seq<Row>, row: Row, rest: seq<Row>)
    requires Ordered(g, Resending(sent, row, rest))
    ensures Ordered(Resend(g, world, row),
                    if SendSucceeds(g, world) then Checking(sent + [row], rest) else Removing(sent, false))
  {
    if SendSucceeds(g, world) {
      AcksMore(g.journal, Resent(row, true));
      OrderedConfirmed(g, Resend(g, world, row), sent, row, rest);
    } else {
      OrderedRefused(g, Resend(g, world, row), sent, row, rest);
    }
  }

  lemma OrderedRefused(g: Gateway, g': Gateway, sent: seq<Row>, row: Row, rest: seq<Row>)
    requires Ordered(g, Resending(sent, row, rest)) && g'.table == g.table && g'.minted == g.minted
    requires Acknowledgements(g'.journal) == Acknowledgements(g.journal)
    ensures Ordered(g', Removing(sent, false))
  {
    SendFromBatch(g.table, Acknowledgements(g.journal), g.minted, sent, row, rest);
  }

  lemma OrderedConfirmed(g: Gateway, g': Gateway, sent: seq<Row>, row: Row, rest: seq<Row>)
    requires Ordered(g, Resending(sent, row, rest)) && g'.table == g.table && g'.minted == g.minted
    requires Acknowledgements(g'.journal) == Acknowledgements(g.journal) + [row.eventId]
    ensures Ordered(g', Checking(sent + [row], rest))
  {
    SendFromBatch(g.table, Acknowledgements(g.journal), g.minted, sent, row, rest);
  }

  lemma SendFromBatch(t: Table, acked: seq<nat>, minted: nat, sent: seq<Row>, row: Row, rest: seq<Row>)
    requires Consistent(t, acked, minted, |sent|, sent + [row] + rest, None)
    ensures Consistent(t, acked + [row.eventId], minted, |sent + [row]|, (sent + [row]) + rest, None)
    ensures Consistent(t, acked, minted, |sent|, sent, None)
  {
    NextInBatch(t.rows, sent, row, rest);
  }

  lemma DeleteSent(t: Table, acked: seq<nat>, minted: nat, sent: seq<Row>)
    requires Consistent(t, acked, minted, |sent|, sent, None)
    ensures Consistent(Removed(t, Ids(sent)), acked, minted, 0, [], None)
  {
    ConfirmedAreDeleted(t, sent);
  }

  lemma OrderedDelete(g: Gateway, sent: seq<Row>, complete: bool, pc: Pc)
    requires Ordered(g, Removing(sent, complete)) && (pc == Peeking || pc == Receiving)
    ensures Ordered(DeleteConfirmed(g, sent), pc)
  {
    if sent != [] {
      DeleteKeeps(g, sent);
      DeleteSent(g.table, Acknowledgements(g.journal), g.minted, sent);
    }
  }

  lemma DeleteKeeps(g: Gateway, sent: seq<Row>)
    requires sent != []
    ensures var after := DeleteConfirmed(g, sent);
            && after.table == Removed(g.table, Ids(sent)) && after.minted == g.minted
            && Acknowledgements(after.journal) == Acknowledgements(g.journal)
  {
    AcknowledgementsAppend(g.journal, Deleted(sent));
  }

  lemma AppendKeepsOrder(acked: seq<nat>, rows: seq<Row>, row: Row, minted: nat)
    requires RowsInOrder(rows, row.eventId) && row.eventId < minted
    requires AckedBeforeUnsent(acked, rows, 0) && AllBelow(acked, row.eventId)
    ensures RowsInOrder(rows + [row], minted) && AckedBeforeUnsent(acked, rows + [row], 0)
  {
    var longer := rows + [row];
    forall i | 0 <= i < |longer| ensures AllBelow(acked, longer[i].eventId) {
      if i < |rows| {
        assert AllBelow(acked, rows[i].eventId);
      }
    }
  }

  lemma EnqueueNewest(t: Table, acked: seq<nat>, minted: nat, maxSize: int, event: Event)
    requires Consistent(t, acked, minted, 0, [], Some(event.eventId))
    ensures Consistent(WithEvent(t, maxSize, event), acked, minted, 0, [], None)
  {
    WithEventRows(t, maxSize, event);
    AppendKeepsOrder(acked, t.rows, NewRow(t, event), minted);
  }

  lemma OrderedStore(g: Gateway, event: Event)
    requires Ordered(g, Storing(event))
    ensures Ordered(Store(g, event), Top)
  {
    var row := NewRow(g.table, event);
    AcknowledgementsAppend(g.journal, Stored(row, Trimmed(g.table, g.maxSize, row)));
    EnqueueNewest(g.table, Acknowledgements(g.journal), g.minted, g.maxSize, event);
    assert Store(g, event).table == WithEvent(g.table, g.maxSize, event);
  }

  lemma PublishCandidate(t: Table, acked: seq<nat>, minted: nat, eventId: nat)
    requires Consistent(t, acked, minted, 0, [], Some(eventId)) && t.rows == []
    ensures Consistent(t, acked + [eventId], minted, 0, [], None)
  {
    AscendingAppend(acked, eventId);
  }

  lemma OrderedPublish(g: Gateway, world: World, event: Event)
    requires Ordered(g, Publishing(event)) && (SendSucceeds(g, world) ==> g.table.rows == [])
    ensures Ordered(PublishLive(g, world, event), if SendSucceeds(g, world) then Top else Storing(event))
  {
    if SendSucceeds(g, world) {
      AcksMore(g.journal, Live(event, true));
      OrderedPublished(g, PublishLive(g, world, event), event);
    }
  }

  lemma OrderedPublished(g: Gateway, g': Gateway, event: Event)
    requires Ordered(g, Publishing(event)) && g.table.rows == [] && g'.table == g.table && g'.minted == g.minted
    requires Acknowledgements(g'.journal) == Acknowledgements(g.journal) + [event.eventId]
    ensures Ordered(g', Top)
  {
    PublishCandidate(g.table, Acknowledgements(g.journal), g.minted, event.eventId);
  }

  lemma OrderedAdmit(g: Gateway, world: World)
    requires Ordered(g, Receiving)
    ensures var arrival := Arrived(g, world);
            Ordered(Admit(g, world, arrival),
                    if arrival.Some? && arrival.value.Accepted? then Publishing(arrival.value.event) else Top)
  {
    var arrival := Arrived(g, world);
    if arrival.Some? && !arrival.value.Ignored? {
      ReceiveKeepsContext(world(g.cursor).frame.value,
                          Context(g.minted, g.sessionId, g.vehicleId, world(g.cursor).now));
      AdmitKeeps(g, world, arrival);
    }
  }

  lemma AdmitKeeps(g: Gateway, world: World, arrival: Option<Arrival>)
    ensures var after := Admit(g, world, arrival);
            && after.table == g.table && Acknowledgements(after.journal) == Acknowledgements(g.journal)
            && after.minted == g.minted + (if arrival.Some? && !arrival.value.Ignored? then 1 else 0)
  {
    if arrival.Some? && arrival.value.Rejected? {
      AcknowledgementsAppend(g.journal, Refused(arrival.value.event.eventId));
    }
  }

  /** The steps from the top of an iteration to the first row of a replay. */
  lemma EntryKeeps(m: Machine, world: World)
    requires m.pc.Top? || m.pc.Reconnecting? || m.pc.CheckReplay? || m.pc.Peeking?
    ensures var m' := Micro(m, world);
            && m'.g.table == m.g.table && m'.g.minted == m.g.minted
            && (m'.g.journal == m.g.journal
                || m'.g.journal == m.g.journal + [Reconnection(Attempt(m.g, world).link.connected)])
            && SentRows(m'.pc) == [] && BatchRows(m'.pc) <= m.g.table.rows && Candidate(m'.pc) == None
  {
    var batch := Oldest(m.g.table.rows, REPLAY_BATCH_SIZE);
    assert [] + batch == batch;
  }

  lemma OrderedControl(m: Machine, world: World)
    requires Ordered(m.g, m.pc)
    requires m.pc.Top? || m.pc.Reconnecting? || m.pc.CheckReplay? || m.pc.Peeking?
    ensures Ordered(Micro(m, world).g, Micro(m, world).pc)
  {
    AcknowledgementsAppend(m.g.journal, Reconnection(Attempt(m.g, world).link.connected));
    EntryKeeps(m, world);
    OrderedSame(m.g, Micro(m, world).g, m.pc, Micro(m, world).pc);
  }

  lemma OrderedChecking(m: Machine, world: World)
    requires m.pc.Checking? && Ordered(m.g, m.pc)
    ensures Ordered(Micro(m, world).g, Micro(m, world).pc)
  {
    var sent, pending := m.pc.sent, m.pc.pending;
    assert sent <= m.g.table.rows by {
      assert sent == m.g.table.rows[..|sent|];
    }
    if pending != [] {
      assert sent + pending == sent + [pending[0]] + pending[1..];
    }
    OrderedSame(m.g, Micro(m, world).g, m.pc, Micro(m, world).pc);
  }

  lemma OrderedStep(m: Machine, world: World)
    requires Ordered(m.g, m.pc)
    requires m.pc.Publishing? && SendSucceeds(m.g, world) ==> m.g.table.rows == []
    ensures Ordered(Micro(m, world).g, Micro(m, world).pc)
  {
    match m.pc
    case Checking(_, _) => OrderedChecking(m, world);
    case Resending(sent, row, rest) => OrderedResend(m.g, world, sent, row, rest);
    case Removing(sent, complete) => OrderedDelete(m.g, sent, complete, if complete then Peeking else Receiving);
    case Receiving => OrderedAdmit(m.g, world);
    case Publishing(event) => OrderedPublish(m.g, world, event);
    case Storing(event) => OrderedStore(m.g, event);
    case _ => OrderedControl(m, world);
  }

  /** The next step acknowledges a live event over buffered rows. */
  ghost predicate OvertakesNow(m: Machine, world: World) {
    m.pc.Publishing? && SendSucceeds(m.g, world) && m.g.table.rows != []
  }

  ghost predicate OrderedMachine(m: Machine) {
    Ordered(m.g, m.pc)
  }

  lemma OrderedNext(m: Machine, world: World)
    requires OrderedMachine(m) && !OvertakesNow(m, world)
    ensures OrderedMachine(Micro(m, world))
  {
    OrderedStep(m, world);
  }

  /** Whatever fails and however, with or without a disconnect: overtaking is
      the only way in which the order of acknowledgements can be lost. */
  lemma {:induction false} OrderKeptUnlessOvertaken(start: Machine, world: World, n: nat)
    requires OrderedMachine(start)
    requires forall i: nat :: i < n ==> !OvertakesNow(Micros(start, world, i), world)
    ensures OrderedMachine(Micros(start, world, n))
    ensures Ascending(Acknowledgements(Micros(start, world, n).g.journal))
  {
    if n > 0 {
      OrderKeptUnlessOvertaken(start, world, n - 1);
      OrderedNext(Micros(start, world, n - 1), world);
    }
  }

  /** If the next step is a publish that fails, the link is down afterwards. */
  ghost predicate FailureShows(m: Machine, world: World) {
    (m.pc.Publishing? || m.pc.Resending?) && !SendSucceeds(m.g, world) ==> !Send(m.g, world).link.connected
  }

  ghost predicate GatedMachine(m: Machine) {
    GateAt(m.g, m.pc) && Ordered(m.g, m.pc)
  }

  lemma GatedNext(m: Machine, world: World)
    requires GatedMachine(m) && FailureShows(m, world)
    ensures GatedMachine(Micro(m, world))
  {
    ShownFailuresKeepGate(m, world);
    OrderedStep(m, world);
  }

  lemma ShownFailuresKeepGate(m: Machine, world: World)
    requires GateAt(m.g, m.pc) && FailureShows(m, world)
    ensures GateAt(Micro(m, world).g, Micro(m, world).pc) && !OvertakesNow(m, world)
  {
    ExternalOnlyDisconnects(m.g.link, world(m.g.cursor).events);
  }

  /** What the world does besides does not matter: if each failed publish among
      the first n steps left the link down, whether the broker, the connection
      or a hook made it fail, the order is kept at each of these steps. */
  lemma {:induction false} OrderKeptWhileFailuresShow(start: Machine, world: World, n: nat)
    requires GatedMachine(start)
    requires forall i: nat :: i < n ==> FailureShows(Micros(start, world, i), world)
    ensures GatedMachine(Micros(start, world, n))
    ensures Ascending(Acknowledgements(Micros(start, world, n).g.journal))
  {
    if n > 0 {
      OrderKeptWhileFailuresShow(start, world, n - 1);
      GatedNext(Micros(start, world, n - 1), world);
    }
  }

  lemma InOrderStep(m: Machine, world: World)
    requires FailuresDisconnect(world) && InOrder(m)
    ensures InOrder(Micro(m, world))
  {
    GateStep(m, world);
    SettledLink(m.g, world);
    OrderedStep(m, world);
  }

  /** A gateway about to run on a possibly non-empty file. */
  ghost predicate FreshStart(g: Gateway) {
    && g.journal == [] && WellFormed(g.table) && RowsInOrder(g.table.rows, g.minted)
    && g.link.forcedFailures <= 0
  }

  lemma StartsInOrder(g: Gateway)
    requires FreshStart(g)
    ensures InOrder(Machine(Begin(g), Top))
  {
  }

  lemma InOrderAlways(world: World, g: Gateway, n: nat)
    requires FailuresDisconnect(world) && InOrder(Machine(g, Top))
    ensures InOrder(Micros(Machine(g, Top), world, n))
    ensures InOrder(Machine(Iterate(g, world, n), Top))
  {
    var inv := m => InOrder(m);
    forall m {:trigger Micro(m, world)} | inv(m) ensures inv(Micro(m, world)) {
      InOrderStep(m, world);
    }
    MicrosKeep(inv, world, Machine(g, Top), n);
    IterateKeeps(inv, world, g, n);
  }

  /** Over every run, of any length, through any number of outages and replays
      cut short, the acknowledged events (backlog, live and replayed) are
      strictly in arrival order, after every iteration and every atomic step. */
  lemma AcknowledgedInArrivalOrder(world: World, g: Gateway, n: nat)
    requires FailuresDisconnect(world) && FreshStart(g)
    ensures Ascending(Acknowledgements(Iterate(Begin(g), world, n).journal))
    ensures Ascending(Acknowledgements(Micros(Machine(Begin(g), Top), world, n).g.journal))
  {
    StartsInOrder(g);
    InOrderAlways(world, Begin(g), n);
  }

  /** In every such run a live publish is acknowledged only while nothing is buffered. */
  lemma NoLiveEventOvertakes(world: World, g: Gateway, n: nat)
    requires FailuresDisconnect(world) && FreshStart(g)
    ensures var m := Micros(Machine(Begin(g), Top), world, n);
            m.pc.Publishing? && SendSucceeds(m.g, world) ==> m.g.table.rows == []
  {
    StartsInOrder(g);
    InOrderAlways(world, Begin(g), n);
    var m := Micros(Machine(Begin(g), Top), world, n);
    SettledLink(m.g, world);
  }

  // --- exactly when overtaking is possible ---

  /** In this iteration a live event is acknowledged while rows are buffered. */
  ghost predicate Overtakes(g: Gateway, world: World) {
    var g0 := ReplayPhase(ReconnectPhase(g, world), world);
    var arrival := Arrived(g0, world);
    && g0.table.rows != [] && arrival.Some? && arrival.value.Accepted?
    && SendSucceeds(Admit(g0, world, arrival), world)
  }

  /** Rows are buffered, but the connection never went down and no replay is due. */
  predicate Stranded(g: Gateway) {
    g.table.rows != [] && g.link.connected && !g.replayRequested
  }

  /** A throttle reading of zero. */
  const QUIET_FRAME := Frame(0x102, Zeros(8))

  /** Acknowledges everything, disturbs nothing and always has a frame. */
  const QUIET_WORLD: World := i => Moment([], true, false, 0.0, Some(QUIET_FRAME))

  lemma StrandedIsOvertaken(g: Gateway)
    requires g.link.forcedFailures <= 0 && Stranded(g)
    ensures Overtakes(g, QUIET_WORLD)
  {
    var g0 := Observe(g, QUIET_WORLD);
    assert Settled(g, QUIET_WORLD) == g.link;
    assert ReplayPhase(ReconnectPhase(g, QUIET_WORLD), QUIET_WORLD) == g0;
    var arrival := Arrived(g0, QUIET_WORLD);
    assert Settled(Admit(g0, QUIET_WORLD, arrival), QUIET_WORLD) == g.link;
  }

  lemma UnstrandedIsNotOvertaken(g: Gateway, world: World)
    requires FailuresDisconnect(world) && g.link.forcedFailures <= 0 && !Stranded(g)
    ensures !Overtakes(g, world)
  {
    var inv := m => Gate(m);
    GateIsStable(world);
    ReconnectPhaseKeeps(inv, world, g);
    ReplayPhaseKeeps(inv, world, ReconnectPhase(g, world));
    GatedAtReceiving(ReplayPhase(ReconnectPhase(g, world), world), world);
  }

  /** If rows are left when the frame is awaited, its publish fails. */
  lemma GatedAtReceiving(g: Gateway, world: World)
    requires FailuresDisconnect(world) && Gate(Machine(g, Receiving))
    ensures g.table.rows != [] ==> !SendSucceeds(Admit(g, world, Arrived(g, world)), world)
  {
    SettledLink(g, world);
    SettledLink(Admit(g, world, Arrived(g, world)), world);
  }

  /** Before an iteration one can tell whether live traffic may overtake in it:
      it may, in some world whose failed publishes disconnect, exactly when
      rows are buffered while the link is up and no replay is requested. */
  lemma OvertakingIsPossibleIffStranded(g: Gateway)
    requires g.link.forcedFailures <= 0
    ensures (exists world :: FailuresDisconnect(world) && Overtakes(g, world)) <==> Stranded(g)
  {
    if Stranded(g) {
      StrandedIsOvertaken(g);
      assert FailuresDisconnect(QUIET_WORLD);
    } else {
      forall world | FailuresDisconnect(world) ensures !Overtakes(g, world) {
        UnstrandedIsNotOvertaken(g, world);
      }
    }
  }
}
