/** Every good run passes the self-check: the gateway's log, read by the
    recorder and compared with a faithful subscriber, satisfies all checks. */
module GoodRun {
  import opened Telemetry
  import opened Ingestion
  import opened TelemetryBuffers
  import opened Gateways
  import opened DeliveryOrder
  import opened ResilienceDemo

  // --- the log of a run ---

  /** The log line written after an effect, if any. */
  function RecordOf(a: Action): seq<LogRecord> {
    match a
    case Live(event, acked) => if acked then [LogRecord(MsgPublished, event.eventId, [])] else []
    case Stored(row, _) => [LogRecord(MsgBuffered, row.eventId, [])]
    case Deleted(rows) => [LogRecord(MsgReplayed, 0, EventIdsOf(rows))]
    case Reconnection(ok) => [LogRecord(if ok then MsgReconnected else MsgReconnectFailed, 0, [])]
    case Refused(eventId) => [LogRecord(MsgRejected, eventId, [])]
    case Resent(_, _) => []
  }

  function Records(journal: seq<Action>): seq<LogRecord> {
    if journal == [] then [] else Records(journal[..|journal| - 1]) + RecordOf(journal[|journal| - 1])
  }

  // --- what a journal did ---

  datatype Tally = Tally(stored: seq<Row>, deleted: seq<Row>, confirmed: seq<Row>,
                         published: seq<Event>, acked: seq<Event>)

  function Tallied(t: Tally, a: Action): Tally {
    match a
    case Live(event, acked) =>
      if acked then t.(published := t.published + [event], acked := t.acked + [event]) else t
    case Stored(row, _) => t.(stored := t.stored + [row])
    case Deleted(rows) => t.(deleted := t.deleted + rows)
    case Resent(row, acked) =>
      if acked then t.(confirmed := t.confirmed + [row], acked := t.acked + [row.payload]) else t
    case _ => t
  }

  function TallyOf(journal: seq<Action>): Tally {
    if journal == [] then Tally([], [], [], [], [])
    else Tallied(TallyOf(journal[..|journal| - 1]), journal[|journal| - 1])
  }

  /** The log tells what was done. */
  ghost predicate Tells(records: seq<LogRecord>, t: Tally) {
    && EventIds(records, MsgBuffered) == EventIdsOf(t.stored)
    && ReplayedEventIds(records) == EventIdsOf(t.deleted)
    && EventIds(records, MsgPublished) == IdsOf(t.published)
  }

  lemma TellsMore(records: seq<LogRecord>, t: Tally, a: Action)
    requires Tells(records, t)
    ensures Tells(records + RecordOf(a), Tallied(t, a))
  {
    if RecordOf(a) == [] {
      assert records + [] == records;
    } else {
      LineTells(records, t, a, RecordOf(a)[0]);
    }
  }

  /** One log line tells of one effect. */
  lemma LineTells(records: seq<LogRecord>, t: Tally, a: Action, line: LogRecord)
    requires Tells(records, t) && RecordOf(a) == [line]
    ensures Tells(records + [line], Tallied(t, a))
  {
  }

  /** The log of a journal tells what the journal did. */
  lemma {:induction false} LogTells(journal: seq<Action>, records: seq<LogRecord>, t: Tally)
    requires records == Records(journal) && t == TallyOf(journal)
    ensures Tells(records, t)
  {
    if journal == [] {
      assert EventIds([], MsgBuffered) == [] && EventIds([], MsgPublished) == [];
    } else {
      var before, last := journal[..|journal| - 1], journal[|journal| - 1];
      LogTells(before, Records(before), TallyOf(before));
      TellsMore(Records(before), TallyOf(before), last);
    }
  }

  /** How many buffered events the log has not yet reported as replayed. */
  function Depth(records: seq<LogRecord>): int {
    |EventIds(records, MsgBuffered)| - |ReplayedEventIds(records)|
  }

  ghost predicate NotPublishedOrEmpty(records: seq<LogRecord>, i: nat) {
    i < |records| && records[i].message == MsgPublished ==> Depth(records[..i]) == 0
  }

  /** Every published line was written while nothing was buffered. */
  ghost predicate PublishedAtDepthZero(records: seq<LogRecord>) {
    forall i: nat :: NotPublishedOrEmpty(records, i)
  }

  lemma AppendAtDepth(records: seq<LogRecord>, more: seq<LogRecord>)
    requires PublishedAtDepthZero(records) && |more| <= 1
    requires more != [] && more[0].message == MsgPublished ==> Depth(records) == 0
    ensures PublishedAtDepthZero(records + more)
  {
    var all := records + more;
    forall i: nat ensures NotPublishedOrEmpty(all, i) {
      if i < |records| {
        assert NotPublishedOrEmpty(records, i);
        assert all[..i] == records[..i] && all[i] == records[i];
      } else if i == |records| {
        assert all[..i] == records;
      }
    }
  }

  // --- the invariant of a good run ---

  ghost predicate Booked(t: Tally, g: Gateway, sent: seq<Row>) {
    && g.maxSize >= 0 && g.dropped >= 0
    && (g.dropped == 0 ==> t.stored == t.deleted + g.table.rows)
    && t.confirmed == t.deleted + sent
    && g.metrics.buffered == |t.stored| && g.metrics.replayed == |t.confirmed| && g.metrics.processed == |t.published|
  }

  /** The rows stored so far carry this gateway's identity, agree with their
      payloads and have non-decreasing timestamps up to `now`. */
  ghost predicate Stamped(stored: seq<Row>, sessionId: string, vehicleId: string, now: real) {
    && (forall i :: 0 <= i < |stored| ==>
          stored[i].eventId == stored[i].payload.eventId && stored[i].payload.timestamp <= now &&
          stored[i].payload.sessionId == sessionId && stored[i].payload.vehicleId == vehicleId)
    && (forall i, j :: 0 <= i < j < |stored| ==> stored[i].payload.timestamp <= stored[j].payload.timestamp)
  }

  function CandidateEvent(pc: Pc): Option<Event> {
    match pc
    case Publishing(event) => Some(event)
    case Storing(event) => Some(event)
    case _ => None
  }

  ghost predicate Timely(t: Tally, g: Gateway, candidate: Option<Event>, now: real) {
    match candidate
    case None => Stamped(t.stored, g.sessionId, g.vehicleId, now)
    case Some(event) =>
      && event.timestamp <= now && event.sessionId == g.sessionId && event.vehicleId == g.vehicleId
      && Stamped(t.stored, g.sessionId, g.vehicleId, event.timestamp)
  }

  /** The clock never goes back. */
  ghost predicate SteadyClock(world: World) {
    forall i: nat, j: nat {:trigger world(i), world(j)} :: i <= j ==> world(i).now <= world(j).now
  }

  /** The facts a step has to establish, apart from the order. */
  ghost predicate Kept(t: Tally, records: seq<LogRecord>, g: Gateway, sent: seq<Row>, candidate: Option<Event>,
                       now: real) {
    && Booked(t, g, sent) && Timely(t, g, candidate, now)
    && (g.dropped == 0 ==> PublishedAtDepthZero(records))
  }

  ghost predicate Fine(g: Gateway, pc: Pc, world: World) {
    Kept(TallyOf(g.journal), Records(g.journal), g, SentRows(pc), CandidateEvent(pc), world(g.cursor).now)
  }

  /** The fields that the books refer to are unchanged. */
  predicate SameBooks(g: Gateway, g': Gateway) {
    && g'.table == g.table && g'.maxSize == g.maxSize && g'.dropped == g.dropped
    && g'.sessionId == g.sessionId && g'.vehicleId == g.vehicleId
    && g'.metrics.buffered == g.metrics.buffered && g'.metrics.replayed == g.metrics.replayed
    && g'.metrics.processed == g.metrics.processed
  }

  /** Effects that book nothing. */
  predicate IsQuiet(a: Action) {
    a.Reconnection? || a.Refused? || (a.Live? && !a.acked) || (a.Resent? && !a.acked)
  }

  lemma KeptQuiet(t: Tally, records: seq<LogRecord>, g: Gateway, g': Gateway, sent: seq<Row>, candidate: Option<Event>,
                  now: real, later: real, a: Action)
    requires Kept(t, records, g, sent, candidate, now) && SameBooks(g, g') && now <= later && IsQuiet(a)
    ensures Kept(t, records, g', sent, candidate, later)
    ensures Tallied(t, a) == t && Kept(t, records + RecordOf(a), g', sent, candidate, later)
  {
    if g.dropped == 0 {
      AppendAtDepth(records, RecordOf(a));
    }
  }

  /** A step that books nothing: the same journal, or one more quiet entry. */
  lemma FineSame(g: Gateway, pc: Pc, g': Gateway, pc': Pc, world: World, a: Action)
    requires SteadyClock(world) && Fine(g, pc, world) && g.cursor <= g'.cursor && SameBooks(g, g') && IsQuiet(a)
    requires g'.journal == g.journal || g'.journal == g.journal + [a]
    requires SentRows(pc') == SentRows(pc) && CandidateEvent(pc') == CandidateEvent(pc)
    ensures Fine(g', pc', world)
  {
    KeptQuiet(TallyOf(g.journal), Records(g.journal), g, g', SentRows(pc), CandidateEvent(pc),
              world(g.cursor).now, world(g'.cursor).now, a);
  }

  lemma FineResend(g: Gateway, world: World, sent: seq<Row>, row: Row, rest: seq<Row>)
    requires SteadyClock(world) && Fine(g, Resending(sent, row, rest), world)
    ensures Fine(Resend(g, world, row),
                 if SendSucceeds(g, world) then Checking(sent + [row], rest) else Removing(sent, false), world)
  {
    if SendSucceeds(g, world) {
      FineConfirmed(g, world, sent, row, rest);
    } else {
      FineSame(g, Resending(sent, row, rest), Resend(g, world, row), Removing(sent, false), world, Resent(row, false));
    }
  }

  lemma FineConfirmed(g: Gateway, world: World, sent: seq<Row>, row: Row, rest: seq<Row>)
    requires SteadyClock(world) && Fine(g, Resending(sent, row, rest), world) && SendSucceeds(g, world)
    ensures Fine(Resend(g, world, row), Checking(sent + [row], rest), world)
  {
    assert Records(g.journal) + [] == Records(g.journal);
  }

  lemma BookedDeleted(t: Tally, g: Gateway, sent: seq<Row>)
    requires Booked(t, g, sent) && WellFormed(g.table) && sent <= g.table.rows && sent != []
    ensures Booked(Tallied(t, Deleted(sent)), DeleteConfirmed(g, sent), [])
  {
    ConfirmedAreDeleted(g.table, sent);
    assert g.table.rows == sent + g.table.rows[|sent|..];
    assert t.deleted + g.table.rows == t.deleted + sent + g.table.rows[|sent|..];
    assert t.deleted + sent + [] == t.deleted + sent;
  }

  lemma KeptDeleted(t: Tally, records: seq<LogRecord>, g: Gateway, sent: seq<Row>, now: real)
    requires Kept(t, records, g, sent, None, now) && WellFormed(g.table) && sent <= g.table.rows && sent != []
    ensures Kept(Tallied(t, Deleted(sent)), records + RecordOf(Deleted(sent)), DeleteConfirmed(g, sent), [], None, now)
  {
    BookedDeleted(t, g, sent);
    if g.dropped == 0 {
      AppendAtDepth(records, RecordOf(Deleted(sent)));
    }
  }

  lemma FineRemove(g: Gateway, world: World, sent: seq<Row>, complete: bool)
    requires Fine(g, Removing(sent, complete), world) && WellFormed(g.table) && sent <= g.table.rows
    ensures Fine(DeleteConfirmed(g, sent), if complete then Peeking else Receiving, world)
  {
    if sent != [] {
      KeptDeleted(TallyOf(g.journal), Records(g.journal), g, sent, world(g.cursor).now);
    }
  }

  lemma KeptStored(t: Tally, records: seq<LogRecord>, g: Gateway, event: Event, now: real)
    requires Kept(t, records, g, [], Some(event), now) && WellFormed(g.table)
    ensures var stored := Stored(NewRow(g.table, event), Trimmed(g.table, g.maxSize, NewRow(g.table, event)));
            Kept(Tallied(t, stored), records + RecordOf(stored), Store(g, event), [], None, now)
  {
    var row := NewRow(g.table, event);
    var stored := Stored(row, Trimmed(g.table, g.maxSize, row));
    if Store(g, event).dropped == 0 {
      AppendAtDepth(records, RecordOf(stored));
    }
  }

  lemma FineStore(g: Gateway, world: World, event: Event)
    requires Fine(g, Storing(event), world) && WellFormed(g.table)
    ensures Fine(Store(g, event), Top, world)
  {
    KeptStored(TallyOf(g.journal), Records(g.journal), g, event, world(g.cursor).now);
  }

  lemma KeptPublished(t: Tally, records: seq<LogRecord>, g: Gateway, g': Gateway, event: Event, now: real, later: real)
    requires Kept(t, records, g, [], Some(event), now) && now <= later && (g.dropped == 0 ==> Depth(records) == 0)
    requires SameBooks(g.(metrics := g.metrics.(processed := g.metrics.processed + 1)), g')
    ensures Kept(Tallied(t, Live(event, true)), records + RecordOf(Live(event, true)), g', [], None, later)
  {
    if g.dropped == 0 {
      AppendAtDepth(records, RecordOf(Live(event, true)));
    }
  }

  lemma FinePublish(g: Gateway, world: World, event: Event)
    requires SteadyClock(world) && Fine(g, Publishing(event), world)
    requires SendSucceeds(g, world) ==> g.table.rows == []
    ensures Fine(PublishLive(g, world, event), if SendSucceeds(g, world) then Top else Storing(event), world)
  {
    if SendSucceeds(g, world) {
      FinePublished(g, world, event);
    } else {
      FineSame(g, Publishing(event), PublishLive(g, world, event), Storing(event), world, Live(event, false));
    }
  }

  /** With an empty table the log tells of as many replays as insertions. */
  lemma NothingBuffered(g: Gateway)
    requires Booked(TallyOf(g.journal), g, []) && g.table.rows == []
    ensures g.dropped == 0 ==> Depth(Records(g.journal)) == 0
  {
    LogTells(g.journal, Records(g.journal), TallyOf(g.journal));
    assert TallyOf(g.journal).deleted + [] == TallyOf(g.journal).deleted;
  }

  lemma FinePublished(g: Gateway, world: World, event: Event)
    requires SteadyClock(world) && Fine(g, Publishing(event), world)
    requires SendSucceeds(g, world) && g.table.rows == []
    ensures Fine(PublishLive(g, world, event), Top, world)
  {
    var g' := PublishLive(g, world, event);
    NothingBuffered(g);
    KeptPublished(TallyOf(g.journal), Records(g.journal), g, g', event, world(g.cursor).now, world(g.cursor + 1).now);
  }

  lemma FineAdmit(g: Gateway, world: World)
    requires SteadyClock(world) && Fine(g, Receiving, world)
    ensures var arrival := Arrived(g, world);
            Fine(Admit(g, world, arrival),
                 if arrival.Some? && arrival.value.Accepted? then Publishing(arrival.value.event) else Top, world)
  {
    var arrival, m := Arrived(g, world), world(g.cursor);
    var g' := Admit(g, world, arrival);
    if arrival.Some? && arrival.value.Accepted? {
      ReceiveKeepsContext(m.frame.value, Context(g.minted, g.sessionId, g.vehicleId, m.now));
    } else if arrival.Some? && arrival.value.Rejected? {
      FineSame(g, Receiving, g', Top, world, Refused(arrival.value.event.eventId));
    } else {
      FineSame(g, Receiving, g', Top, world, Refused(0));
    }
  }

  lemma FineStep(m: Machine, world: World)
    requires SteadyClock(world) && Fine(m.g, m.pc, world) && WellFormed(m.g.table)
    requires m.pc.Removing? ==> m.pc.sent <= m.g.table.rows
    requires m.pc.Publishing? && SendSucceeds(m.g, world) ==> m.g.table.rows == []
    ensures Fine(Micro(m, world).g, Micro(m, world).pc, world)
  {
    match m.pc
    case Resending(sent, row, rest) => FineResend(m.g, world, sent, row, rest);
    case Removing(sent, complete) => FineRemove(m.g, world, sent, complete);
    case Receiving => FineAdmit(m.g, world);
    case Publishing(event) => FinePublish(m.g, world, event);
    case Storing(event) => FineStore(m.g, world, event);
    case _ => FineControl(m, world);
  }

  lemma FineControl(m: Machine, world: World)
    requires SteadyClock(world) && Fine(m.g, m.pc, world)
    requires m.pc.Top? || m.pc.Reconnecting? || m.pc.CheckReplay? || m.pc.Peeking? || m.pc.Checking?
    ensures Fine(Micro(m, world).g, Micro(m, world).pc, world)
  {
    var m' := Micro(m, world);
    FineSame(m.g, m.pc, m'.g, m'.pc, world, Reconnection(Attempt(m.g, world).link.connected));
  }
}
