/** Every frame and every event, one by one: what the counters count, what is
    published, and what is stored. */
module FrameAccounting {
  import opened Telemetry
  import opened Ingestion
  import opened TelemetryBuffers
  import opened Gateways
  import opened DeliveryOrder
  import opened Conservation

  // --- frames and counters ---

  /** The frame the next step takes from the bus, if any. */
  function Taken(m: Machine, world: World): seq<Frame> {
    if m.pc.Receiving? && world(m.g.cursor).frame.Some? then [world(m.g.cursor).frame.value] else []
  }

  /** The frames taken from the bus by the first n steps. */
  function FramesTaken(start: Machine, world: World, n: nat): seq<Frame> {
    if n == 0 then [] else FramesTaken(start, world, n - 1) + Taken(Micros(start, world, n - 1), world)
  }

  predicate Unreadable(frame: Frame) {
    !IsReadable(frame)
  }

  /** The counters tell apart what was ignored, rejected and passed on. */
  ghost predicate CountsFrames(m: Machine, frames: seq<Frame>) {
    && m.g.received == |frames|
    && m.g.ignored == CountIf(frames, Unreadable)
    && m.g.metrics.rejected == CountIf(frames, CarriesInvalidWord)
    && m.g.metrics.processed + m.g.metrics.publishFailures + (if m.pc.Publishing? then 1 else 0) ==
       CountIf(frames, CarriesValidWord)
  }

  /** A step counts the frame it takes once, under its class. */
  lemma FrameIsCounted(m: Machine, world: World, frames: seq<Frame>)
    requires CountsFrames(m, frames) && m.pc.Receiving? && world(m.g.cursor).frame.Some?
    ensures CountsFrames(Micro(m, world), frames + Taken(m, world))
  {
    var g, frame := m.g, world(m.g.cursor).frame.value;
    ReceiveIsExact(frame, Context(g.minted, g.sessionId, g.vehicleId, world(g.cursor).now));
    CountIfAppend(frames, frame, Unreadable);
    CountIfAppend(frames, frame, CarriesInvalidWord);
    CountIfAppend(frames, frame, CarriesValidWord);
  }

  lemma NothingElseIsCounted(m: Machine, world: World, frames: seq<Frame>)
    requires CountsFrames(m, frames) && Taken(m, world) == []
    ensures CountsFrames(Micro(m, world), frames + Taken(m, world))
  {
    assert frames + [] == frames;
  }

  lemma StepCountsFrames(m: Machine, world: World, frames: seq<Frame>)
    requires CountsFrames(m, frames)
    ensures CountsFrames(Micro(m, world), frames + Taken(m, world))
  {
    if m.pc.Receiving? && world(m.g.cursor).frame.Some? {
      FrameIsCounted(m, world, frames);
    } else {
      NothingElseIsCounted(m, world, frames);
    }
  }

  ghost predicate FramesCounted(start: Machine, world: World, m: Machine, k: nat) {
    CountsFrames(m, FramesTaken(start, world, k))
  }

  lemma FramesTakenNext(start: Machine, world: World, m: Machine, k: nat)
    requires m == Micros(start, world, k)
    ensures FramesTaken(start, world, k + 1) == FramesTaken(start, world, k) + Taken(m, world)
  {
  }

  lemma FramesCountedNext(start: Machine, world: World, m: Machine, k: nat)
    requires m == Micros(start, world, k) && FramesCounted(start, world, m, k)
    ensures FramesCounted(start, world, Micro(m, world), k + 1)
  {
    StepCountsFrames(m, world, FramesTaken(start, world, k));
    FramesTakenNext(start, world, m, k);
  }

  lemma FramesStayCounted(start: Machine, world: World, n: nat)
    requires FramesCounted(start, world, start, 0)
    ensures FramesCounted(start, world, Micros(start, world, n), n)
  {
    var inv := (m: Machine, k: nat) => FramesCounted(start, world, m, k);
    forall k: nat {:trigger Micros(start, world, k)} | inv(Micros(start, world, k), k)
      ensures inv(Micro(Micros(start, world, k), world), k + 1) {
      FramesCountedNext(start, world, Micros(start, world, k), k);
    }
    MicrosKeepFrom(inv, world, start, n);
  }

  /** At every atomic step of every run: received is the number of frames taken
      from the bus, ignored that of unknown ids and short payloads, rejected
      that of words outside the signal's range, and every other frame was
      published, failed to be, or is being published. */
  lemma FramesAreCounted(g: Gateway, world: World, n: nat)
    requires NothingCounted(g)
    ensures var start := Machine(Begin(g), Top);
            CountsFrames(Micros(start, world, n), FramesTaken(start, world, n))
  {
    var start := Machine(Begin(g), Top);
    assert FramesTaken(start, world, 0) == [];
    FramesStayCounted(start, world, n);
  }

  // --- counters and effects ---

  predicate IsPublished(a: Action) { a.Live? && a.acked }
  predicate IsFailed(a: Action) { a.Live? && !a.acked }
  predicate IsStored(a: Action) { a.Stored? }
  predicate IsConfirmed(a: Action) { a.Resent? && a.acked }
  predicate IsRefused(a: Action) { a.Refused? }

  /** Each counter is the number of effects of its kind. */
  ghost predicate CountsEffects(metrics: Metrics, journal: seq<Action>) {
    && metrics.processed == CountIf(journal, IsPublished)
    && metrics.publishFailures == CountIf(journal, IsFailed)
    && metrics.buffered == CountIf(journal, IsStored)
    && metrics.replayed == CountIf(journal, IsConfirmed)
    && metrics.rejected == CountIf(journal, IsRefused)
  }

  /** The counters after one more effect. */
  function Counted(metrics: Metrics, a: Action): Metrics {
    match a
    case Live(_, acked) =>
      if acked then metrics.(processed := metrics.processed + 1)
      else metrics.(publishFailures := metrics.publishFailures + 1)
    case Stored(_, _) => metrics.(buffered := metrics.buffered + 1)
    case Resent(_, acked) => if acked then metrics.(replayed := metrics.replayed + 1) else metrics
    case Refused(_) => metrics.(rejected := metrics.rejected + 1)
    case _ => metrics
  }

  lemma EffectIsCounted(metrics: Metrics, journal: seq<Action>, a: Action)
    requires CountsEffects(metrics, journal)
    ensures CountsEffects(Counted(metrics, a), journal + [a])
  {
    CountIfAppend(journal, a, IsPublished);
    CountIfAppend(journal, a, IsFailed);
    CountIfAppend(journal, a, IsStored);
    CountIfAppend(journal, a, IsConfirmed);
    CountIfAppend(journal, a, IsRefused);
  }

  /** From g to g' there was no effect, or one that the counters count. */
  ghost predicate OneEffect(g: Gateway, g': Gateway) {
    || (g'.journal == g.journal && g'.metrics == g.metrics)
    || exists a: Action :: g'.journal == g.journal + [a] && g'.metrics == Counted(g.metrics, a)
  }

  lemma HasEffect(g: Gateway, g': Gateway, a: Action)
    requires g'.journal == g.journal + [a] && g'.metrics == Counted(g.metrics, a)
    ensures OneEffect(g, g')
  {
  }

  lemma StepHasOneEffect(m: Machine, world: World)
    ensures OneEffect(m.g, Micro(m, world).g)
  {
    var g, g' := m.g, Micro(m, world).g;
    match m.pc
    case Reconnecting =>
      if g'.journal != g.journal {
        HasEffect(g, g', Reconnection(g'.link.connected));
      }
    case Resending(_, row, _) => HasEffect(g, g', Resent(row, SendSucceeds(g, world)));
    case Removing(sent, _) =>
      if sent != [] {
        HasEffect(g, g', Deleted(sent));
      }
    case Receiving =>
      if g'.journal != g.journal {
        HasEffect(g, g', Refused(Arrived(g, world).value.event.eventId));
      }
    case Publishing(event) => HasEffect(g, g', Live(event, SendSucceeds(g, world)));
    case Storing(event) =>
      var row := NewRow(g.table, event);
      HasEffect(g, g', Stored(row, Trimmed(g.table, g.maxSize, row)));
    case _ =>
  }

  lemma EffectsStayCounted(g: Gateway, g': Gateway)
    requires CountsEffects(g.metrics, g.journal) && OneEffect(g, g')
    ensures CountsEffects(g'.metrics, g'.journal)
  {
    if g'.journal != g.journal {
      var a: Action :| g'.journal == g.journal + [a] && g'.metrics == Counted(g.metrics, a);
      EffectIsCounted(g.metrics, g.journal, a);
    }
  }

  /** At every atomic step of every run each counter is the number of effects
      of its kind: acknowledged live publishes, failed ones, inserts, confirmed
      re-sends and refusals. */
  lemma CountersCountEffects(g: Gateway, world: World, n: nat)
    requires NothingCounted(g) && g.journal == []
    ensures var m := Micros(Machine(Begin(g), Top), world, n); CountsEffects(m.g.metrics, m.g.journal)
  {
    var inv := (m: Machine) => CountsEffects(m.g.metrics, m.g.journal);
    forall m {:trigger Micro(m, world)} | inv(m) ensures inv(Micro(m, world)) {
      StepHasOneEffect(m, world);
      EffectsStayCounted(m.g, Micro(m, world).g);
    }
    MicrosKeep(inv, world, Machine(Begin(g), Top), n);
  }

  // --- events, in order ---

  /** The events whose live publish was tried, and those among them for which it failed. */
  function Tried(journal: seq<Action>): seq<Event> {
    if journal == [] then [] else
    var last := journal[|journal| - 1];
    Tried(journal[..|journal| - 1]) + (if last.Live? then [last.event] else [])
  }

  function Failed(journal: seq<Action>): seq<Event> {
    if journal == [] then [] else
    var last := journal[|journal| - 1];
    Failed(journal[..|journal| - 1]) + (if IsFailed(last) then [last.event] else [])
  }

  /** The events that were inserted, as the rows carry them. */
  function Inserted(journal: seq<Action>): seq<Event> {
    if journal == [] then [] else
    var last := journal[|journal| - 1];
    Inserted(journal[..|journal| - 1]) + (if last.Stored? then [last.row.payload] else [])
  }

  lemma EventsAppend(journal: seq<Action>, a: Action)
    ensures Tried(journal + [a]) == Tried(journal) + (if a.Live? then [a.event] else [])
    ensures Failed(journal + [a]) == Failed(journal) + (if IsFailed(a) then [a.event] else [])
    ensures Inserted(journal + [a]) == Inserted(journal) + (if a.Stored? then [a.row.payload] else [])
  {
    assert (journal + [a])[..|journal|] == journal;
  }

  /** The event in hand, before its publish and before its insert. */
  function InHand(pc: Pc): seq<Event> {
    if pc.Publishing? then [pc.event] else []
  }

  function ToStore(pc: Pc): seq<Event> {
    if pc.Storing? then [pc.event] else []
  }

  /** The event the next step accepts, if any: what its frame says. */
  function Admitted(m: Machine, world: World): seq<Event> {
    var g := m.g;
    if Taken(m, world) == [] || !CarriesValidWord(Taken(m, world)[0]) then [] else
    [Receive(Taken(m, world)[0], Context(g.minted, g.sessionId, g.vehicleId, world(g.cursor).now)).event]
  }

  function EventsAdmitted(start: Machine, world: World, n: nat): seq<Event> {
    if n == 0 then [] else EventsAdmitted(start, world, n - 1) + Admitted(Micros(start, world, n - 1), world)
  }

  ghost predicate PassesOn(m: Machine, admitted: seq<Event>) {
    && Tried(m.g.journal) + InHand(m.pc) == admitted
    && Inserted(m.g.journal) + ToStore(m.pc) == Failed(m.g.journal)
  }

  lemma AdmissionPassesOn(m: Machine, world: World, admitted: seq<Event>)
    requires PassesOn(m, admitted) && m.pc.Receiving?
    ensures PassesOn(Micro(m, world), admitted + Admitted(m, world))
  {
    var g := m.g;
    if world(g.cursor).frame.Some? {
      var context := Context(g.minted, g.sessionId, g.vehicleId, world(g.cursor).now);
      ReceiveIsExact(world(g.cursor).frame.value, context);
      EventsAppend(g.journal, Refused(g.minted));
    }
  }

  lemma PublishPassesOn(m: Machine, world: World, admitted: seq<Event>)
    requires PassesOn(m, admitted) && m.pc.Publishing?
    ensures PassesOn(Micro(m, world), admitted)
  {
    EventsAppend(m.g.journal, Live(m.pc.event, SendSucceeds(m.g, world)));
  }

  lemma StorePassesOn(m: Machine, world: World, admitted: seq<Event>)
    requires PassesOn(m, admitted) && m.pc.Storing?
    ensures PassesOn(Micro(m, world), admitted)
  {
    var g, event := m.g, m.pc.event;
    StoreAdds(g, event);
    assert Micro(m, world) == Machine(Store(g, event), Top);
    assert InHand(m.pc) == [] && ToStore(m.pc) == [event];
  }

  lemma StoreAdds(g: Gateway, event: Event)
    ensures var after := Store(g, event).journal;
            Tried(after) == Tried(g.journal) && Failed(after) == Failed(g.journal) &&
            Inserted(after) == Inserted(g.journal) + [event]
  {
    var row := NewRow(g.table, event);
    EventsAppend(g.journal, Stored(row, Trimmed(g.table, g.maxSize, row)));
  }

  /** Every other step has at most one effect, no live publish and no insert. */
  lemma OthersEffect(m: Machine, world: World) returns (more: seq<Action>)
    requires !m.pc.Receiving? && !m.pc.Publishing? && !m.pc.Storing?
    ensures Micro(m, world).g.journal == m.g.journal + more
    ensures more == [] || (|more| == 1 && !more[0].Live? && !more[0].Stored?)
  {
    more := Micro(m, world).g.journal[|m.g.journal|..];
    if more == [] {
      assert m.g.journal + [] == m.g.journal;
    }
  }

  lemma OthersPassOn(m: Machine, world: World, admitted: seq<Event>)
    requires PassesOn(m, admitted) && !m.pc.Receiving? && !m.pc.Publishing? && !m.pc.Storing?
    ensures PassesOn(Micro(m, world), admitted)
  {
    var more := OthersEffect(m, world);
    NoEvents(m.g.journal, more);
    assert InHand(Micro(m, world).pc) == [] && ToStore(Micro(m, world).pc) == [];
  }

  lemma NoEvents(journal: seq<Action>, more: seq<Action>)
    requires more == [] || (|more| == 1 && !more[0].Live? && !more[0].Stored?)
    ensures Tried(journal + more) == Tried(journal) && Failed(journal + more) == Failed(journal)
    ensures Inserted(journal + more) == Inserted(journal)
  {
    if more == [] {
      assert journal + more == journal;
    } else {
      assert more == [more[0]];
      EventsAppend(journal, more[0]);
    }
  }

  lemma StepPassesOn(m: Machine, world: World, admitted: seq<Event>)
    requires PassesOn(m, admitted)
    ensures PassesOn(Micro(m, world), admitted + Admitted(m, world))
  {
    assert !m.pc.Receiving? ==> admitted + Admitted(m, world) == admitted;
    match m.pc
    case Receiving => AdmissionPassesOn(m, world, admitted);
    case Publishing(_) => PublishPassesOn(m, world, admitted);
    case Storing(_) => StorePassesOn(m, world, admitted);
    case _ => OthersPassOn(m, world, admitted);
  }

  ghost predicate PassedOn(start: Machine, world: World, m: Machine, k: nat) {
    PassesOn(m, EventsAdmitted(start, world, k))
  }

  lemma EventsAdmittedNext(start: Machine, world: World, m: Machine, k: nat)
    requires m == Micros(start, world, k)
    ensures EventsAdmitted(start, world, k + 1) == EventsAdmitted(start, world, k) + Admitted(m, world)
  {
  }

  lemma PassedOnNext(start: Machine, world: World, m: Machine, k: nat)
    requires m == Micros(start, world, k) && PassedOn(start, world, m, k)
    ensures PassedOn(start, world, Micro(m, world), k + 1)
  {
    StepPassesOn(m, world, EventsAdmitted(start, world, k));
    EventsAdmittedNext(start, world, m, k);
  }

  lemma StaysPassedOn(start: Machine, world: World, n: nat)
    requires PassedOn(start, world, start, 0)
    ensures PassedOn(start, world, Micros(start, world, n), n)
  {
    var inv := (m: Machine, k: nat) => PassedOn(start, world, m, k);
    forall k: nat {:trigger Micros(start, world, k)} | inv(Micros(start, world, k), k)
      ensures inv(Micro(Micros(start, world, k), world), k + 1) {
      PassedOnNext(start, world, Micros(start, world, k), k);
    }
    MicrosKeepFrom(inv, world, start, n);
  }

  /** At every atomic step of every run: the events of the accepted frames are
      tried to be published, each once, unchanged and in order of reception,
      and those whose publish failed are inserted in the same order; at most
      the one in hand is still to come. */
  lemma EventsArePassedOn(g: Gateway, world: World, n: nat)
    requires g.journal == []
    ensures var start := Machine(Begin(g), Top);
            PassesOn(Micros(start, world, n), EventsAdmitted(start, world, n))
  {
    var start := Machine(Begin(g), Top);
    assert EventsAdmitted(start, world, 0) == [] && Tried([]) == Failed([]) == Inserted([]) == [];
    StaysPassedOn(start, world, n);
  }

  // --- rows say what their events say ---

  ghost predicate SaysItsEvent(row: Row) {
    && row.eventId == row.payload.eventId
    && row.topic.vehicleId == row.payload.vehicleId && row.topic.ecu == row.payload.ecu
    && row.topic.signal == row.payload.signal
  }

  ghost predicate AllSay(rows: seq<Row>) {
    forall i :: 0 <= i < |rows| ==> SaysItsEvent(rows[i])
  }

  ghost predicate EffectSays(a: Action) {
    match a
    case Stored(row, trimmed) => SaysItsEvent(row) && AllSay(trimmed)
    case Resent(row, _) => SaysItsEvent(row)
    case Deleted(rows) => AllSay(rows)
    case _ => true
  }

  ghost predicate JournalSays(journal: seq<Action>) {
    forall i :: 0 <= i < |journal| ==> EffectSays(journal[i])
  }

  ghost predicate TableSays(t: Table, batch: seq<Row>) {
    WellFormed(t) && AllSay(t.rows) && AllSay(batch)
  }

  /** The rows of the table, of the batch in progress and of the journal. */
  ghost predicate RowsSay(m: Machine) {
    TableSays(m.g.table, BatchRows(m.pc)) && JournalSays(m.g.journal)
  }

  lemma EffectSaysToo(g: Gateway, g': Gateway, a: Action)
    requires JournalSays(g.journal) && EffectSays(a) && g'.journal == g.journal + [a]
    ensures JournalSays(g'.journal)
  {
  }

  lemma AllSayParts(front: seq<Row>, row: Row, rest: seq<Row>)
    requires AllSay(front + [row] + rest)
    ensures AllSay(front) && SaysItsEvent(row)
  {
    var all := front + [row] + rest;
    assert all[|front|] == row;
    assert forall i :: 0 <= i < |front| ==> all[i] == front[i];
  }

  lemma TableSaysAfterStore(t: Table, maxSize: int, event: Event)
    requires WellFormed(t) && AllSay(t.rows)
    ensures TableSays(WithEvent(t, maxSize, event), [])
    ensures SaysItsEvent(NewRow(t, event)) && AllSay(Trimmed(t, maxSize, NewRow(t, event)))
  {
    WithEventRows(t, maxSize, event);
    var longer := t.rows + [NewRow(t, event)];
    assert AllSay(longer);
  }

  lemma StoreSays(g: Gateway, event: Event)
    requires JournalSays(g.journal) && SaysItsEvent(NewRow(g.table, event))
    requires AllSay(Trimmed(g.table, g.maxSize, NewRow(g.table, event)))
    ensures JournalSays(Store(g, event).journal) && Store(g, event).table == WithEvent(g.table, g.maxSize, event)
  {
    var row := NewRow(g.table, event);
    EffectSaysToo(g, Store(g, event), Stored(row, Trimmed(g.table, g.maxSize, row)));
  }

  lemma StoredRowSays(m: Machine, world: World)
    requires RowsSay(m) && m.pc.Storing?
    ensures RowsSay(Micro(m, world))
  {
    var g, event := m.g, m.pc.event;
    TableSaysAfterStore(g.table, g.maxSize, event);
    StoreSays(g, event);
    assert Micro(m, world) == Machine(Store(g, event), Top);
  }

  lemma ResentRowSays(m: Machine, world: World)
    requires RowsSay(m) && m.pc.Resending?
    ensures RowsSay(Micro(m, world))
  {
    AllSayParts(m.pc.sent, m.pc.row, m.pc.rest);
    EffectSaysToo(m.g, Resend(m.g, world, m.pc.row), Resent(m.pc.row, SendSucceeds(m.g, world)));
  }

  lemma TableSaysAfterDelete(t: Table, sent: seq<Row>)
    requires TableSays(t, sent)
    ensures TableSays(Removed(t, Ids(sent)), [])
  {
    DeleteIdsKeepsRows(t.rows, Ids(sent));
    RemoveKeepsWellFormed(t, Ids(sent));
    var kept := DeleteIds(t.rows, Ids(sent));
    forall i | 0 <= i < |kept| ensures SaysItsEvent(kept[i]) {
      assert kept[i] in t.rows;
    }
  }

  lemma RemovedRowsSay(m: Machine, world: World)
    requires RowsSay(m) && m.pc.Removing?
    ensures RowsSay(Micro(m, world))
  {
    if m.pc.sent != [] {
      TableSaysAfterDelete(m.g.table, m.pc.sent);
      EffectSaysToo(m.g, DeleteConfirmed(m.g, m.pc.sent), Deleted(m.pc.sent));
    }
  }

  lemma BatchRowsSay(m: Machine, world: World)
    requires RowsSay(m) && (m.pc.Peeking? || m.pc.Checking?)
    ensures RowsSay(Micro(m, world))
  {
    if m.pc.Peeking? {
      var batch := Oldest(m.g.table.rows, REPLAY_BATCH_SIZE);
      assert [] + batch == batch;
    } else if m.pc.pending == [] {
      assert m.pc.sent + [] == m.pc.sent;
    } else {
      assert m.pc.sent + m.pc.pending == m.pc.sent + [m.pc.pending[0]] + m.pc.pending[1..];
      AllSayParts(m.pc.sent, m.pc.pending[0], m.pc.pending[1..]);
    }
  }

  lemma OtherRowsSay(m: Machine, world: World)
    requires RowsSay(m)
    requires m.pc.Top? || m.pc.Reconnecting? || m.pc.CheckReplay? || m.pc.Receiving? || m.pc.Publishing?
    ensures RowsSay(Micro(m, world))
  {
  }

  lemma RowsSayStep(m: Machine, world: World)
    requires RowsSay(m)
    ensures RowsSay(Micro(m, world))
  {
    match m.pc
    case Storing(_) => StoredRowSays(m, world);
    case Resending(_, _, _) => ResentRowSays(m, world);
    case Removing(_, _) => RemovedRowsSay(m, world);
    case Peeking => BatchRowsSay(m, world);
    case Checking(_, _) => BatchRowsSay(m, world);
    case _ => OtherRowsSay(m, world);
  }

  /** At every atomic step of every run, every row stored, kept, sent again or
      deleted carries the id and the topic of the very event it carries. */
  lemma RowsSayTheirEvents(g: Gateway, world: World, n: nat)
    requires g.journal == [] && WellFormed(g.table) && AllSay(g.table.rows)
    ensures RowsSay(Micros(Machine(Begin(g), Top), world, n))
  {
    var inv := m => RowsSay(m);
    forall m {:trigger Micro(m, world)} | inv(m) ensures inv(Micro(m, world)) {
      RowsSayStep(m, world);
    }
    MicrosKeep(inv, world, Machine(Begin(g), Top), n);
  }
}
