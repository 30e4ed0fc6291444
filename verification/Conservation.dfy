/** The gateway's counters account for every frame and every row. */
module Conservation {
  import opened Telemetry
  import opened Ingestion
  import opened TelemetryBuffers
  import opened Gateways
  import opened DeliveryOrder
  import opened CrashSafety
  import opened Ecus
  import opened CanSignalMap

  /** Rows: what was there, plus buffered, minus replayed, minus dropped; while
      a replay is running the table also still holds the confirmed rows that
      are not deleted yet. */
  predicate RowsBalance(g: Gateway, initial: nat, undeleted: nat) {
    |g.table.rows| == initial + g.metrics.buffered - g.metrics.replayed - g.dropped + undeleted
  }

  /** Frames: each one received is ignored, rejected, published or counted as
      a publish failure; while a publish is running one is still open, and
      between a failed publish and the insert one failure is not yet buffered. */
  predicate FramesBalance(g: Gateway, publishing: nat, storing: nat) {
    && g.received == g.ignored + g.metrics.rejected + g.metrics.processed + g.metrics.publishFailures + publishing
    && g.metrics.publishFailures == g.metrics.buffered + storing
  }

  ghost predicate Sound(m: Machine, initial: nat) {
    && WellFormed(m.g.table) && m.g.maxSize >= 0
    && BatchRows(m.pc) <= m.g.table.rows
    && RowsBalance(m.g, initial, |SentRows(m.pc)|)
    && FramesBalance(m.g, if m.pc.Publishing? then 1 else 0, if m.pc.Storing? then 1 else 0)
  }

  lemma SoundResend(g: Gateway, world: World, sent: seq<Row>, row: Row, rest: seq<Row>, initial: nat)
    requires Sound(Machine(g, Resending(sent, row, rest)), initial)
    ensures Sound(Micro(Machine(g, Resending(sent, row, rest)), world), initial)
  {
    NextInBatch(g.table.rows, sent, row, rest);
  }

  lemma SoundRemove(g: Gateway, world: World, sent: seq<Row>, complete: bool, initial: nat)
    requires Sound(Machine(g, Removing(sent, complete)), initial)
    ensures Sound(Micro(Machine(g, Removing(sent, complete)), world), initial)
  {
    ConfirmedAreDeleted(g.table, sent);
  }

  lemma SoundStore(g: Gateway, world: World, event: Event, initial: nat)
    requires Sound(Machine(g, Storing(event)), initial)
    ensures Sound(Micro(Machine(g, Storing(event)), world), initial)
  {
    WithEventRows(g.table, g.maxSize, event);
  }

  lemma SoundChecking(m: Machine, world: World, initial: nat)
    requires m.pc.Checking? && Sound(m, initial)
    ensures Sound(Micro(m, world), initial)
  {
    CheckedBatch(m.g.table.rows, m.pc.sent, m.pc.pending);
  }

  lemma SoundPeek(m: Machine, world: World, initial: nat)
    requires m.pc.Peeking? && Sound(m, initial)
    ensures Sound(Micro(m, world), initial)
  {
    var batch := Oldest(m.g.table.rows, REPLAY_BATCH_SIZE);
    assert BatchRows(Checking([], batch)) == batch;
  }

  lemma SoundPublish(g: Gateway, world: World, event: Event, initial: nat)
    requires Sound(Machine(g, Publishing(event)), initial)
    ensures Sound(Micro(Machine(g, Publishing(event)), world), initial)
  {
  }

  /** The steps that move no row. */
  lemma SoundControl(m: Machine, world: World, initial: nat)
    requires m.pc.Top? || m.pc.Reconnecting? || m.pc.CheckReplay? || m.pc.Receiving?
    requires Sound(m, initial)
    ensures Sound(Micro(m, world), initial)
  {
  }

  lemma SoundStep(m: Machine, world: World, initial: nat)
    requires Sound(m, initial)
    ensures Sound(Micro(m, world), initial)
  {
    match m.pc
    case Peeking => SoundPeek(m, world, initial);
    case Checking(_, _) => SoundChecking(m, world, initial);
    case Resending(sent, row, rest) => SoundResend(m.g, world, sent, row, rest, initial);
    case Removing(sent, complete) => SoundRemove(m.g, world, sent, complete, initial);
    case Storing(event) => SoundStore(m.g, world, event, initial);
    case Publishing(event) => SoundPublish(m.g, world, event, initial);
    case _ => SoundControl(m, world, initial);
  }

  /** A process that has counted nothing yet. */
  predicate NothingCounted(g: Gateway) {
    g.metrics == NO_METRICS && g.dropped == 0 && g.received == 0 && g.ignored == 0
  }

  lemma SoundAlways(g: Gateway, world: World, n: nat)
    requires WellFormed(g.table) && g.maxSize >= 0 && NothingCounted(g)
    ensures Sound(Micros(Machine(Begin(g), Top), world, n), |g.table.rows|)
    ensures Sound(Machine(Iterate(Begin(g), world, n), Top), |g.table.rows|)
  {
    var inv := m => Sound(m, |g.table.rows|);
    forall m {:trigger Micro(m, world)} | inv(m) ensures inv(Micro(m, world)) {
      SoundStep(m, world, |g.table.rows|);
    }
    MicrosKeep(inv, world, Machine(Begin(g), Top), n);
    IterateKeeps(inv, world, Begin(g), n);
  }

  /** After every iteration of every run, faulty or not. */
  lemma CountersBalanceAtBoundaries(g: Gateway, world: World, n: nat)
    requires WellFormed(g.table) && g.maxSize >= 0 && NothingCounted(g)
    ensures var after := Iterate(Begin(g), world, n);
            && |after.table.rows| == |g.table.rows| + after.metrics.buffered - after.metrics.replayed - after.dropped
            && after.metrics.buffered == after.metrics.publishFailures
            && after.received == after.ignored + after.metrics.rejected + after.metrics.processed +
               after.metrics.publishFailures
  {
    SoundAlways(g, world, n);
  }

  /** At every atomic step of a replay the table exceeds the balance by exactly
      the rows that are confirmed and not yet deleted. */
  lemma ReplayExceedsBalanceByUndeleted(g: Gateway, world: World, n: nat)
    requires WellFormed(g.table) && g.maxSize >= 0 && NothingCounted(g)
    ensures var m := Micros(Machine(Begin(g), Top), world, n);
            && SentRows(m.pc) <= m.g.table.rows
            && |m.g.table.rows| - (|g.table.rows| + m.g.metrics.buffered - m.g.metrics.replayed - m.g.dropped) ==
               |SentRows(m.pc)|
  {
    SoundAlways(g, world, n);
    var m := Micros(Machine(Begin(g), Top), world, n);
    match m.pc {
      case Checking(sent, pending) => CheckedBatch(m.g.table.rows, sent, pending);
      case Resending(sent, row, rest) => NextInBatch(m.g.table.rows, sent, row, rest);
      case _ =>
    }
  }

  // --- the drop counter ---

  /** How many rows the inserts of a journal trimmed. */
  function TrimmedIn(journal: seq<Action>): nat {
    if journal == [] then 0 else
    var last := journal[|journal| - 1];
    TrimmedIn(journal[..|journal| - 1]) + (if last.Stored? then |last.trimmed| else 0)
  }

  ghost predicate DropsAreTrims(m: Machine) {
    m.g.maxSize >= 0 && m.g.dropped == TrimmedIn(m.g.journal)
  }

  /** Every other step drops nothing and enters no insert. */
  lemma OthersDropNothing(m: Machine, world: World) returns (more: seq<Action>)
    requires !m.pc.Storing?
    ensures var g' := Micro(m, world).g;
            g'.maxSize == m.g.maxSize && g'.dropped == m.g.dropped && g'.journal == m.g.journal + more
    ensures more == [] || (|more| == 1 && !more[0].Stored?)
  {
    more := Micro(m, world).g.journal[|m.g.journal|..];
    match m.pc
    case Reconnecting => assert m.g.journal + [] == m.g.journal;
    case _ =>
  }

  lemma DropsStep(m: Machine, world: World)
    requires DropsAreTrims(m)
    ensures DropsAreTrims(Micro(m, world))
  {
    match m.pc
    case Storing(event) =>
    case _ =>
      var more := OthersDropNothing(m, world);
      DropsUnchanged(m, Micro(m, world), more);
  }

  lemma DropsUnchanged(m: Machine, m': Machine, more: seq<Action>)
    requires DropsAreTrims(m) && (more == [] || (|more| == 1 && !more[0].Stored?))
    requires m'.g.maxSize == m.g.maxSize && m'.g.dropped == m.g.dropped && m'.g.journal == m.g.journal + more
    ensures DropsAreTrims(m')
  {
    NoInsertNoTrim(m.g.journal, more);
  }

  lemma NoInsertNoTrim(journal: seq<Action>, more: seq<Action>)
    requires more == [] || (|more| == 1 && !more[0].Stored?)
    ensures TrimmedIn(journal + more) == TrimmedIn(journal)
  {
    if more == [] {
      assert journal + more == journal;
    } else {
      assert more == [more[0]];
    }
  }

  /** At every atomic step and every boundary of every run, the drop count is
      the number of rows the run's inserts trimmed. */
  lemma DropCountIsExactOverRuns(g: Gateway, world: World, n: nat)
    requires g.maxSize >= 0 && g.dropped == 0 && g.journal == []
    ensures var m := Micros(Machine(Begin(g), Top), world, n); m.g.dropped == TrimmedIn(m.g.journal)
    ensures var after := Iterate(Begin(g), world, n); after.dropped == TrimmedIn(after.journal)
  {
    var inv := m => DropsAreTrims(m);
    forall m {:trigger Micro(m, world)} | inv(m) ensures inv(Micro(m, world)) {
      DropsStep(m, world);
    }
    assert TrimmedIn([]) == 0;
    MicrosKeep(inv, world, Machine(Begin(g), Top), n);
    IterateKeeps(inv, world, Begin(g), n);
  }

  // --- from the ECUs to the counters ---

  /** A reading that one of the three ECUs sends: battery and powertrain from
      any state, the body ECU after at most the safe number of ticks. */
  ghost predicate SentByEcu(r: Reading) {
    || (exists s: BatteryState, d: BatteryDraws :: r in BatteryReadings(BatteryNext(s, d)))
    || (exists s: PowertrainState, d: PowertrainDraws :: r in PowertrainReadings(PowertrainNext(s, d)))
    || (exists draws: seq<BodyDraws> :: |draws| <= ODOMETER_SAFE_TICKS && r in BodyReadings(BodyAfter(draws)))
  }

  lemma SentIsDelivered(r: Reading)
    requires SentByEcu(r)
    ensures Delivered(r)
  {
    if s: BatteryState, d: BatteryDraws :| r in BatteryReadings(BatteryNext(s, d)) {
      BatteryTickIsDelivered(s, d);
    } else if s: PowertrainState, d: PowertrainDraws :| r in PowertrainReadings(PowertrainNext(s, d)) {
      PowertrainTickIsDelivered(s, d);
    } else {
      var draws: seq<BodyDraws> :| |draws| <= ODOMETER_SAFE_TICKS && r in BodyReadings(BodyAfter(draws));
      BodyTickIsDelivered(draws);
      OdometerIsDelivered(draws);
    }
  }

  /** Every frame on the bus is the encoding of a reading some ECU sends. */
  ghost predicate OnlyEcuFrames(world: World) {
    forall i {:trigger world(i)} :: world(i).frame.Some? ==>
      exists r: Reading {:trigger SentByEcu(r)} :: SentByEcu(r) &&
        world(i).frame.value.canId == r.canId && Encode(r.canId, r.value) == Ok(world(i).frame.value.data)
  }

  ghost predicate NoneRefused(m: Machine) {
    m.g.ignored == 0 && m.g.metrics.rejected == 0
  }

  lemma EcuFrameIsAdmitted(g: Gateway, world: World)
    requires OnlyEcuFrames(world)
    ensures Arrived(g, world).Some? ==> Arrived(g, world).value.Accepted?
  {
    var m := world(g.cursor);
    if m.frame.Some? {
      var r: Reading :| SentByEcu(r) && m.frame.value.canId == r.canId
        && Encode(r.canId, r.value) == Ok(m.frame.value.data);
      SentIsDelivered(r);
      AcceptanceIgnoresContext(m.frame.value, Context(g.minted, g.sessionId, g.vehicleId, m.now));
    }
  }

  lemma NoneRefusedStep(m: Machine, world: World)
    requires OnlyEcuFrames(world) && NoneRefused(m)
    ensures NoneRefused(Micro(m, world))
  {
    if m.pc.Receiving? {
      EcuFrameIsAdmitted(m.g, world);
    }
  }

  /** When the bus carries only what the ECUs send, no event is ever rejected
      or ignored, so every frame is published or buffered. */
  lemma EcuTrafficIsNeverRejected(g: Gateway, world: World, n: nat)
    requires WellFormed(g.table) && g.maxSize >= 0 && NothingCounted(g) && OnlyEcuFrames(world)
    ensures var after := Iterate(Begin(g), world, n);
            && after.metrics.rejected == 0
            && after.received == after.metrics.processed + after.metrics.buffered
  {
    var inv := m => NoneRefused(m);
    forall m {:trigger Micro(m, world)} | inv(m) ensures inv(Micro(m, world)) {
      NoneRefusedStep(m, world);
    }
    IterateKeeps(inv, world, Begin(g), n);
    CountersBalanceAtBoundaries(g, world, n);
  }
}
