/** The order of acknowledgements over any number of crashes and restarts:
    a crash can repeat acknowledgements, but never reorders them. */
module OrderAcrossCrashes {
  import opened Telemetry
  import opened Ingestion
  import opened TelemetryBuffers
  import opened Gateways
  import opened DeliveryOrder
  import opened CrashSafety

  /** Of the rows exactly the first n were acknowledged before (by a process
      that was killed, or in the replay in progress); everything acknowledged
      is older than the others. */
  ghost predicate AckedPrefix(rows: seq<Row>, acked: seq<nat>, n: nat) {
    && n <= |rows|
    && (forall i :: 0 <= i < n ==> rows[i].eventId in acked)
    && (forall i :: n <= i < |rows| ==> AllBelow(acked, rows[i].eventId))
  }

  ghost predicate Arranged(t: Table, acked: seq<nat>, minted: nat, n: nat, sent: nat, batch: seq<Row>,
                           candidate: Option<nat>) {
    && WellFormed(t) && RowsInOrder(t.rows, minted) && AllBelow(acked, minted) && Ascending(Firsts(acked))
    && AckedPrefix(t.rows, acked, n) && sent <= n && sent <= |batch| && batch <= t.rows
    && (candidate.Some? ==>
          candidate.value < minted && RowsInOrder(t.rows, candidate.value) && AllBelow(acked, candidate.value))
  }

  function Acked(past: seq<Action>, journal: seq<Action>): seq<nat> {
    Acknowledgements(past + journal)
  }

  ghost predicate ArrangedAt(m: Machine, past: seq<Action>, n: nat) {
    Arranged(m.g.table, Acked(past, m.g.journal), m.g.minted, n, |SentRows(m.pc)|, BatchRows(m.pc), Candidate(m.pc))
  }

  ghost predicate ArrangedMachine(m: Machine, past: seq<Action>) {
    Gate(m) && exists n: nat :: ArrangedAt(m, past, n)
  }

  lemma AckedSame(past: seq<Action>, journal: seq<Action>, a: Action)
    requires !(a.Live? && a.acked) && !(a.Resent? && a.acked)
    ensures Acked(past, journal + [a]) == Acked(past, journal)
  {
    assert past + (journal + [a]) == (past + journal) + [a];
  }

  lemma AckedMore(past: seq<Action>, journal: seq<Action>, a: Action)
    requires (a.Live? && a.acked) || (a.Resent? && a.acked)
    ensures Acked(past, journal + [a]) == Acked(past, journal) + [if a.Live? then a.event.eventId else a.row.eventId]
  {
    assert past + (journal + [a]) == (past + journal) + [a];
    AcksMore(past + journal, a);
  }

  lemma Conclude(m: Machine, past: seq<Action>, acked: seq<nat>, n: nat)
    requires Acked(past, m.g.journal) == acked
    requires Arranged(m.g.table, acked, m.g.minted, n, |SentRows(m.pc)|, BatchRows(m.pc), Candidate(m.pc))
    ensures ArrangedAt(m, past, n)
  {
  }

  // --- acknowledgements ---

  lemma BelowMinted(acked: seq<nat>, x: nat, minted: nat)
    requires AllBelow(acked, minted) && x < minted
    ensures AllBelow(acked + [x], minted)
  {
  }

  lemma ArrangedResend(t: Table, acked: seq<nat>, minted: nat, n: nat, sent: seq<Row>, row: Row, rest: seq<Row>)
    requires Arranged(t, acked, minted, n, |sent|, sent + [row] + rest, None)
    ensures Arranged(t, acked + [row.eventId], minted, if |sent| < n then n else n + 1,
                     |sent + [row]|, (sent + [row]) + rest, None)
    ensures Arranged(t, acked, minted, n, |sent|, sent, None)
  {
    NextInBatch(t.rows, sent, row, rest);
    BelowMinted(acked, row.eventId, minted);
    if |sent| < n {
    } else {
      NewFirst(acked, row.eventId);
    }
  }

  // --- the table ---

  lemma SuffixPrefix(rows: seq<Row>, acked: seq<nat>, n: nat, k: nat, minted: nat)
    requires AckedPrefix(rows, acked, n) && RowsInOrder(rows, minted) && k <= |rows|
    ensures AckedPrefix(rows[k..], acked, if n < k then 0 else n - k) && RowsInOrder(rows[k..], minted)
  {
    forall i | 0 <= i < |rows| - k ensures rows[k..][i] == rows[k + i] {
    }
  }

  lemma ArrangedDelete(t: Table, acked: seq<nat>, minted: nat, n: nat, sent: seq<Row>)
    requires Arranged(t, acked, minted, n, |sent|, sent, None)
    ensures Arranged(Removed(t, Ids(sent)), acked, minted, n - |sent|, 0, [], None)
  {
    ConfirmedAreDeleted(t, sent);
    SuffixPrefix(t.rows, acked, n, |sent|, minted);
  }

  lemma ArrangedStore(t: Table, acked: seq<nat>, minted: nat, n: nat, maxSize: int, event: Event) returns (n': nat)
    requires Arranged(t, acked, minted, n, 0, [], Some(event.eventId))
    ensures Arranged(WithEvent(t, maxSize, event), acked, minted, n', 0, [], None)
  {
    var longer, after := t.rows + [NewRow(t, event)], WithEvent(t, maxSize, event);
    WithEventRows(t, maxSize, event);
    var k: nat := |longer| - |after.rows|;
    LastNIsSuffix(longer, maxSize);
    SuffixPrefix(longer, acked, n, k, minted);
    n' := if n < k then 0 else n - k;
  }

  lemma ArrangedPublish(t: Table, acked: seq<nat>, minted: nat, n: nat, eventId: nat)
    requires Arranged(t, acked, minted, n, 0, [], Some(eventId)) && t.rows == []
    ensures Arranged(t, acked + [eventId], minted, n, 0, [], None)
  {
    NewFirst(acked, eventId);
    BelowMinted(acked, eventId, minted);
  }

  // --- the atomic steps ---

  /** A step that leaves table, acknowledgements and minted ids alone. */
  lemma ArrangedSame(m: Machine, m': Machine, past: seq<Action>, n: nat)
    requires ArrangedAt(m, past, n) && m'.g.table == m.g.table && m'.g.minted == m.g.minted
    requires Acked(past, m'.g.journal) == Acked(past, m.g.journal)
    requires |SentRows(m'.pc)| == |SentRows(m.pc)| <= |BatchRows(m'.pc)| && BatchRows(m'.pc) <= m.g.table.rows
    requires Candidate(m'.pc) == Candidate(m.pc)
    ensures ArrangedAt(m', past, n)
  {
  }

  lemma ResendStep(g: Gateway, world: World, sent: seq<Row>, row: Row, rest: seq<Row>, past: seq<Action>, n: nat)
    returns (n': nat)
    requires ArrangedAt(Machine(g, Resending(sent, row, rest)), past, n)
    ensures ArrangedAt(Machine(Resend(g, world, row),
                               if SendSucceeds(g, world) then Checking(sent + [row], rest) else Removing(sent, false)),
                       past, n')
  {
    if SendSucceeds(g, world) {
      AckedMore(past, g.journal, Resent(row, true));
      n' := RowConfirmed(Resend(g, world, row), Acked(past, g.journal), sent, row, rest, past, n);
    } else {
      AckedSame(past, g.journal, Resent(row, false));
      n' := n;
    }
  }

  lemma RowConfirmed(after: Gateway, acked: seq<nat>, sent: seq<Row>, row: Row, rest: seq<Row>, past: seq<Action>,
                     n: nat) returns (n': nat)
    requires Arranged(after.table, acked, after.minted, n, |sent|, sent + [row] + rest, None)
    requires Acked(past, after.journal) == acked + [row.eventId]
    ensures ArrangedAt(Machine(after, Checking(sent + [row], rest)), past, n')
  {
    ArrangedResend(after.table, acked, after.minted, n, sent, row, rest);
    n' := if |sent| < n then n else n + 1;
    Conclude(Machine(after, Checking(sent + [row], rest)), past, acked + [row.eventId], n');
  }

  lemma RemoveStep(g: Gateway, sent: seq<Row>, complete: bool, past: seq<Action>, n: nat) returns (n': nat)
    requires ArrangedAt(Machine(g, Removing(sent, complete)), past, n)
    ensures ArrangedAt(Machine(DeleteConfirmed(g, sent), if complete then Peeking else Receiving), past, n')
  {
    var pc := if complete then Peeking else Receiving;
    if sent == [] {
      n' := n;
      NothingDeleted(g, complete, pc, past, n);
    } else {
      n' := n - |sent|;
      AckedSame(past, g.journal, Deleted(sent));
      RowsDeleted(g.table, DeleteConfirmed(g, sent), Acked(past, g.journal), sent, pc, past, n);
    }
  }

  lemma NothingDeleted(g: Gateway, complete: bool, pc: Pc, past: seq<Action>, n: nat)
    requires ArrangedAt(Machine(g, Removing([], complete)), past, n) && (pc == Peeking || pc == Receiving)
    ensures ArrangedAt(Machine(g, pc), past, n)
  {
  }

  lemma RowsDeleted(before: Table, after: Gateway, acked: seq<nat>, sent: seq<Row>, pc: Pc, past: seq<Action>, n: nat)
    requires Arranged(before, acked, after.minted, n, |sent|, sent, None) && after.table == Removed(before, Ids(sent))
    requires Acked(past, after.journal) == acked && (pc == Peeking || pc == Receiving)
    ensures ArrangedAt(Machine(after, pc), past, n - |sent|)
  {
    ArrangedDelete(before, acked, after.minted, n, sent);
    Conclude(Machine(after, pc), past, acked, n - |sent|);
  }

  lemma StoreStep(g: Gateway, event: Event, past: seq<Action>, n: nat) returns (n': nat)
    requires ArrangedAt(Machine(g, Storing(event)), past, n)
    ensures ArrangedAt(Machine(Store(g, event), Top), past, n')
  {
    var row := NewRow(g.table, event);
    AckedSame(past, g.journal, Stored(row, Trimmed(g.table, g.maxSize, row)));
    n' := ArrangedStore(g.table, Acked(past, g.journal), g.minted, n, g.maxSize, event);
    assert Store(g, event).table == WithEvent(g.table, g.maxSize, event);
    Conclude(Machine(Store(g, event), Top), past, Acked(past, g.journal), n');
  }

  lemma PublishStep(g: Gateway, world: World, event: Event, past: seq<Action>, n: nat)
    requires ArrangedAt(Machine(g, Publishing(event)), past, n) && (SendSucceeds(g, world) ==> g.table.rows == [])
    ensures ArrangedAt(Machine(PublishLive(g, world, event), if SendSucceeds(g, world) then Top else Storing(event)),
                       past, n)
  {
    if SendSucceeds(g, world) {
      AckedMore(past, g.journal, Live(event, true));
      EventAcknowledged(PublishLive(g, world, event), Acked(past, g.journal), event, past, n);
    } else {
      AckedSame(past, g.journal, Live(event, false));
      Conclude(Machine(PublishLive(g, world, event), Storing(event)), past, Acked(past, g.journal), n);
    }
  }

  lemma EventAcknowledged(after: Gateway, acked: seq<nat>, event: Event, past: seq<Action>, n: nat)
    requires Arranged(after.table, acked, after.minted, n, 0, [], Some(event.eventId)) && after.table.rows == []
    requires Acked(past, after.journal) == acked + [event.eventId]
    ensures ArrangedAt(Machine(after, Top), past, n)
  {
    ArrangedPublish(after.table, acked, after.minted, n, event.eventId);
    Conclude(Machine(after, Top), past, acked + [event.eventId], n);
  }

  lemma AdmitStep(g: Gateway, world: World, past: seq<Action>, n: nat)
    requires ArrangedAt(Machine(g, Receiving), past, n)
    ensures var arrival := Arrived(g, world);
            ArrangedAt(Machine(Admit(g, world, arrival),
                               if arrival.Some? && arrival.value.Accepted? then Publishing(arrival.value.event)
                               else Top), past, n)
  {
    var arrival, acked := Arrived(g, world), Acked(past, g.journal);
    var g' := Admit(g, world, arrival);
    if arrival.None? || arrival.value.Ignored? {
      Conclude(Machine(g', Top), past, acked, n);
    } else {
      ReceiveKeepsContext(world(g.cursor).frame.value,
                          Context(g.minted, g.sessionId, g.vehicleId, world(g.cursor).now));
      AckedSame(past, g.journal, Refused(arrival.value.event.eventId));
      Conclude(Machine(g', if arrival.value.Accepted? then Publishing(arrival.value.event) else Top), past, acked, n);
    }
  }

  lemma ControlStep(m: Machine, world: World, past: seq<Action>, n: nat)
    requires m.pc.Top? || m.pc.Reconnecting? || m.pc.CheckReplay? || m.pc.Peeking? || m.pc.Checking?
    requires ArrangedAt(m, past, n)
    ensures ArrangedAt(Micro(m, world), past, n)
  {
    var m' := Micro(m, world);
    if m.pc.Checking? {
      CheckingKeeps(m, world);
    } else {
      AckedSame(past, m.g.journal, Reconnection(Attempt(m.g, world).link.connected));
      EntryKeeps(m, world);
    }
    ArrangedSame(m, m', past, n);
  }

  lemma CheckingKeeps(m: Machine, world: World)
    requires m.pc.Checking? && BatchRows(m.pc) <= m.g.table.rows
    ensures var m' := Micro(m, world);
            && m'.g.table == m.g.table && m'.g.minted == m.g.minted && m'.g.journal == m.g.journal
            && SentRows(m'.pc) == SentRows(m.pc) && BatchRows(m'.pc) <= m.g.table.rows
            && |SentRows(m.pc)| <= |BatchRows(m'.pc)| && Candidate(m'.pc) == None
  {
    CheckedBatch(m.g.table.rows, m.pc.sent, m.pc.pending);
  }

  lemma ArrangedStep(m: Machine, world: World, past: seq<Action>, n: nat) returns (n': nat)
    requires ArrangedAt(m, past, n)
    requires m.pc.Publishing? && SendSucceeds(m.g, world) ==> m.g.table.rows == []
    ensures ArrangedAt(Micro(m, world), past, n')
  {
    n' := n;
    match m.pc
    case Resending(sent, row, rest) => n' := ResendStep(m.g, world, sent, row, rest, past, n);
    case Removing(sent, complete) => n' := RemoveStep(m.g, sent, complete, past, n);
    case Storing(event) => n' := StoreStep(m.g, event, past, n);
    case Publishing(event) => PublishStep(m.g, world, event, past, n);
    case Receiving => AdmitStep(m.g, world, past, n);
    case _ => ControlStep(m, world, past, n);
  }

  lemma MachineStep(m: Machine, world: World, past: seq<Action>, n: nat)
    requires FailuresDisconnect(world) && Gate(m) && ArrangedAt(m, past, n)
    ensures ArrangedMachine(Micro(m, world), past)
  {
    GateStep(m, world);
    SettledLink(m.g, world);
    var n' := ArrangedStep(m, world, past, n);
    assert ArrangedAt(Micro(m, world), past, n');
  }

  // --- lives and crashes ---

  ghost predicate ArrangedProcess(p: Process) {
    ArrangedMachine(p.m, p.past)
  }

  lemma RunIsArranged(p: Process, world: World, steps: nat)
    requires FailuresDisconnect(world) && ArrangedProcess(p)
    ensures ArrangedProcess(Run(p, world, steps))
  {
    var inv := m => ArrangedMachine(m, p.past);
    forall m {:trigger Micro(m, world)} | inv(m) ensures inv(Micro(m, world)) {
      var n: nat :| ArrangedAt(m, p.past, n);
      MachineStep(m, world, p.past, n);
    }
    MicrosKeep(inv, world, p.m, steps);
  }

  /** A restart forgets the candidate and the replay in progress. */
  lemma ReopenIsArranged(p: Process, life: Life)
    requires ArrangedProcess(p) && life.link.forcedFailures <= 0
    ensures ArrangedProcess(Reopen(p, life.maxSize, life.link, life.sessionId))
  {
    var n: nat :| ArrangedAt(p.m, p.past, n);
    var q := Reopen(p, life.maxSize, life.link, life.sessionId);
    assert q.past + q.m.g.journal == History(p);
    assert ArrangedAt(q.m, q.past, n);
  }

  /** In every life failed publishes disconnect and the failing hook is unused. */
  ghost predicate FaithfulLives(lives: seq<Life>) {
    forall i :: 0 <= i < |lives| ==> FailuresDisconnect(lives[i].world) && lives[i].link.forcedFailures <= 0
  }

  lemma {:induction false} LivesAreArranged(p: Process, lives: seq<Life>)
    requires ArrangedProcess(p) && FaithfulLives(lives)
    ensures ArrangedProcess(Lives(p, lives))
  {
    if lives != [] {
      var before, life := lives[..|lives| - 1], lives[|lives| - 1];
      LivesAreArranged(p, before);
      RunIsArranged(Lives(p, before), life.world, life.steps);
      ReopenIsArranged(Run(Lives(p, before), life.world, life.steps), life);
    }
  }

  lemma FirstProcessIsArranged(g: Gateway)
    requires FreshStart(g)
    ensures ArrangedProcess(FirstProcess(g))
  {
    var p := FirstProcess(g);
    assert p.past + p.m.g.journal == [];
    assert Acknowledgements([]) == [] && Firsts([]) == [];
    assert ArrangedAt(p.m, p.past, 0);
  }

  /** Over any number of processes, each killed after any atomic effect, in any
      worlds in which failed publishes disconnect: all acknowledgements, live
      and replayed, with the repeats left out, are in arrival order. */
  lemma AcknowledgedInOrderAcrossCrashes(g: Gateway, lives: seq<Life>, world: World, steps: nat)
    requires FreshStart(g) && FaithfulLives(lives) && FailuresDisconnect(world)
    ensures var p := Run(Lives(FirstProcess(g), lives), world, steps);
            Ascending(Firsts(Acknowledgements(History(p))))
  {
    FirstProcessIsArranged(g);
    LivesAreArranged(FirstProcess(g), lives);
    RunIsArranged(Lives(FirstProcess(g), lives), world, steps);
    var p := Run(Lives(FirstProcess(g), lives), world, steps);
    var n: nat :| ArrangedAt(p.m, p.past, n);
  }
}
