/** At-least-once delivery when the process is killed after any atomic effect,
    any number of times, and the file is reopened. */
module CrashSafety {
  import opened Telemetry
  import opened TelemetryBuffers
  import opened MqttPublishers
  import opened Gateways
  import opened DeliveryOrder

  // --- what a history records about rows ---

  function RowSet(rows: seq<Row>): (s: set<Row>)
    ensures forall r :: r in s <==> r in rows
  {
    set r | r in rows
  }

  /** Ids of the rows confirmed by a replay, in order, with repeats. */
  function RowAcks(history: seq<Action>): seq<nat> {
    if history == [] then [] else
    RowAcks(history[..|history| - 1]) +
    match history[|history| - 1]
    case Resent(row, true) => [row.id]
    case _ => []
  }

  function StoredRows(history: seq<Action>): set<Row> {
    if history == [] then {} else
    StoredRows(history[..|history| - 1]) +
    match history[|history| - 1]
    case Stored(row, _) => {row}
    case _ => {}
  }

  function TrimmedRows(history: seq<Action>): set<Row> {
    if history == [] then {} else
    TrimmedRows(history[..|history| - 1]) +
    match history[|history| - 1]
    case Stored(_, trimmed) => RowSet(trimmed)
    case _ => {}
  }

  lemma HistoryAppend(past: seq<Action>, journal: seq<Action>, a: Action)
    ensures var before, after := past + journal, past + (journal + [a]);
            && RowAcks(after) == RowAcks(before) + (match a case Resent(row, true) => [row.id] case _ => [])
            && StoredRows(after) == StoredRows(before) + (match a case Stored(row, _) => {row} case _ => {})
            && TrimmedRows(after) == TrimmedRows(before) + (match a case Stored(_, t) => RowSet(t) case _ => {})
  {
    var after := past + (journal + [a]);
    assert after[..|after| - 1] == past + journal && after[|after| - 1] == a;
  }

  /** A sequence with repeats removed: the first occurrence of each element. */
  function Firsts(s: seq<nat>): seq<nat> {
    if s == [] then [] else
    var before, last := s[..|s| - 1], s[|s| - 1];
    if last in before then Firsts(before) else Firsts(before) + [last]
  }

  lemma {:induction false} FirstsHasSameElements(s: seq<nat>)
    ensures |Firsts(s)| <= |s| && forall x :: x in Firsts(s) <==> x in s
  {
    if s != [] {
      FirstsHasSameElements(s[..|s| - 1]);
      assert s == s[..|s| - 1] + [s[|s| - 1]];
    }
  }

  lemma FirstsAppend(s: seq<nat>, x: nat)
    ensures Firsts(s + [x]) == if x in s then Firsts(s) else Firsts(s) + [x]
  {
    assert (s + [x])[..|s|] == s;
  }

  function Duplicates(acks: seq<nat>): int {
    |acks| - |Firsts(acks)|
  }

  // --- the invariant ---

  /** Of the rows in the table exactly the first n have been confirmed before;
      the replay in progress has confirmed the first `sent` of them. */
  ghost predicate ConfirmedPrefix(rows: seq<Row>, acks: seq<nat>, n: nat) {
    && n <= |rows|
    && (forall i :: 0 <= i < n ==> rows[i].id in acks)
    && (forall i, k :: n <= i < |rows| && 0 <= k < |acks| ==> acks[k] < rows[i].id)
  }

  /** Nothing is lost: every row known is still there, was confirmed, or was trimmed. */
  ghost predicate Covered(rows: seq<Row>, acks: seq<nat>, known: set<Row>, trimmed: set<Row>) {
    forall r :: r in known ==> r in rows || r.id in acks || r in trimmed
  }

  ghost predicate Safe(t: Table, acks: seq<nat>, known: set<Row>, trimmed: set<Row>, n: nat, sent: nat,
                       batch: seq<Row>) {
    && WellFormed(t) && batch <= t.rows && |batch| <= REPLAY_BATCH_SIZE
    && sent <= n <= REPLAY_BATCH_SIZE && sent <= |batch|
    && (forall k :: 0 <= k < |acks| ==> acks[k] <= t.lastId)
    && ConfirmedPrefix(t.rows, acks, n)
    && Covered(t.rows, acks, known, trimmed)
    && Ascending(Firsts(acks))
  }

  /** What a history says about the rows, those of the initial file included. */
  datatype Ledger = Ledger(acks: seq<nat>, known: set<Row>, trimmed: set<Row>)

  function LedgerOf(history: seq<Action>, initial: set<Row>): Ledger {
    Ledger(RowAcks(history), initial + StoredRows(history), TrimmedRows(history))
  }

  function Entered(l: Ledger, a: Action): Ledger {
    match a
    case Resent(row, true) => l.(acks := l.acks + [row.id])
    case Stored(row, trimmed) => l.(known := l.known + {row}, trimmed := l.trimmed + RowSet(trimmed))
    case _ => l
  }

  lemma LedgerAppend(past: seq<Action>, journal: seq<Action>, a: Action, initial: set<Row>)
    ensures LedgerOf(past + (journal + [a]), initial) == Entered(LedgerOf(past + journal, initial), a)
  {
    HistoryAppend(past, journal, a);
    var known := StoredRows(past + journal);
    assert forall r :: initial + (known + {r}) == initial + known + {r};
    assert TrimmedRows(past + journal) + {} == TrimmedRows(past + journal) && known + {} == known;
  }

  ghost predicate Balanced(t: Table, l: Ledger, crashes: nat, n: nat, sent: nat, batch: seq<Row>) {
    && Safe(t, l.acks, l.known, l.trimmed, n, sent, batch)
    && Duplicates(l.acks) + n - sent <= REPLAY_BATCH_SIZE * crashes
  }

  ghost predicate SafeAt(m: Machine, past: seq<Action>, initial: set<Row>, crashes: nat, n: nat) {
    Balanced(m.g.table, LedgerOf(past + m.g.journal, initial), crashes, n, |SentRows(m.pc)|, BatchRows(m.pc))
  }

  ghost predicate SafeMachine(m: Machine, past: seq<Action>, initial: set<Row>, crashes: nat) {
    exists n: nat :: SafeAt(m, past, initial, crashes, n)
  }

  // --- one step at a time ---

  lemma NewFirst(acked: seq<nat>, x: nat)
    requires Ascending(Firsts(acked)) && AllBelow(acked, x)
    ensures Ascending(Firsts(acked + [x]))
  {
    FirstsAppend(acked, x);
    FirstsHasSameElements(acked);
    forall k | 0 <= k < |Firsts(acked)| ensures Firsts(acked)[k] < x {
      assert Firsts(acked)[k] in acked;
    }
    AscendingAppend(Firsts(acked), x);
  }

  /** A confirmation is a repeat or the newest one. */
  lemma ConfirmFirsts(acks: seq<nat>, id: nat)
    requires Ascending(Firsts(acks)) && (id in acks || AllBelow(acks, id))
    ensures Ascending(Firsts(acks + [id]))
    ensures Duplicates(acks + [id]) == Duplicates(acks) + (if id in acks then 1 else 0)
  {
    FirstsAppend(acks, id);
    if id !in acks {
      NewFirst(acks, id);
    }
  }

  lemma ConfirmRow(t: Table, acks: seq<nat>, known: set<Row>, trimmed: set<Row>, n: nat, sent: nat, batch: seq<Row>)
    requires Safe(t, acks, known, trimmed, n, sent, batch) && sent < |batch|
    ensures var id, n' := t.rows[sent].id, if sent < n then n else n + 1;
            && Safe(t, acks + [id], known, trimmed, n', sent + 1, batch)
            && Duplicates(acks + [id]) + n' - (sent + 1) == Duplicates(acks) + n - sent
  {
    ConfirmFirsts(acks, t.rows[sent].id);
    LateRowsStayLate(t.rows, acks, n, sent);
  }

  lemma LateRowsStayLate(rows: seq<Row>, acks: seq<nat>, n: nat, sent: nat)
    requires ConfirmedPrefix(rows, acks, n) && sent <= n && sent < |rows|
    requires AscendingIds(rows)
    ensures ConfirmedPrefix(rows, acks + [rows[sent].id], if sent < n then n else n + 1)
  {
  }

  lemma DropConfirmed(t: Table, acks: seq<nat>, known: set<Row>, trimmed: set<Row>, n: nat, sent: seq<Row>)
    requires Safe(t, acks, known, trimmed, n, |sent|, sent)
    ensures Safe(Removed(t, Ids(sent)), acks, known, trimmed, n - |sent|, 0, [])
  {
    ConfirmedAreDeleted(t, sent);
  }

  lemma AppendRow(rows: seq<Row>, acks: seq<nat>, known: set<Row>, trimmed: set<Row>, n: nat, row: Row)
    requires ConfirmedPrefix(rows, acks, n) && Covered(rows, acks, known, trimmed)
    requires forall k :: 0 <= k < |acks| ==> acks[k] < row.id
    ensures ConfirmedPrefix(rows + [row], acks, n) && Covered(rows + [row], acks, known + {row}, trimmed)
  {
    assert (rows + [row])[|rows|] == row;
    forall r | r in rows ensures r in rows + [row] {
    }
  }

  lemma StoreRow(t: Table, acks: seq<nat>, known: set<Row>, trimmed: set<Row>, n: nat, maxSize: int, event: Event)
    returns (n': nat)
    requires Safe(t, acks, known, trimmed, n, 0, [])
    ensures var row := NewRow(t, event);
            n' <= n && Safe(WithEvent(t, maxSize, event), acks, known + {row},
                            trimmed + RowSet(Trimmed(t, maxSize, row)), n', 0, [])
  {
    var row := NewRow(t, event);
    WithEventRows(t, maxSize, event);
    AppendRow(t.rows, acks, known, trimmed, n, row);
    n' := TrimFront(t.rows + [row], Trimmed(t, maxSize, row), WithEvent(t, maxSize, event).rows,
                    acks, known + {row}, trimmed, n);
  }

  lemma TrimFront(longer: seq<Row>, front: seq<Row>, rest: seq<Row>, acks: seq<nat>, known: set<Row>,
                  trimmed: set<Row>, n: nat) returns (n': nat)
    requires longer == front + rest
    requires ConfirmedPrefix(longer, acks, n) && Covered(longer, acks, known, trimmed)
    ensures n' <= n && ConfirmedPrefix(rest, acks, n') && Covered(rest, acks, known, trimmed + RowSet(front))
  {
    assert longer[|front|..] == rest && longer[..|front|] == front;
    n' := if n < |front| then 0 else n - |front|;
  }

  lemma BalancedConfirm(t: Table, l: Ledger, crashes: nat, n: nat, sent: seq<Row>, row: Row, rest: seq<Row>)
    requires Balanced(t, l, crashes, n, |sent|, sent + [row] + rest)
    ensures Balanced(t, Entered(l, Resent(row, true)), crashes, if |sent| < n then n else n + 1,
                     |sent + [row]|, (sent + [row]) + rest)
    ensures Balanced(t, Entered(l, Resent(row, false)), crashes, n, |sent|, sent)
  {
    var batch := sent + [row] + rest;
    NextInBatch(t.rows, sent, row, rest);
    ConfirmRow(t, l.acks, l.known, l.trimmed, n, |sent|, batch);
  }

  lemma BalancedDelete(t: Table, l: Ledger, crashes: nat, n: nat, sent: seq<Row>)
    requires Balanced(t, l, crashes, n, |sent|, sent)
    ensures n >= |sent| && Balanced(Removed(t, Ids(sent)), l, crashes, n - |sent|, 0, [])
  {
    DropConfirmed(t, l.acks, l.known, l.trimmed, n, sent);
  }

  lemma BalancedStore(t: Table, l: Ledger, crashes: nat, n: nat, maxSize: int, event: Event) returns (n': nat)
    requires Balanced(t, l, crashes, n, 0, [])
    ensures var row := NewRow(t, event);
            Balanced(WithEvent(t, maxSize, event), Entered(l, Stored(row, Trimmed(t, maxSize, row))),
                     crashes, n', 0, [])
  {
    n' := StoreRow(t, l.acks, l.known, l.trimmed, n, maxSize, event);
  }

  lemma Conclude(m: Machine, past: seq<Action>, initial: set<Row>, crashes: nat, l: Ledger, n: nat)
    requires LedgerOf(past + m.g.journal, initial) == l
    requires Balanced(m.g.table, l, crashes, n, |SentRows(m.pc)|, BatchRows(m.pc))
    ensures SafeMachine(m, past, initial, crashes)
  {
    assert SafeAt(m, past, initial, crashes, n);
  }

  lemma SafeResend(g: Gateway, world: World, sent: seq<Row>, row: Row, rest: seq<Row>,
                   past: seq<Action>, initial: set<Row>, crashes: nat, n: nat)
    requires SafeAt(Machine(g, Resending(sent, row, rest)), past, initial, crashes, n)
    ensures SafeMachine(Machine(Resend(g, world, row),
                                if SendSucceeds(g, world) then Checking(sent + [row], rest) else Removing(sent, false)),
                        past, initial, crashes)
  {
    var after, l := Resend(g, world, row), LedgerOf(past + g.journal, initial);
    LedgerAppend(past, g.journal, Resent(row, SendSucceeds(g, world)), initial);
    if SendSucceeds(g, world) {
      SafeConfirmed(after, sent, row, rest, past, initial, crashes, l, n);
    } else {
      SafeRefused(after, sent, row, rest, past, initial, crashes, l, n);
    }
  }

  lemma SafeConfirmed(after: Gateway, sent: seq<Row>, row: Row, rest: seq<Row>,
                      past: seq<Action>, initial: set<Row>, crashes: nat, l: Ledger, n: nat)
    requires Balanced(after.table, l, crashes, n, |sent|, sent + [row] + rest)
    requires LedgerOf(past + after.journal, initial) == Entered(l, Resent(row, true))
    ensures SafeMachine(Machine(after, Checking(sent + [row], rest)), past, initial, crashes)
  {
    BalancedConfirm(after.table, l, crashes, n, sent, row, rest);
    Conclude(Machine(after, Checking(sent + [row], rest)), past, initial, crashes,
             Entered(l, Resent(row, true)), if |sent| < n then n else n + 1);
  }

  lemma SafeRefused(after: Gateway, sent: seq<Row>, row: Row, rest: seq<Row>,
                    past: seq<Action>, initial: set<Row>, crashes: nat, l: Ledger, n: nat)
    requires Balanced(after.table, l, crashes, n, |sent|, sent + [row] + rest)
    requires LedgerOf(past + after.journal, initial) == l
    ensures SafeMachine(Machine(after, Removing(sent, false)), past, initial, crashes)
  {
    BalancedConfirm(after.table, l, crashes, n, sent, row, rest);
    Conclude(Machine(after, Removing(sent, false)), past, initial, crashes, l, n);
  }

  lemma SafeRemove(g: Gateway, sent: seq<Row>, complete: bool, past: seq<Action>, initial: set<Row>, crashes: nat,
                   n: nat)
    requires SafeAt(Machine(g, Removing(sent, complete)), past, initial, crashes, n)
    ensures SafeMachine(Machine(DeleteConfirmed(g, sent), if complete then Peeking else Receiving), past, initial,
                        crashes)
  {
    var after, pc := DeleteConfirmed(g, sent), if complete then Peeking else Receiving;
    if sent == [] {
      Conclude(Machine(after, pc), past, initial, crashes, LedgerOf(past + g.journal, initial), n);
    } else {
      LedgerAppend(past, g.journal, Deleted(sent), initial);
      SafeDeleted(g.table, after, sent, pc, past, initial, crashes, LedgerOf(past + g.journal, initial), n);
    }
  }

  lemma SafeDeleted(before: Table, after: Gateway, sent: seq<Row>, pc: Pc,
                    past: seq<Action>, initial: set<Row>, crashes: nat, l: Ledger, n: nat)
    requires Balanced(before, l, crashes, n, |sent|, sent) && after.table == Removed(before, Ids(sent))
    requires LedgerOf(past + after.journal, initial) == l && (pc == Peeking || pc == Receiving)
    ensures SafeMachine(Machine(after, pc), past, initial, crashes)
  {
    BalancedDelete(before, l, crashes, n, sent);
    Conclude(Machine(after, pc), past, initial, crashes, l, n - |sent|);
  }

  lemma SafeStore(g: Gateway, event: Event, past: seq<Action>, initial: set<Row>, crashes: nat, n: nat)
    requires SafeAt(Machine(g, Storing(event)), past, initial, crashes, n)
    ensures SafeMachine(Machine(Store(g, event), Top), past, initial, crashes)
  {
    var l, row := LedgerOf(past + g.journal, initial), NewRow(g.table, event);
    var stored := Stored(row, Trimmed(g.table, g.maxSize, row));
    LedgerAppend(past, g.journal, stored, initial);
    SafeStored(g.table, Store(g, event), g.maxSize, event, past, initial, crashes, l, n);
  }

  lemma SafeStored(before: Table, after: Gateway, maxSize: int, event: Event,
                   past: seq<Action>, initial: set<Row>, crashes: nat, l: Ledger, n: nat)
    requires Balanced(before, l, crashes, n, 0, []) && after.table == WithEvent(before, maxSize, event)
    requires var row := NewRow(before, event);
             LedgerOf(past + after.journal, initial) == Entered(l, Stored(row, Trimmed(before, maxSize, row)))
    ensures SafeMachine(Machine(after, Top), past, initial, crashes)
  {
    var row := NewRow(before, event);
    var n' := BalancedStore(before, l, crashes, n, maxSize, event);
    Conclude(Machine(after, Top), past, initial, crashes, Entered(l, Stored(row, Trimmed(before, maxSize, row))), n');
  }

  /** Any step that leaves the table alone and enters nothing about rows. */
  lemma SafeSame(m: Machine, m': Machine, past: seq<Action>, initial: set<Row>, crashes: nat, a: Action)
    requires SafeMachine(m, past, initial, crashes)
    requires m'.g.table == m.g.table && SentRows(m'.pc) == SentRows(m.pc)
    requires BatchRows(m'.pc) <= m.g.table.rows && |SentRows(m.pc)| <= |BatchRows(m'.pc)| <= REPLAY_BATCH_SIZE
    requires m'.g.journal == m.g.journal || m'.g.journal == m.g.journal + [a]
    requires a.Live? || a.Reconnection? || a.Refused?
    ensures SafeMachine(m', past, initial, crashes)
  {
    var n: nat :| SafeAt(m, past, initial, crashes, n);
    LedgerAppend(past, m.g.journal, a, initial);
    assert SafeAt(m', past, initial, crashes, n);
  }

  lemma SafeChecking(m: Machine, world: World, past: seq<Action>, initial: set<Row>, crashes: nat)
    requires m.pc.Checking? && SafeMachine(m, past, initial, crashes)
    ensures SafeMachine(Micro(m, world), past, initial, crashes)
  {
    var sent, pending, m' := m.pc.sent, m.pc.pending, Micro(m, world);
    var n: nat :| SafeAt(m, past, initial, crashes, n);
    CheckedBatch(m.g.table.rows, sent, pending);
    SafeSame(m, m', past, initial, crashes, Reconnection(true));
  }

  lemma CheckedBatch(rows: seq<Row>, sent: seq<Row>, pending: seq<Row>)
    requires sent + pending <= rows
    ensures sent <= rows
    ensures pending != [] ==> sent + [pending[0]] + pending[1..] == sent + pending
  {
    assert sent == rows[..|sent|];
    if pending != [] {
      assert [pending[0]] + pending[1..] == pending;
      assert sent + [pending[0]] + pending[1..] == sent + ([pending[0]] + pending[1..]);
    }
  }

  lemma SafePeek(m: Machine, world: World, past: seq<Action>, initial: set<Row>, crashes: nat)
    requires m.pc.Peeking? && SafeMachine(m, past, initial, crashes)
    ensures SafeMachine(Micro(m, world), past, initial, crashes)
  {
    var batch := Oldest(m.g.table.rows, REPLAY_BATCH_SIZE);
    assert BatchRows(Checking([], batch)) == batch;
    SafeSame(m, Micro(m, world), past, initial, crashes, Reconnection(true));
  }

  lemma SafeLive(m: Machine, world: World, past: seq<Action>, initial: set<Row>, crashes: nat)
    requires m.pc.Receiving? || m.pc.Publishing?
    requires SafeMachine(m, past, initial, crashes)
    ensures SafeMachine(Micro(m, world), past, initial, crashes)
  {
    var m' := Micro(m, world);
    if m'.g.journal == m.g.journal {
      SafeSame(m, m', past, initial, crashes, Reconnection(true));
    } else {
      SafeSame(m, m', past, initial, crashes, m'.g.journal[|m.g.journal|]);
    }
  }

  lemma SafeStep(m: Machine, world: World, past: seq<Action>, initial: set<Row>, crashes: nat, n: nat)
    requires SafeAt(m, past, initial, crashes, n)
    ensures SafeMachine(Micro(m, world), past, initial, crashes)
  {
    match m.pc
    case Peeking => SafePeek(m, world, past, initial, crashes);
    case Checking(_, _) => SafeChecking(m, world, past, initial, crashes);
    case Resending(sent, row, rest) => SafeResend(m.g, world, sent, row, rest, past, initial, crashes, n);
    case Removing(sent, complete) => SafeRemove(m.g, sent, complete, past, initial, crashes, n);
    case Receiving => SafeLive(m, world, past, initial, crashes);
    case Publishing(_) => SafeLive(m, world, past, initial, crashes);
    case Storing(event) => SafeStore(m.g, event, past, initial, crashes, n);
    case _ => SafeSame(m, Micro(m, world), past, initial, crashes, Reconnection(Attempt(m.g, world).link.connected));
  }

  // --- lives and crashes ---

  /** One process: it runs `steps` atomic steps in its world and is killed. The
      next process opens the file with its own size bound, link and session. */
  datatype Life = Life(world: World, steps: nat, maxSize: int, link: Link, sessionId: string)

  /** The gateway now running, and everything that happened before it started. */
  datatype Process = Process(m: Machine, past: seq<Action>)

  function History(p: Process): seq<Action> {
    p.past + p.m.g.journal
  }

  function Run(p: Process, world: World, steps: nat): Process {
    p.(m := Micros(p.m, world, steps))
  }

  /** Only the file survives; event ids stay fresh. */
  function Reopen(p: Process, maxSize: int, link: Link, sessionId: string): Process {
    var g := p.m.g;
    Process(Machine(Begin(Started(g.table, maxSize, link, sessionId, g.vehicleId, g.minted)), Top), History(p))
  }

  /** One life of the gateway, ended by a crash and a restart. */
  function Outlive(p: Process, life: Life): Process {
    Reopen(Run(p, life.world, life.steps), life.maxSize, life.link, life.sessionId)
  }

  function Lives(p: Process, lives: seq<Life>): Process {
    if lives == [] then p else Outlive(Lives(p, lives[..|lives| - 1]), lives[|lives| - 1])
  }

  ghost predicate SafeProcess(p: Process, initial: set<Row>, crashes: nat) {
    SafeMachine(p.m, p.past, initial, crashes)
  }

  lemma RunIsSafe(p: Process, initial: set<Row>, crashes: nat, world: World, steps: nat)
    requires SafeProcess(p, initial, crashes)
    ensures SafeProcess(Run(p, world, steps), initial, crashes)
  {
    var inv := m => SafeMachine(m, p.past, initial, crashes);
    forall m {:trigger Micro(m, world)} | inv(m) ensures inv(Micro(m, world)) {
      var n: nat :| SafeAt(m, p.past, initial, crashes, n);
      SafeStep(m, world, p.past, initial, crashes, n);
    }
    MicrosKeep(inv, world, p.m, steps);
  }

  lemma ReopenIsSafe(p: Process, initial: set<Row>, crashes: nat, maxSize: int, link: Link, sessionId: string)
    requires SafeProcess(p, initial, crashes)
    ensures SafeProcess(Reopen(p, maxSize, link, sessionId), initial, crashes + 1)
  {
    var n: nat :| SafeAt(p.m, p.past, initial, crashes, n);
    var q := Reopen(p, maxSize, link, sessionId);
    assert q.past + q.m.g.journal == History(p);
    assert SafeAt(q.m, q.past, initial, crashes + 1, n);
  }

  lemma LifeIsSafe(p: Process, initial: set<Row>, crashes: nat, life: Life)
    requires SafeProcess(p, initial, crashes)
    ensures SafeProcess(Outlive(p, life), initial, crashes + 1)
  {
    RunIsSafe(p, initial, crashes, life.world, life.steps);
    ReopenIsSafe(Run(p, life.world, life.steps), initial, crashes, life.maxSize, life.link, life.sessionId);
  }

  lemma {:induction false} LivesAreSafe(p: Process, initial: set<Row>, lives: seq<Life>)
    requires SafeProcess(p, initial, 0)
    ensures SafeProcess(Lives(p, lives), initial, |lives|)
  {
    if lives != [] {
      var before := lives[..|lives| - 1];
      LivesAreSafe(p, initial, before);
      LifeIsSafe(Lives(p, before), initial, |before|, lives[|lives| - 1]);
    }
  }

  function FirstProcess(g: Gateway): Process {
    Process(Machine(Begin(g), Top), [])
  }

  lemma FirstProcessIsSafe(g: Gateway)
    requires g.journal == [] && WellFormed(g.table)
    ensures SafeProcess(FirstProcess(g), RowSet(g.table.rows), 0)
  {
    var p := FirstProcess(g);
    assert p.past + p.m.g.journal == [];
    assert SafeAt(p.m, p.past, RowSet(g.table.rows), 0, 0);
  }

  /** Any file, any number of processes killed after any number of atomic steps
      in any worlds, then any number of steps of the last one: every row that
      was in the file or was ever stored is still there, was confirmed by the
      broker, or was trimmed for space. */
  lemma NothingIsLost(g: Gateway, lives: seq<Life>, world: World, steps: nat, r: Row)
    requires g.journal == [] && WellFormed(g.table)
    ensures var p := Run(Lives(FirstProcess(g), lives), world, steps);
            r in g.table.rows || r in StoredRows(History(p)) ==>
            r in p.m.g.table.rows || r.id in RowAcks(History(p)) || r in TrimmedRows(History(p))
  {
    var initial := RowSet(g.table.rows);
    FirstProcessIsSafe(g);
    LivesAreSafe(FirstProcess(g), initial, lives);
    RunIsSafe(Lives(FirstProcess(g), lives), initial, |lives|, world, steps);
    var p := Run(Lives(FirstProcess(g), lives), world, steps);
    var n: nat :| SafeAt(p.m, p.past, initial, |lives|, n);
    assert Covered(p.m.g.table.rows, RowAcks(History(p)), initial + StoredRows(History(p)), TrimmedRows(History(p)));
  }

  /** What a crash can cost: the confirmed rows still in the table are its
      oldest rows, at most one batch of them; k crashes cause at most 100 k
      repeated confirmations; and with the repeats removed, rows are confirmed
      in id order. */
  lemma CrashesCostAtMostOneBatch(g: Gateway, lives: seq<Life>, world: World, steps: nat) returns (n: nat)
    requires g.journal == [] && WellFormed(g.table)
    ensures var p := Run(Lives(FirstProcess(g), lives), world, steps);
            var acks := RowAcks(History(p));
            && n <= 100 && ConfirmedPrefix(p.m.g.table.rows, acks, n)
            && Duplicates(acks) <= 100 * |lives|
            && Ascending(Firsts(acks))
  {
    var initial := RowSet(g.table.rows);
    FirstProcessIsSafe(g);
    LivesAreSafe(FirstProcess(g), initial, lives);
    RunIsSafe(Lives(FirstProcess(g), lives), initial, |lives|, world, steps);
    var p := Run(Lives(FirstProcess(g), lives), world, steps);
    n :| SafeAt(p.m, p.past, initial, |lives|, n);
  }

  // --- the bound is reached ---

  lemma RowAcksAppend(journal: seq<Action>, a: Action)
    ensures RowAcks(journal + [a]) == RowAcks(journal) + (match a case Resent(row, true) => [row.id] case _ => [])
  {
    HistoryAppend([], journal, a);
    assert [] + journal == journal && [] + (journal + [a]) == journal + [a];
  }

  lemma QuietResend(g: Gateway, sent: seq<Row>, row: Row, rest: seq<Row>)
    requires g.link.connected && g.link.forcedFailures <= 0
    ensures var m := Micro(Micro(Machine(g, Checking(sent, [row] + rest)), QUIET_WORLD), QUIET_WORLD);
            && m.pc == Checking(sent + [row], rest)
            && m.g.table == g.table && m.g.link == g.link
            && RowAcks(m.g.journal) == RowAcks(g.journal) + [row.id]
  {
    assert ([row] + rest)[1..] == rest;
    assert Settled(g, QUIET_WORLD) == g.link;
    var g0 := Observe(g, QUIET_WORLD);
    assert Micro(Machine(g, Checking(sent, [row] + rest)), QUIET_WORLD) == Machine(g0, Resending(sent, row, rest));
    assert Settled(g0, QUIET_WORLD) == g0.link;
    RowAcksAppend(g.journal, Resent(row, true));
  }

  /** Entering the replay on an open link: three steps. */
  lemma QuietEntry(g: Gateway)
    requires g.link.connected && g.replayRequested && |g.table.rows| >= REPLAY_BATCH_SIZE
    ensures var m := Micros(Machine(g, Top), QUIET_WORLD, 3);
            && m.pc == Checking([], g.table.rows[..REPLAY_BATCH_SIZE])
            && m.g == g.(cursor := g.cursor + 2)
  {
    var w, m0 := QUIET_WORLD, Machine(g, Top);
    assert Settled(g, w) == g.link;
    var g1 := Observe(g, w);
    assert Micro(m0, w) == Machine(g1, CheckReplay);
    assert Settled(g1, w) == g1.link;
    var g2 := Observe(g1, w);
    assert Micro(Machine(g1, CheckReplay), w) == Machine(g2, Peeking);
    assert Oldest(g2.table.rows, REPLAY_BATCH_SIZE) == g.table.rows[..REPLAY_BATCH_SIZE];
    assert Micros(m0, w, 0) == m0 && Micros(m0, w, 1) == Micro(m0, w);
    assert Micros(m0, w, 2) == Micro(Micros(m0, w, 1), w);
  }

  /** After k rows of the first batch are confirmed on a quiet, open link. */
  ghost predicate BatchUnderWay(m: Machine, table: Table, link: Link, batch: seq<Row>, k: nat)
    requires k <= |batch|
  {
    && m.pc == Checking(batch[..k], batch[k..]) && m.g.table == table && m.g.link == link
    && RowAcks(m.g.journal) == Ids(batch[..k])
  }

  lemma OneMoreRow(m: Machine, table: Table, link: Link, batch: seq<Row>, k: nat)
    requires k < |batch| && BatchUnderWay(m, table, link, batch, k) && link.connected && link.forcedFailures <= 0
    ensures BatchUnderWay(Micro(Micro(m, QUIET_WORLD), QUIET_WORLD), table, link, batch, k + 1)
  {
    assert batch[k..] == [batch[k]] + batch[k + 1..] && batch[..k] + [batch[k]] == batch[..k + 1];
    QuietResend(m.g, batch[..k], batch[k], batch[k + 1..]);
    assert Ids(batch[..k + 1]) == Ids(batch[..k]) + [batch[k].id];
  }

  lemma {:induction false} QuietBatch(g: Gateway, k: nat)
    requires g.link.connected && g.link.forcedFailures <= 0 && g.replayRequested
    requires k <= REPLAY_BATCH_SIZE <= |g.table.rows| && g.journal == []
    ensures BatchUnderWay(Micros(Machine(g, Top), QUIET_WORLD, 3 + 2 * k), g.table, g.link,
                          g.table.rows[..REPLAY_BATCH_SIZE], k)
  {
    var m0, batch := Machine(g, Top), g.table.rows[..REPLAY_BATCH_SIZE];
    if k == 0 {
      QuietEntry(g);
      assert batch[..0] == [] && batch[0..] == batch;
    } else {
      QuietBatch(g, k - 1);
      OneMoreRow(Micros(m0, QUIET_WORLD, 1 + 2 * k), g.table, g.link, batch, k - 1);
      assert Micros(m0, QUIET_WORLD, 2 + 2 * k) == Micro(Micros(m0, QUIET_WORLD, 1 + 2 * k), QUIET_WORLD);
    }
  }

  lemma {:induction false} FirstsOfAscending(s: seq<nat>)
    requires Ascending(s)
    ensures Firsts(s) == s
  {
    if s != [] {
      FirstsOfAscending(s[..|s| - 1]);
    }
  }

  lemma {:induction false} FirstsIgnoresRepeats(s: seq<nat>, more: seq<nat>)
    requires forall x :: x in more ==> x in s
    ensures Firsts(s + more) == Firsts(s)
  {
    if more == [] {
      assert s + more == s;
    } else {
      var before := more[..|more| - 1];
      FirstsIgnoresRepeats(s, before);
      assert s + more == s + before + [more[|more| - 1]];
      FirstsAppend(s + before, more[|more| - 1]);
    }
  }

  lemma {:induction false} RowAcksSplit(past: seq<Action>, journal: seq<Action>)
    ensures RowAcks(past + journal) == RowAcks(past) + RowAcks(journal)
  {
    if journal == [] {
      assert past + journal == past;
    } else {
      var before, a := journal[..|journal| - 1], journal[|journal| - 1];
      assert journal == before + [a];
      RowAcksSplit(past, before);
      HistoryAppend(past, before, a);
    }
  }

  /** The ledger of a second process that confirms what the first one confirmed. */
  lemma RepeatedBatch(past: seq<Action>, journal: seq<Action>, ids: seq<nat>)
    requires RowAcks(past) == ids && RowAcks(journal) == ids && Ascending(ids)
    ensures Duplicates(RowAcks(past + journal)) == |ids|
  {
    RowAcksSplit(past, journal);
    FirstsOfAscending(ids);
    FirstsIgnoresRepeats(ids, ids);
  }

  lemma TwoQuietLives(g: Gateway, steps: nat)
    requires g.journal == []
    ensures var life := Life(QUIET_WORLD, steps, g.maxSize, g.link, g.sessionId);
            var first := Micros(Machine(Begin(g), Top), QUIET_WORLD, steps).g;
            var again := Begin(Started(first.table, g.maxSize, g.link, g.sessionId, first.vehicleId, first.minted));
            History(Run(Lives(FirstProcess(g), [life]), QUIET_WORLD, steps)) ==
            first.journal + Micros(Machine(again, Top), QUIET_WORLD, steps).g.journal
  {
    var life := Life(QUIET_WORLD, steps, g.maxSize, g.link, g.sessionId);
    assert Lives(FirstProcess(g), []) == FirstProcess(g) && [life][..0] == [];
    var first := Micros(Machine(Begin(g), Top), QUIET_WORLD, steps).g;
    assert [] + first.journal == first.journal;
  }

  /** A process that is killed after confirming a whole batch and before
      deleting it makes the next one confirm all hundred rows again: one crash
      costs a batch, not a single re-send. */
  lemma OneCrashCanRepeatABatch(g: Gateway, steps: nat)
    requires steps == 203
    requires g.journal == [] && WellFormed(g.table) && |g.table.rows| >= 100
    requires g.link.connected && g.link.forcedFailures <= 0
    ensures var lives := [Life(QUIET_WORLD, steps, g.maxSize, g.link, g.sessionId)];
            Duplicates(RowAcks(History(Run(Lives(FirstProcess(g), lives), QUIET_WORLD, steps)))) == 100
  {
    TwoQuietLives(g, steps);
    QuietBatch(Begin(g), REPLAY_BATCH_SIZE);
    var first := Micros(Machine(Begin(g), Top), QUIET_WORLD, steps).g;
    var again := Begin(Started(first.table, g.maxSize, g.link, g.sessionId, first.vehicleId, first.minted));
    QuietBatch(again, REPLAY_BATCH_SIZE);
    var batch := g.table.rows[..REPLAY_BATCH_SIZE];
    assert batch[..REPLAY_BATCH_SIZE] == batch;
    RepeatedBatch(first.journal, Micros(Machine(again, Top), QUIET_WORLD, steps).g.journal, Ids(batch));
  }
}
