/** From the accepted frame to the broker: what becomes of every event over any
    number of crashes. */
module EndToEnd {
  import opened Telemetry
  import opened Ingestion
  import opened TelemetryBuffers
  import opened Gateways
  import opened DeliveryOrder
  import opened CrashSafety

  /** The event an entry of the journal settles: refused, acknowledged at once,
      or stored. */
  function SettledBy(a: Action): set<nat> {
    match a
    case Refused(id) => {id}
    case Live(event, true) => {event.eventId}
    case Stored(row, _) => {row.eventId}
    case _ => {}
  }

  function SettledIds(history: seq<Action>): set<nat> {
    if history == [] then {} else SettledIds(history[..|history| - 1]) + SettledBy(history[|history| - 1])
  }

  lemma SettledAppend(past: seq<Action>, journal: seq<Action>, a: Action)
    ensures SettledIds(past + (journal + [a])) == SettledIds(past + journal) + SettledBy(a)
  {
    var after := past + (journal + [a]);
    assert after[..|after| - 1] == past + journal && after[|after| - 1] == a;
  }

  /** Every event numbered from `start` on is settled, in hand, or was in hand
      of a process that was killed. */
  ghost predicate AllAccounted(m: Machine, past: seq<Action>, start: nat, lost: set<nat>) {
    forall id :: start <= id < m.g.minted ==>
      id in lost || Candidate(m.pc) == Some(id) || id in SettledIds(past + m.g.journal)
  }

  /** A step that adds nothing to the events: the journal at most grows. */
  lemma AccountedSame(m: Machine, m': Machine, past: seq<Action>, start: nat, lost: set<nat>)
    requires AllAccounted(m, past, start, lost) && m'.g.minted == m.g.minted
    requires SettledIds(past + m.g.journal) <= SettledIds(past + m'.g.journal)
    requires Candidate(m.pc).Some? ==>
               Candidate(m'.pc) == Candidate(m.pc) || Candidate(m.pc).value in SettledIds(past + m'.g.journal)
    ensures AllAccounted(m', past, start, lost)
  {
  }

  lemma AccountedAdmit(g: Gateway, world: World, past: seq<Action>, start: nat, lost: set<nat>)
    requires AllAccounted(Machine(g, Receiving), past, start, lost)
    ensures AllAccounted(Micro(Machine(g, Receiving), world), past, start, lost)
  {
    var arrival := Arrived(g, world);
    if arrival.Some? && !arrival.value.Ignored? {
      ReceiveKeepsContext(world(g.cursor).frame.value,
                          Context(g.minted, g.sessionId, g.vehicleId, world(g.cursor).now));
      SettledAppend(past, g.journal, Refused(arrival.value.event.eventId));
    }
  }

  lemma AccountedPublish(g: Gateway, world: World, event: Event, past: seq<Action>, start: nat, lost: set<nat>)
    requires AllAccounted(Machine(g, Publishing(event)), past, start, lost)
    ensures AllAccounted(Micro(Machine(g, Publishing(event)), world), past, start, lost)
  {
    var m := Machine(g, Publishing(event));
    SettledAppend(past, g.journal, Live(event, SendSucceeds(g, world)));
    AccountedSame(m, Micro(m, world), past, start, lost);
  }

  lemma AccountedStore(g: Gateway, world: World, event: Event, past: seq<Action>, start: nat, lost: set<nat>)
    requires AllAccounted(Machine(g, Storing(event)), past, start, lost)
    ensures AllAccounted(Micro(Machine(g, Storing(event)), world), past, start, lost)
  {
    var m, row := Machine(g, Storing(event)), NewRow(g.table, event);
    SettledAppend(past, g.journal, Stored(row, Trimmed(g.table, g.maxSize, row)));
    AccountedSame(m, Micro(m, world), past, start, lost);
  }

  lemma AccountedOther(m: Machine, world: World, past: seq<Action>, start: nat, lost: set<nat>)
    requires !m.pc.Receiving? && !m.pc.Publishing? && !m.pc.Storing? && AllAccounted(m, past, start, lost)
    ensures AllAccounted(Micro(m, world), past, start, lost)
  {
    var m' := Micro(m, world);
    if m'.g.journal != m.g.journal {
      SettledAppend(past, m.g.journal, m'.g.journal[|m.g.journal|]);
      assert m'.g.journal == m.g.journal + [m'.g.journal[|m.g.journal|]];
    }
    AccountedSame(m, m', past, start, lost);
  }

  lemma AccountedStep(m: Machine, world: World, past: seq<Action>, start: nat, lost: set<nat>)
    requires AllAccounted(m, past, start, lost)
    ensures AllAccounted(Micro(m, world), past, start, lost)
  {
    match m.pc
    case Receiving => AccountedAdmit(m.g, world, past, start, lost);
    case Publishing(event) => AccountedPublish(m.g, world, event, past, start, lost);
    case Storing(event) => AccountedStore(m.g, world, event, past, start, lost);
    case _ => AccountedOther(m, world, past, start, lost);
  }

  lemma RunAccounts(p: Process, world: World, steps: nat, start: nat, lost: set<nat>)
    requires AllAccounted(p.m, p.past, start, lost)
    ensures AllAccounted(Run(p, world, steps).m, p.past, start, lost)
  {
    var inv := m => AllAccounted(m, p.past, start, lost);
    forall m {:trigger Micro(m, world)} | inv(m) ensures inv(Micro(m, world)) {
      AccountedStep(m, world, p.past, start, lost);
    }
    MicrosKeep(inv, world, p.m, steps);
  }

  /** A crash loses the event in hand, if there is one. */
  lemma CrashLosesOne(p: Process, life: Life, start: nat, lost: set<nat>) returns (more: set<nat>)
    requires AllAccounted(p.m, p.past, start, lost)
    ensures var q := Reopen(p, life.maxSize, life.link, life.sessionId); AllAccounted(q.m, q.past, start, more)
    ensures |more| <= |lost| + 1
  {
    var q := Reopen(p, life.maxSize, life.link, life.sessionId);
    assert q.past + q.m.g.journal == History(p);
    more := lost + (if Candidate(p.m.pc).Some? then {Candidate(p.m.pc).value} else {});
  }

  lemma {:induction false} LivesLoseOneEach(p: Process, lives: seq<Life>, start: nat) returns (lost: set<nat>)
    requires AllAccounted(p.m, p.past, start, {})
    ensures AllAccounted(Lives(p, lives).m, Lives(p, lives).past, start, lost) && |lost| <= |lives|
  {
    if lives == [] {
      return {};
    }
    var before, life := lives[..|lives| - 1], lives[|lives| - 1];
    lost := LivesLoseOneEach(p, before, start);
    RunAccounts(Lives(p, before), life.world, life.steps, start, lost);
    lost := CrashLosesOne(Run(Lives(p, before), life.world, life.steps), life, start, lost);
  }

  // --- what settled means ---

  /** Refused by validation, or acknowledged live. */
  ghost predicate Concluded(history: seq<Action>, id: nat) {
    Refused(id) in history || exists event: Event :: event.eventId == id && Live(event, true) in history
  }

  /** Stored as a row that is still in the table, was confirmed by a replay, or
      was trimmed for space. */
  ghost predicate Kept(p: Process, id: nat) {
    exists r: Row :: r.eventId == id && r in StoredRows(History(p)) &&
      (r in p.m.g.table.rows || r.id in RowAcks(History(p)) || r in TrimmedRows(History(p)))
  }

  lemma {:induction false} SettledIsConcludedOrStored(history: seq<Action>, id: nat)
    requires id in SettledIds(history)
    ensures Concluded(history, id) || exists r: Row :: r.eventId == id && r in StoredRows(history)
  {
    var before, a := history[..|history| - 1], history[|history| - 1];
    if id in SettledIds(before) {
      SettledIsConcludedOrStored(before, id);
      assert forall x :: x in before ==> x in history;
      assert StoredRows(before) <= StoredRows(history);
    } else {
      assert a in history;
    }
  }

  lemma SettledIsKept(g: Gateway, lives: seq<Life>, world: World, steps: nat, id: nat)
    requires g.journal == [] && WellFormed(g.table)
    requires id in SettledIds(History(Run(Lives(FirstProcess(g), lives), world, steps)))
    ensures var p := Run(Lives(FirstProcess(g), lives), world, steps); Concluded(History(p), id) || Kept(p, id)
  {
    var p := Run(Lives(FirstProcess(g), lives), world, steps);
    SettledIsConcludedOrStored(History(p), id);
    if !Concluded(History(p), id) {
      var r: Row :| r.eventId == id && r in StoredRows(History(p));
      NothingIsLost(g, lives, world, steps, r);
    }
  }

  /** Over any number of processes, each killed after any atomic effect, in any
      worlds: every event decoded since the first start was refused, acknowledged
      live, or stored and is still there, confirmed or trimmed, or it is the one
      in hand; except at most one per crash. */
  lemma CrashesLoseAtMostOneEventEach(g: Gateway, lives: seq<Life>, world: World, steps: nat) returns (lost: set<nat>)
    requires g.journal == [] && WellFormed(g.table)
    ensures |lost| <= |lives|
    ensures var p := Run(Lives(FirstProcess(g), lives), world, steps);
            forall id :: g.minted <= id < p.m.g.minted ==>
              id in lost || Candidate(p.m.pc) == Some(id) || Concluded(History(p), id) || Kept(p, id)
  {
    lost := LivesLoseOneEach(FirstProcess(g), lives, g.minted);
    RunAccounts(Lives(FirstProcess(g), lives), world, steps, g.minted, lost);
    var p := Run(Lives(FirstProcess(g), lives), world, steps);
    forall id | g.minted <= id < p.m.g.minted
      ensures id in lost || Candidate(p.m.pc) == Some(id) || Concluded(History(p), id) || Kept(p, id)
    {
      if id in SettledIds(History(p)) {
        SettledIsKept(g, lives, world, steps, id);
      }
    }
  }
}
