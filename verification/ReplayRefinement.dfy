/** Replaying in batches, with one delete per batch, against the simple queue
    discipline: send the oldest row, delete it, repeat. */
module ReplayRefinement {
  import opened TelemetryBuffers
  import opened Gateways

  /** The simple loop: every confirmed row is deleted before the next is sent. */
  function ReplayOneByOne(g: Gateway, world: World): (Gateway, bool)
    decreases |g.table.rows|
  {
    if g.table.rows == [] then (g, true) else
    var g0 := Observe(g, world);
    if !g0.link.connected then (g0, false) else
    var row := g.table.rows[0];
    var g1 := Resend(g0, world, row);
    if !SendSucceeds(g0, world) then (g1, false) else
    assert g1.table == g.table;
    DeletedBatchShrinksTable(g1.table, [row]);
    ReplayOneByOne(DeleteConfirmed(g1, [row]), world)
  }

  /** The publish calls of a journal, with their outcomes. */
  function Sends(journal: seq<Action>): seq<Action> {
    if journal == [] then [] else
    var last := journal[|journal| - 1];
    Sends(journal[..|journal| - 1]) + (if last.Live? || last.Resent? then [last] else [])
  }

  /** The two differ in table and journal only. */
  predicate SameBut(g: Gateway, s: Gateway) {
    s.(table := g.table, journal := g.journal) == g
  }

  /** `s` is `g` with its first k rows already deleted; only the grouping of
      the deletes in the journal may differ. */
  ghost predicate Ahead(g: Gateway, s: Gateway, k: nat) {
    && SameBut(g, s)
    && Sends(s.journal) == Sends(g.journal)
    && s.table.lastId == g.table.lastId
    && k <= |g.table.rows| && s.table.rows == g.table.rows[k..]
  }

  lemma DeleteFirst(t: Table)
    requires WellFormed(t) && t.rows != []
    ensures Removed(t, Ids([t.rows[0]])) == t.(rows := t.rows[1..])
  {
    assert t.rows[..1] == [t.rows[0]];
    ConfirmedAreDeleted(t, [t.rows[0]]);
  }

  lemma AheadDeletesOne(g: Gateway, s: Gateway, k: nat)
    requires WellFormed(g.table) && Ahead(g, s, k) && k < |g.table.rows|
    ensures s.table.rows[0] == g.table.rows[k]
    ensures Ahead(g, DeleteConfirmed(s, [s.table.rows[0]]), k + 1)
  {
    DeleteFirst(s.table);
    assert g.table.rows[k..][1..] == g.table.rows[k + 1..];
  }

  lemma AheadCatchesUp(g: Gateway, s: Gateway, confirmed: seq<Row>)
    requires WellFormed(g.table) && Ahead(g, s, |confirmed|) && confirmed <= g.table.rows
    ensures Ahead(DeleteConfirmed(g, confirmed), s, 0)
    ensures WellFormed(DeleteConfirmed(g, confirmed).table)
    ensures DeleteConfirmed(g, confirmed).table.rows == g.table.rows[|confirmed|..]
  {
    ConfirmedAreDeleted(g.table, confirmed);
    assert g.table.rows[0..] == g.table.rows;
  }

  lemma AheadSends(g: Gateway, s: Gateway, k: nat, world: World)
    requires Ahead(g, s, k) && k < |g.table.rows| && WellFormed(g.table)
    ensures var row, g0, s0 := g.table.rows[k], Observe(g, world), Observe(s, world);
            && Ahead(g0, s0, k) && SendSucceeds(g0, world) == SendSucceeds(s0, world)
            && s0.table.rows != [] && s0.table.rows[0] == row
            && Ahead(Resend(g0, world, row), Resend(s0, world, row), k)
            && Ahead(Resend(g0, world, row), DeleteConfirmed(Resend(s0, world, row), [row]), k + 1)
  {
    var row, g0, s0 := g.table.rows[k], Observe(g, world), Observe(s, world);
    AheadDeletesOne(Resend(g0, world, row), Resend(s0, world, row), k);
  }

  /** One row of the simple loop. */
  lemma SimpleStep(s: Gateway, world: World, row: Row)
    requires s.table.rows != [] && s.table.rows[0] == row
    ensures var s0 := Observe(s, world);
            ReplayOneByOne(s, world) ==
            if !s0.link.connected then (s0, false)
            else if !SendSucceeds(s0, world) then (Resend(s0, world, row), false)
            else ReplayOneByOne(DeleteConfirmed(Resend(s0, world, row), [row]), world)
  {
  }

  /** The simple loop, started where the batch loop starts, reaches s'; it goes
      on from there if the batch was completed and stops there if it was not. */
  ghost predicate Lockstep(s: Gateway, world: World, batch: (Gateway, seq<Row>), length: nat, s': Gateway) {
    && Ahead(batch.0, s', |batch.1|)
    && ReplayOneByOne(s, world) == if |batch.1| == length then ReplayOneByOne(s', world) else (s', false)
  }

  lemma LockstepStops(g: Gateway, s: Gateway, world: World, sent: seq<Row>, row: Row, rest: seq<Row>)
    returns (s': Gateway)
    requires WellFormed(g.table) && sent + [row] + rest <= g.table.rows && Ahead(g, s, |sent|)
    requires var g0 := Observe(g, world); !g0.link.connected || !SendSucceeds(g0, world)
    ensures Lockstep(s, world, ReplayBatch(g, world, sent, [row] + rest), |sent| + 1 + |rest|, s')
  {
    NextInBatch(g.table.rows, sent, row, rest);
    AheadSends(g, s, |sent|, world);
    SimpleStep(s, world, row);
    var s0 := Observe(s, world);
    s' := if s0.link.connected then Resend(s0, world, row) else s0;
  }

  lemma LockstepGoesOn(g: Gateway, s: Gateway, world: World, sent: seq<Row>, row: Row, rest: seq<Row>)
    requires WellFormed(g.table) && sent + [row] + rest <= g.table.rows && Ahead(g, s, |sent|)
    requires var g0 := Observe(g, world); g0.link.connected && SendSucceeds(g0, world)
    ensures var g1 := Resend(Observe(g, world), world, row);
            var s1 := DeleteConfirmed(Resend(Observe(s, world), world, row), [row]);
            && WellFormed(g1.table) && (sent + [row]) + rest <= g1.table.rows && Ahead(g1, s1, |sent + [row]|)
  {
    NextInBatch(g.table.rows, sent, row, rest);
    AheadSends(g, s, |sent|, world);
  }

  /** One batch, row by row in lockstep with the simple loop. */
  lemma {:induction false} BatchRefines(g: Gateway, s: Gateway, world: World, sent: seq<Row>, pending: seq<Row>)
    returns (s': Gateway)
    requires WellFormed(g.table) && sent + pending <= g.table.rows && Ahead(g, s, |sent|)
    ensures Lockstep(s, world, ReplayBatch(g, world, sent, pending), |sent| + |pending|, s')
    decreases |pending|
  {
    if pending == [] {
      return s;
    }
    var row, rest, g0 := pending[0], pending[1..], Observe(g, world);
    assert pending == [row] + rest && sent + pending == sent + [row] + rest;
    if g0.link.connected && SendSucceeds(g0, world) {
      LockstepGoesOn(g, s, world, sent, row, rest);
      s' := BatchRefines(Resend(g0, world, row), DeleteConfirmed(Resend(Observe(s, world), world, row), [row]),
                         world, sent + [row], rest);
    } else {
      s' := LockstepStops(g, s, world, sent, row, rest);
    }
  }

  lemma {:induction false} ReplayRefinesAhead(g: Gateway, s: Gateway, world: World, limit: nat)
    requires limit >= 1 && WellFormed(g.table) && Ahead(g, s, 0)
    ensures var (a, drained), (b, drained') := Replay(g, world, limit), ReplayOneByOne(s, world);
            Ahead(a, b, 0) && drained == drained' && WellFormed(a.table)
    decreases |g.table.rows|
  {
    var batch := Oldest(g.table.rows, limit);
    if batch != [] {
      var (g1, confirmed) := ReplayBatch(g, world, [], batch);
      assert [] + batch == batch && batch <= g.table.rows;
      var s1 := BatchRefines(g, s, world, [], batch);
      assert confirmed <= g.table.rows;
      AheadCatchesUp(g1, s1, confirmed);
      if |confirmed| == |batch| {
        ReplayRefinesAhead(DeleteConfirmed(g1, confirmed), s1, world, limit);
      }
    }
  }

  /** For every batch size and every world, the batched replay makes the same
      publish calls with the same outcomes, ends in the same state and returns
      the same answer as the simple loop; only the grouping of deletes differs. */
  lemma ReplayRefinesSimpleLoop(g: Gateway, world: World, limit: nat)
    requires limit >= 1 && WellFormed(g.table)
    ensures var (a, drained), (b, drained') := Replay(g, world, limit), ReplayOneByOne(g, world);
            && drained == drained'
            && a.(journal := []) == b.(journal := [])
            && Sends(a.journal) == Sends(b.journal)
  {
    ReplayRefinesAhead(g, g, world, limit);
  }

  function Confirmations(rows: seq<Row>): (r: seq<Action>)
    ensures |r| == |rows|
  {
    seq(|rows|, i requires 0 <= i < |rows| => Resent(rows[i], true))
  }

  /** The replay confirmed the oldest k rows in order, possibly failed on the
      next one, deleted exactly the confirmed rows, counted them, and answered
      whether the table is empty. */
  ghost predicate ConfirmsPrefix(g: Gateway, after: Gateway, drained: bool, k: nat, failed: seq<Action>) {
    && k <= |g.table.rows|
    && after.table == g.table.(rows := g.table.rows[k..])
    && Sends(after.journal) == Sends(g.journal) + Confirmations(g.table.rows[..k]) + failed
    && (failed == [] || (k < |g.table.rows| && failed == [Resent(g.table.rows[k], false)]))
    && (drained <==> after.table.rows == [])
    && after.metrics == g.metrics.(replayed := g.metrics.replayed + k)
  }

  lemma ConfirmsOneMore(g: Gateway, g2: Gateway, after: Gateway, drained: bool, k: nat, failed: seq<Action>)
    requires g.table.rows != [] && g2.table == g.table.(rows := g.table.rows[1..])
    requires Sends(g2.journal) == Sends(g.journal) + [Resent(g.table.rows[0], true)]
    requires g2.metrics == g.metrics.(replayed := g.metrics.replayed + 1)
    requires ConfirmsPrefix(g2, after, drained, k, failed)
    ensures ConfirmsPrefix(g, after, drained, k + 1, failed)
  {
    var rows := g.table.rows;
    assert rows[1..][k..] == rows[k + 1..];
    assert Confirmations(rows[..k + 1]) == [Resent(rows[0], true)] + Confirmations(rows[1..][..k]);
  }

  lemma FirstRowConfirmed(g: Gateway, g0: Gateway, world: World)
    requires WellFormed(g.table) && g.table.rows != [] && g0 == Observe(g, world) && SendSucceeds(g0, world)
    ensures var row := g.table.rows[0];
            var g2 := DeleteConfirmed(Resend(g0, world, row), [row]);
            && g2.table == g.table.(rows := g.table.rows[1..]) && WellFormed(g2.table)
            && Sends(g2.journal) == Sends(g.journal) + [Resent(row, true)]
            && g2.metrics == g.metrics.(replayed := g.metrics.replayed + 1)
  {
    DeleteFirst(g.table);
  }

  /** The loop ends before a row is confirmed. */
  lemma ConfirmsNothing(g: Gateway, world: World) returns (failed: seq<Action>)
    requires var g0 := Observe(g, world); g.table.rows == [] || !g0.link.connected || !SendSucceeds(g0, world)
    ensures var (after, drained) := ReplayOneByOne(g, world); ConfirmsPrefix(g, after, drained, 0, failed)
  {
    failed := if g.table.rows == [] || !Observe(g, world).link.connected then [] else [Resent(g.table.rows[0], false)];
    assert Sends(g.journal) + [] + failed == Sends(g.journal) + failed;
    assert failed == [] ==> Sends(g.journal) + failed == Sends(g.journal);
  }

  lemma {:induction false} SimpleLoopConfirmsPrefix(g: Gateway, world: World) returns (k: nat, failed: seq<Action>)
    requires WellFormed(g.table)
    ensures var (after, drained) := ReplayOneByOne(g, world); ConfirmsPrefix(g, after, drained, k, failed)
    decreases |g.table.rows|
  {
    var g0 := Observe(g, world);
    if g.table.rows == [] || !g0.link.connected || !SendSucceeds(g0, world) {
      k := 0;
      failed := ConfirmsNothing(g, world);
    } else {
      var row := g.table.rows[0];
      var g2 := DeleteConfirmed(Resend(g0, world, row), [row]);
      FirstRowConfirmed(g, g0, world);
      SimpleStep(g, world, row);
      k, failed := SimpleLoopConfirmsPrefix(g2, world);
      var (after, drained) := ReplayOneByOne(g2, world);
      ConfirmsOneMore(g, g2, after, drained, k, failed);
      k := k + 1;
    }
  }

  /** The same for the batched replay, for every batch size and every world. */
  lemma ReplayConfirmsPrefix(g: Gateway, world: World, limit: nat) returns (k: nat, failed: seq<Action>)
    requires limit >= 1 && WellFormed(g.table)
    ensures var (after, drained) := Replay(g, world, limit); ConfirmsPrefix(g, after, drained, k, failed)
  {
    k, failed := SimpleLoopConfirmsPrefix(g, world);
    ReplayRefinesSimpleLoop(g, world, limit);
    var a, b := Replay(g, world, limit).0, ReplayOneByOne(g, world).0;
    assert a.(journal := []).table == a.table && a.(journal := []).metrics == a.metrics;
    assert b.(journal := []).table == b.table && b.(journal := []).metrics == b.metrics;
  }
}
