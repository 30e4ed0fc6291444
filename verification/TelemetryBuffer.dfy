/** The durable, ordered, size-bounded buffer. A `Table` is the content of the
    database file: the pending rows in id order and the AUTOINCREMENT counter,
    which outlive the object that opened the file. */
module TelemetryBuffers {
  import opened Telemetry

  /** The payload is the event's own serialisation, carried as the event. */
  datatype Row = Row(id: nat, eventId: nat, topic: Topic, payload: Event)

  datatype Table = Table(rows: seq<Row>, lastId: nat)

  const EMPTY_TABLE := Table([], 0)

  ghost predicate AscendingIds(rows: seq<Row>) {
    forall i, j :: 0 <= i < j < |rows| ==> rows[i].id < rows[j].id
  }

  ghost predicate WellFormed(t: Table) {
    && (forall i :: 0 <= i < |t.rows| ==> 0 < t.rows[i].id <= t.lastId)
    && AscendingIds(t.rows)
  }

  function Ids(rows: seq<Row>): (ids: seq<nat>)
    ensures |ids| == |rows| && forall i :: 0 <= i < |rows| ==> ids[i] == rows[i].id
  {
    seq(|rows|, i requires 0 <= i < |rows| => rows[i].id)
  }

  function EventIdsOf(rows: seq<Row>): (ids: seq<nat>)
    ensures |ids| == |rows| && forall i :: 0 <= i < |rows| ==> ids[i] == rows[i].eventId
  {
    seq(|rows|, i requires 0 <= i < |rows| => rows[i].eventId)
  }

  // --- the statements ---

  /** DELETE ... WHERE id IN ids. */
  function DeleteIds(rows: seq<Row>, ids: seq<nat>): seq<Row> {
    if rows == [] then []
    else (if rows[0].id in ids then [] else [rows[0]]) + DeleteIds(rows[1..], ids)
  }

  /** SELECT ... ORDER BY id ASC LIMIT limit; a negative limit is no limit. */
  function Oldest(rows: seq<Row>, limit: int): seq<Row> {
    if 0 <= limit <= |rows| then rows[..limit] else rows
  }

  function Append(t: Table, eventId: nat, topic: Topic, payload: Event): Table {
    Table(t.rows + [Row(t.lastId + 1, eventId, topic, payload)], t.lastId + 1)
  }

  // --- the specification of the whole buffer: append, then keep the newest ---

  function LastN(rows: seq<Row>, n: int): seq<Row> {
    if n <= 0 then [] else if |rows| <= n then rows else rows[|rows| - n..]
  }

  lemma LastNIsSuffix(rows: seq<Row>, n: int)
    ensures |LastN(rows, n)| <= |rows| && LastN(rows, n) == rows[|rows| - |LastN(rows, n)|..]
  {
  }

  function Enqueued(t: Table, maxSize: int, eventId: nat, topic: Topic, payload: Event): Table {
    var longer := Append(t, eventId, topic, payload);
    longer.(rows := LastN(longer.rows, maxSize))
  }

  function Removed(t: Table, ids: seq<nat>): Table {
    t.(rows := DeleteIds(t.rows, ids))
  }

  lemma {:induction false} DeleteIdsKeepsRows(rows: seq<Row>, ids: seq<nat>)
    requires AscendingIds(rows)
    ensures var kept := DeleteIds(rows, ids);
            && (forall r :: r in kept <==> r in rows && r.id !in ids)
            && AscendingIds(kept)
            && |kept| <= |rows|
  {
    if rows != [] {
      DeleteIdsKeepsRows(rows[1..], ids);
    }
  }

  lemma TailRows(rows: seq<Row>)
    requires AscendingIds(rows) && rows != []
    ensures forall r :: r in rows[1..] <==> r in rows && r != rows[0]
  {
    assert rows == [rows[0]] + rows[1..];
  }

  /** Rows in id order are determined by which rows they are. */
  lemma {:induction false} SameRowsInOrder(a: seq<Row>, b: seq<Row>)
    requires AscendingIds(a) && AscendingIds(b) && forall r :: r in a <==> r in b
    ensures a == b
  {
    assert b != [] ==> b[0] in b;
    if a != [] {
      assert a[0] in b && b[0] in a;
      var i :| 0 <= i < |a| && a[i] == b[0];
      var j :| 0 <= j < |b| && b[j] == a[0];
      assert i == 0 && j == 0;
      TailRows(a);
      TailRows(b);
      SameRowsInOrder(a[1..], b[1..]);
    }
  }

  /** Deleting the ids of the first rows leaves exactly the rest. */
  lemma DeleteOldest(rows: seq<Row>, n: nat)
    requires AscendingIds(rows) && n <= |rows|
    ensures DeleteIds(rows, Ids(rows[..n])) == rows[n..]
  {
    PrefixIds(rows, n);
    DeletePrefix(rows, Ids(rows[..n]), n);
  }

  lemma PrefixIds(rows: seq<Row>, n: nat)
    requires AscendingIds(rows) && n <= |rows|
    ensures forall i :: 0 <= i < |rows| ==> (rows[i].id in Ids(rows[..n]) <==> i < n)
  {
    forall i | 0 <= i < n ensures rows[i].id in Ids(rows[..n]) {
      assert Ids(rows[..n])[i] == rows[i].id;
    }
  }

  lemma {:induction false} DeletePrefix(rows: seq<Row>, ids: seq<nat>, n: nat)
    requires n <= |rows|
    requires forall i :: 0 <= i < |rows| ==> (rows[i].id in ids <==> i < n)
    ensures DeleteIds(rows, ids) == rows[n..]
  {
    if rows != [] {
      var m := if n == 0 then 0 else n - 1;
      assert forall i :: 0 <= i < |rows| - 1 ==> rows[1..][i] == rows[i + 1];
      DeletePrefix(rows[1..], ids, m);
    }
  }

  /** What `enqueue` and `remove` keep: ids strictly increase, and every row was
      numbered by the counter. A new row's id is above every id ever used. */
  lemma EnqueueKeepsWellFormed(t: Table, maxSize: int, eventId: nat, topic: Topic, payload: Event)
    requires WellFormed(t)
    ensures WellFormed(Enqueued(t, maxSize, eventId, topic, payload))
  {
  }

  lemma RemoveKeepsWellFormed(t: Table, ids: seq<nat>)
    requires WellFormed(t)
    ensures WellFormed(Removed(t, ids))
  {
    DeleteIdsKeepsRows(t.rows, ids);
    var kept := DeleteIds(t.rows, ids);
    forall i | 0 <= i < |kept| ensures 0 < kept[i].id <= t.lastId {
      assert kept[i] in t.rows;
    }
  }

  // --- the classes ---

  /** The database file. */
  class PendingTable {
    var rows: seq<Row>
    var lastId: nat

    function Contents(): Table
      reads this
    {
      Table(rows, lastId)
    }

    constructor ()
      ensures Contents() == EMPTY_TABLE
    {
      rows, lastId := [], 0;
    }
  }

  /** How many oldest rows one trim deletes, and what it adds to the counter. */
  function Overflow(count: nat, maxSize: int): nat {
    if count - maxSize <= 0 then 0 else count - maxSize
  }

  class TelemetryBuffer {
    const store: PendingTable
    const maxSize: int
    var droppedCount: int

    /** Opening an existing file drops nothing, however small `maxSize` is. */
    constructor (store: PendingTable, maxSize: int)
      ensures this.store == store && this.maxSize == maxSize && droppedCount == 0
    {
      this.store, this.maxSize, droppedCount := store, maxSize, 0;
    }

    method Enqueue(eventId: nat, topic: Topic, payload: Event)
      requires WellFormed(store.Contents())
      modifies this`droppedCount, store
      ensures store.Contents() == Enqueued(old(store.Contents()), maxSize, eventId, topic, payload)
      ensures WellFormed(store.Contents())
      ensures droppedCount == old(droppedCount) + Overflow(|old(store.rows)| + 1, maxSize)
    {
      store.rows := store.rows + [Row(store.lastId + 1, eventId, topic, payload)];
      store.lastId := store.lastId + 1;
      EnqueueKeepsWellFormed(old(store.Contents()), maxSize, eventId, topic, payload);
      assert WellFormed(store.Contents());
      var _ := TrimToMax();
    }

    method TrimToMax() returns (dropped: nat)
      requires WellFormed(store.Contents())
      modifies this`droppedCount, store`rows
      ensures dropped == Overflow(|old(store.rows)|, maxSize)
      ensures store.rows == LastN(old(store.rows), maxSize)
      ensures droppedCount == old(droppedCount) + dropped
    {
      var count := |store.rows|;
      var overflow := count - maxSize;
      if overflow <= 0 {
        return 0;
      }
      var oldest := Oldest(store.rows, overflow);
      DeleteOldest(store.rows, |oldest|);
      assert store.rows[..|oldest|] == oldest;
      store.rows := DeleteIds(store.rows, Ids(oldest));
      droppedCount := droppedCount + overflow;
      return overflow;
    }

    /** The oldest rows: a prefix of the table, cut at the limit unless that is
        negative, with ascending ids below those of all other rows. */
    method PeekBatch(limit: int) returns (batch: seq<Row>)
      requires WellFormed(store.Contents())
      ensures batch <= store.rows
      ensures |batch| == if 0 <= limit < |store.rows| then limit else |store.rows|
      ensures AscendingIds(batch)
      ensures forall i, j :: 0 <= i < |batch| <= j < |store.rows| ==> batch[i].id < store.rows[j].id
    {
      batch := Oldest(store.rows, limit);
    }

    /** Exactly the rows with these ids go; the others stay, in id order. */
    method Remove(ids: seq<nat>)
      requires WellFormed(store.Contents())
      modifies store`rows
      ensures forall r :: r in store.rows <==> r in old(store.rows) && r.id !in ids
      ensures WellFormed(store.Contents())
    {
      if ids == [] {
        return;
      }
      RemoveKeepsWellFormed(store.Contents(), ids);
      DeleteIdsKeepsRows(store.rows, ids);
      store.rows := DeleteIds(store.rows, ids);
    }

    method Count() returns (count: nat)
      ensures count == |store.rows|
    {
      count := |store.rows|;
    }
  }

  /** `dropped_count` grows by the rows really trimmed exactly when the size
      bound is not negative: below zero the overflow exceeds the row count, so
      every trim over-counts. */
  lemma DroppedCountIsExact(t: Table, maxSize: int, eventId: nat, topic: Topic, payload: Event)
    ensures Overflow(|t.rows| + 1, maxSize) == |t.rows| + 1 - |Enqueued(t, maxSize, eventId, topic, payload).rows|
            <==> maxSize >= 0
  {
  }

  // --- histories of one file, over any number of processes ---

  /** Enqueues carry the size bound of the instance that makes them, so closing
      and reopening with another bound is a change of that number. */
  datatype Statement = Enqueue(maxSize: int, eventId: nat, topic: Topic, payload: Event) | Remove(ids: seq<nat>)

  function Apply(t: Table, statement: Statement): Table {
    match statement
    case Enqueue(maxSize, eventId, topic, payload) => Enqueued(t, maxSize, eventId, topic, payload)
    case Remove(ids) => Removed(t, ids)
  }

  function ApplyAll(t: Table, ops: seq<Statement>): Table
    decreases |ops|
  {
    if ops == [] then t else ApplyAll(Apply(t, ops[0]), ops[1..])
  }

  lemma OpKeepsIdentity(t: Table, statement: Statement)
    requires WellFormed(t)
    ensures var later := Apply(t, statement);
            && WellFormed(later) && t.lastId <= later.lastId
            && forall r :: r in later.rows && r.id <= t.lastId ==> r in t.rows
  {
    match statement
    case Enqueue(maxSize, eventId, topic, payload) =>
      EnqueueKeepsWellFormed(t, maxSize, eventId, topic, payload);
    case Remove(ids) =>
      RemoveKeepsWellFormed(t, ids);
      DeleteIdsKeepsRows(t.rows, ids);
  }

  /** Over every history the rows stay ordered and the counter never goes back,
      and a row with an id already given out is the very row it was given to. */
  lemma {:induction false} HistoryKeepsIdentity(t: Table, ops: seq<Statement>)
    requires WellFormed(t)
    ensures var later := ApplyAll(t, ops);
            && WellFormed(later) && t.lastId <= later.lastId
            && forall r :: r in later.rows && r.id <= t.lastId ==> r in t.rows
    decreases |ops|
  {
    if ops != [] {
      OpKeepsIdentity(t, ops[0]);
      HistoryKeepsIdentity(Apply(t, ops[0]), ops[1..]);
    }
  }

  /** Removing a batch that was peeked before any amount of later traffic
      deletes exactly the rows of that batch that are still there. */
  lemma StalePeekRemovesOnlyItsRows(t: Table, limit: int, ops: seq<Statement>)
    requires WellFormed(t)
    ensures var batch, later := Oldest(t.rows, limit), ApplyAll(t, ops);
            forall r :: r in Removed(later, Ids(batch)).rows <==> r in later.rows && r !in batch
  {
    HistoryKeepsIdentity(t, ops);
    var batch, later := Oldest(t.rows, limit), ApplyAll(t, ops);
    DeleteIdsKeepsRows(later.rows, Ids(batch));
    forall r | r in later.rows ensures r.id in Ids(batch) <==> r in batch {
    }
  }

  function NewRows(lastId: nat, ops: seq<Statement>): seq<Row>
    decreases |ops|
  {
    if ops == [] then [] else
    match ops[0]
    case Enqueue(_, eventId, topic, payload) =>
      [Row(lastId + 1, eventId, topic, payload)] + NewRows(lastId + 1, ops[1..])
    case Remove(_) => NewRows(lastId, ops[1..])
  }

  /** Any burst of enqueues under one bound, on a file of any size, leaves the
      newest `maxSize` rows of everything appended. */
  lemma {:induction false} BurstKeepsNewest(t: Table, maxSize: int, ops: seq<Statement>)
    requires ops != [] && forall i :: 0 <= i < |ops| ==> ops[i].Enqueue? && ops[i].maxSize == maxSize
    ensures ApplyAll(t, ops).rows == LastN(t.rows + NewRows(t.lastId, ops), maxSize)
    decreases |ops|
  {
    var next := Apply(t, ops[0]);
    var row := Row(t.lastId + 1, ops[0].eventId, ops[0].topic, ops[0].payload);
    if |ops| == 1 {
      assert NewRows(t.lastId, ops) == [row] + NewRows(t.lastId + 1, ops[1..]) == [row];
      assert ApplyAll(t, ops) == ApplyAll(next, ops[1..]) == next;
    } else {
      BurstKeepsNewest(next, maxSize, ops[1..]);
      var rest := NewRows(t.lastId + 1, ops[1..]);
      assert t.rows + [row] + rest == t.rows + NewRows(t.lastId, ops);
    }
  }

  // --- the drop counter of one instance ---

  /** What one instance adds to `dropped_count` over a history. */
  function CountedDrops(t: Table, ops: seq<Statement>): nat
    decreases |ops|
  {
    if ops == [] then 0 else
    (if ops[0].Enqueue? then Overflow(|t.rows| + 1, ops[0].maxSize) else 0) + CountedDrops(Apply(t, ops[0]), ops[1..])
  }

  /** The rows its enqueues trim. */
  function RowsTrimmed(t: Table, ops: seq<Statement>): seq<Row>
    decreases |ops|
  {
    if ops == [] then [] else
    (match ops[0]
     case Enqueue(maxSize, eventId, topic, payload) =>
       var longer := Append(t, eventId, topic, payload).rows;
       longer[..|longer| - |LastN(longer, maxSize)|]
     case Remove(_) => [])
    + RowsTrimmed(Apply(t, ops[0]), ops[1..])
  }

  /** Over every history of an instance, `dropped_count` is the number of rows
      its enqueues trimmed, exactly when the size bound is not negative or
      nothing was enqueued; it is never less. */
  lemma {:induction false} CounterIsExactOverHistory(t: Table, maxSize: int, ops: seq<Statement>)
    requires forall i :: 0 <= i < |ops| && ops[i].Enqueue? ==> ops[i].maxSize == maxSize
    ensures CountedDrops(t, ops) >= |RowsTrimmed(t, ops)|
    ensures CountedDrops(t, ops) == |RowsTrimmed(t, ops)| <==>
            maxSize >= 0 || forall i :: 0 <= i < |ops| ==> ops[i].Remove?
    decreases |ops|
  {
    if ops != [] {
      CounterIsExactOverHistory(Apply(t, ops[0]), maxSize, ops[1..]);
      if ops[0].Enqueue? {
        DroppedCountIsExact(t, maxSize, ops[0].eventId, ops[0].topic, ops[0].payload);
      } else {
        assert forall i :: 0 < i < |ops| ==> ops[i] == ops[1..][i - 1];
      }
    }
  }
}
