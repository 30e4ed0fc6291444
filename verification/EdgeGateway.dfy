/** The gateway object: its loop mutates the buffer, the publisher, the metrics
    and the replay flag. Each method is proved to do what the functions of
    module Gateways say, so the theorems about those hold of the object. */
module EdgeGateways {
  import opened Telemetry
  import opened Ingestion
  import opened TelemetryBuffers
  import opened MqttPublishers
  import opened Gateways

  class GatewayMetrics {
    var processed: nat
    var rejected: nat
    var publishFailures: nat
    var buffered: nat
    var replayed: nat

    function State(): Metrics
      reads this
    {
      Metrics(processed, rejected, publishFailures, buffered, replayed)
    }

    constructor ()
      ensures State() == NO_METRICS
    {
      processed, rejected, publishFailures, buffered, replayed := 0, 0, 0, 0, 0;
    }

    method RecordProcessed()
      modifies this
      ensures State() == old(State()).(processed := old(processed) + 1)
    {
      processed := processed + 1;
    }

    method RecordRejected()
      modifies this
      ensures State() == old(State()).(rejected := old(rejected) + 1)
    {
      rejected := rejected + 1;
    }

    method RecordPublishFailure()
      modifies this
      ensures State() == old(State()).(publishFailures := old(publishFailures) + 1)
    {
      publishFailures := publishFailures + 1;
    }

    method RecordBuffered()
      modifies this
      ensures State() == old(State()).(buffered := old(buffered) + 1)
    {
      buffered := buffered + 1;
    }

    /** A negative count is refused and nothing is counted. */
    method RecordReplayed(count: int) returns (r: Result<(), ()>)
      modifies this
      ensures count < 0 ==> r == Err(()) && State() == old(State())
      ensures count >= 0 ==> r == Ok(()) && State() == old(State()).(replayed := old(replayed) + count)
    {
      if count < 0 {
        return Err(());
      }
      replayed := replayed + count;
      return Ok(());
    }
  }

  /** `MetricsSnapshot`: one run's counters and the buffer's drop count. */
  datatype Snapshot = Snapshot(sessionId: string, metrics: Metrics, dropped: int)

  /** The bus, the broker, the clock and the other threads, one moment after
      the other, and the source of fresh event ids. */
  class Outside {
    const moments: World
    var cursor: nat
    var minted: nat

    constructor (moments: World, minted: nat)
      ensures this.moments == moments && this.minted == minted && cursor == 0
    {
      this.moments, this.minted, cursor := moments, minted, 0;
    }
  }

  class EdgeGateway {
    const outside: Outside
    const publisher: MqttPublisher
    const buffer: TelemetryBuffer
    const metrics: GatewayMetrics
    const sessionId: string
    const vehicleId: string
    var replayRequested: bool
    ghost var received: nat
    ghost var ignored: nat
    ghost var journal: seq<Action>

    ghost function State(): Gateway
      reads this, outside, publisher, buffer, buffer.store, metrics
    {
      Gateway(buffer.store.Contents(), buffer.maxSize, buffer.droppedCount, publisher.State(), replayRequested,
              metrics.State(), sessionId, vehicleId, outside.minted, received, ignored, outside.cursor, journal)
    }

    ghost predicate Valid()
      reads buffer.store
    {
      WellFormed(buffer.store.Contents())
    }

    constructor (outside: Outside, publisher: MqttPublisher, buffer: TelemetryBuffer, sessionId: string,
                 vehicleId: string)
      requires WellFormed(buffer.store.Contents()) && buffer.droppedCount == 0 && outside.cursor == 0
      ensures Valid() && fresh(metrics)
      ensures this.outside == outside && this.publisher == publisher && this.buffer == buffer
      ensures State() == Started(buffer.store.Contents(), buffer.maxSize, publisher.State(), sessionId, vehicleId,
                                 outside.minted)
    {
      this.outside, this.publisher, this.buffer := outside, publisher, buffer;
      this.sessionId, this.vehicleId := sessionId, vehicleId;
      metrics := new GatewayMetrics();
      replayRequested, received, ignored, journal := false, 0, 0, [];
    }

    /** The next interaction with the outside; callbacks and hooks run first. */
    method Next() returns (m: Moment)
      modifies outside`cursor, publisher
      ensures m == outside.moments(old(outside.cursor)) && outside.cursor == old(outside.cursor) + 1
      ensures publisher.State() == Settled(old(State()), outside.moments)
    {
      m := outside.moments(outside.cursor);
      outside.cursor := outside.cursor + 1;
      publisher.HandleExternal(m.events);
    }

    method IsConnected() returns (connected: bool)
      modifies outside`cursor, publisher
      ensures State() == Observe(old(State()), outside.moments) && connected == State().link.connected
    {
      var _ := Next();
      connected := publisher.connected;
    }

    method Reconnect()
      modifies this, outside`cursor, publisher
      ensures State() == Attempt(old(State()), outside.moments)
    {
      var m := Next();
      ghost var l := publisher.State();
      var ok := publisher.TryReconnect(m.now, m.answer);
      if ok {
        replayRequested := true;
      }
      if Attempts(l, m.now) {
        journal := journal + [Reconnection(ok)];
      }
    }

    /** One `publish()`. */
    method Publish() returns (ok: bool)
      modifies outside`cursor, publisher
      ensures State() == Send(old(State()), outside.moments) && ok == SendSucceeds(old(State()), outside.moments)
    {
      var m := Next();
      ok := publisher.Publish(m.answer, m.drops);
    }

    /** One row of a replay: publish it, count it if the broker confirmed it. */
    method SendRow(row: Row) returns (ok: bool)
      modifies this`journal, outside`cursor, publisher, metrics
      ensures State() == Resend(old(State()), outside.moments, row)
      ensures ok == SendSucceeds(old(State()), outside.moments)
    {
      ok := Publish();
      journal := journal + [Resent(row, ok)];
      if ok {
        var _ := metrics.RecordReplayed(1);
      }
    }

    /** The `for row in batch` loop of `_replay_buffered`. */
    method SendBatch(batch: seq<Row>) returns (confirmed: nat)
      modifies this`journal, outside`cursor, publisher, metrics
      ensures confirmed <= |batch|
      ensures (State(), batch[..confirmed]) == ReplayBatch(old(State()), outside.moments, [], batch)
    {
      ghost var w := outside.moments;
      ghost var goal := ReplayBatch(State(), w, [], batch);
      confirmed := 0;
      assert batch[..0] == [] && batch[0..] == batch;
      while confirmed < |batch|
        invariant confirmed <= |batch|
        invariant ReplayBatch(State(), w, batch[..confirmed], batch[confirmed..]) == goal
      {
        var row := batch[confirmed];
        assert batch[confirmed..][0] == row && batch[confirmed..][1..] == batch[confirmed + 1..];
        assert batch[..confirmed + 1] == batch[..confirmed] + [row];
        var connected := IsConnected();
        if !connected {
          break;
        }
        var ok := SendRow(row);
        if !ok {
          break;
        }
        confirmed := confirmed + 1;
      }
    }

    /** What the next round of the replay loop reads. */
    method NextBatch() returns (batch: seq<Row>)
      requires Valid()
      ensures batch == Oldest(State().table.rows, REPLAY_BATCH_SIZE)
    {
      batch := buffer.PeekBatch(REPLAY_BATCH_SIZE);
    }

    /** Deletes what was confirmed, if anything. */
    method RemoveConfirmed(confirmed: seq<Row>)
      requires Valid()
      modifies this`journal, buffer.store`rows
      ensures Valid()
      ensures State() == DeleteConfirmed(old(State()), confirmed)
    {
      if |confirmed| > 0 {
        ghost var rows := buffer.store.rows;
        buffer.Remove(Ids(confirmed));
        DeleteIdsKeepsRows(rows, Ids(confirmed));
        SameRowsInOrder(buffer.store.rows, DeleteIds(rows, Ids(confirmed)));
        journal := journal + [Deleted(confirmed)];
      }
    }

    /** `_replay_buffered`. */
    method ReplayBuffered() returns (drained: bool)
      requires Valid()
      modifies this, outside`cursor, publisher, metrics, buffer.store`rows
      ensures Valid()
      ensures (State(), drained) == Replay(old(State()), outside.moments, REPLAY_BATCH_SIZE)
    {
      ghost var w := outside.moments;
      ghost var goal := Replay(State(), w, REPLAY_BATCH_SIZE);
      while true
        invariant Valid() && Replay(State(), w, REPLAY_BATCH_SIZE) == goal
        decreases |buffer.store.rows|
      {
        var batch := NextBatch();
        if batch == [] {
          return true;
        }
        ghost var g := State();
        var confirmed := SendBatch(batch);
        assert [] + batch == batch;
        if confirmed > 0 {
          DeletedBatchShrinksTable(g.table, batch[..confirmed]);
        }
        RemoveConfirmed(batch[..confirmed]);
        if confirmed < |batch| {
          return false;
        }
      }
    }

    method RunOnce()
      requires Valid()
      modifies this, outside, publisher, metrics, buffer`droppedCount, buffer.store
      ensures Valid()
      ensures State() == Gateways.RunOnce(old(State()), outside.moments)
    {
      ghost var w := outside.moments;
      ghost var g0 := State();
      var connected := IsConnected();
      if !connected {
        Reconnect();
      }
      ghost var g1 := State();
      assert g1 == ReconnectPhase(g0, w);
      if replayRequested {
        connected := IsConnected();
        if connected {
          var drained := ReplayBuffered();
          if drained {
            replayRequested := false;
          }
        }
      }
      assert State() == ReplayPhase(g1, w);
      ReceiveOne();
    }

    /** The second half of `run_once`: receive, validate, publish or buffer. */
    method ReceiveOne()
      requires Valid()
      modifies this, outside, publisher, metrics, buffer`droppedCount, buffer.store
      ensures Valid()
      ensures State() == LivePhase(old(State()), outside.moments)
      ensures var frame := outside.moments(old(outside.cursor)).frame;
              && metrics.rejected == old(metrics.rejected) +
                                     (if frame.Some? && CarriesInvalidWord(frame.value) then 1 else 0)
              && ignored == old(ignored) + (if frame.Some? && !IsReadable(frame.value) then 1 else 0)
    {
      ghost var w := outside.moments;
      ghost var g := State();
      var m := Next();
      if m.frame.None? {
        return;
      }
      received := received + 1;
      ReceiveIsExact(m.frame.value, Context(outside.minted, sessionId, vehicleId, m.now));
      var found := IngestFrame(m.frame.value, Context(outside.minted, sessionId, vehicleId, m.now));
      if found.None? {
        ignored := ignored + 1;
        return;
      }
      var event := found.value;
      outside.minted := outside.minted + 1;
      if !ValidateEvent(event) {
        metrics.RecordRejected();
        journal := journal + [Refused(event.eventId)];
        return;
      }
      assert State() == Admit(g, w, Some(Accepted(event)));
      PublishOrBuffer(event);
    }

    method PublishOrBuffer(event: Event)
      requires Valid()
      modifies this, outside`cursor, publisher, metrics, buffer`droppedCount, buffer.store
      ensures Valid()
      ensures State() == if SendSucceeds(old(State()), outside.moments)
                         then PublishLive(old(State()), outside.moments, event)
                         else Store(PublishLive(old(State()), outside.moments, event), event)
    {
      ghost var g := State();
      var published := Publish();
      journal := journal + [Live(event, published)];
      if published {
        metrics.RecordProcessed();
      } else {
        metrics.RecordPublishFailure();
        assert State() == PublishLive(g, outside.moments, event);
        BufferEvent(event);
      }
    }

    method BufferEvent(event: Event)
      requires Valid()
      modifies this`journal, metrics, buffer`droppedCount, buffer.store
      ensures Valid()
      ensures State() == Store(old(State()), event)
    {
      ghost var row := NewRow(State().table, event);
      ghost var trimmed := Trimmed(State().table, buffer.maxSize, row);
      buffer.Enqueue(event.eventId, BuildTopic(event), event);
      metrics.RecordBuffered();
      journal := journal + [Stored(row, trimmed)];
    }

    /** `run`, stopped after n iterations, with the snapshot it logs. */
    /** n iterations until the stop event is set, then the summary; the pending
        depth is unknown if a caller has closed the buffer by then. */
    method Run(n: nat, closed: bool) returns (snapshot: Snapshot, pending: Option<nat>)
      requires Valid()
      modifies this, outside, publisher, metrics, buffer`droppedCount, buffer.store
      ensures Valid()
      ensures State() == Iterate(Begin(old(State())), outside.moments, n)
      ensures snapshot == Snapshot(sessionId, State().metrics, State().dropped)
      ensures pending == if closed then None else Some(|State().table.rows|)
    {
      var count := buffer.Count();
      if count > 0 {
        replayRequested := true;
      }
      ghost var start := State();
      assert start == Begin(old(State()));
      for i := 0 to n
        invariant Valid() && State() == Iterate(start, outside.moments, i)
      {
        RunOnce();
      }
      pending := None;
      if !closed {
        count := buffer.Count();
        pending := Some(count);
      }
      snapshot := MetricsSnapshot();
    }

    method MetricsSnapshot() returns (snapshot: Snapshot)
      ensures snapshot == Snapshot(sessionId, State().metrics, State().dropped)
    {
      snapshot := Snapshot(sessionId,
                           Metrics(metrics.processed, metrics.rejected, metrics.publishFailures, metrics.buffered,
                                   metrics.replayed),
                           buffer.droppedCount);
    }
  }
}
