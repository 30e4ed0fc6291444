/** The theorem about the demonstration: a good run, watched by a faithful
    subscriber, passes every check. */
module SelfCheck {
  import opened Telemetry
  import opened TelemetryBuffers
  import opened Gateways
  import opened DeliveryOrder
  import opened Conservation
  import opened ResilienceDemo
  import opened GoodRun

  // --- the invariant over a whole run ---

  ghost predicate Good(m: Machine, world: World, sessionId: string, vehicleId: string) {
    InOrder(m) && Fine(m.g, m.pc, world) && m.g.sessionId == sessionId && m.g.vehicleId == vehicleId
  }

  lemma MicroKeepsIdentity(m: Machine, world: World)
    ensures Micro(m, world).g.sessionId == m.g.sessionId && Micro(m, world).g.vehicleId == m.g.vehicleId
  {
  }

  /** What the order invariant provides for one step of the books. */
  lemma InOrderProvides(m: Machine, world: World)
    requires FailuresDisconnect(world) && InOrder(m)
    ensures WellFormed(m.g.table) && (m.pc.Removing? ==> m.pc.sent <= m.g.table.rows)
    ensures m.pc.Publishing? && SendSucceeds(m.g, world) ==> m.g.table.rows == []
  {
    SettledLink(m.g, world);
  }

  lemma GoodStep(m: Machine, world: World, sessionId: string, vehicleId: string)
    requires FailuresDisconnect(world) && SteadyClock(world) && Good(m, world, sessionId, vehicleId)
    ensures Good(Micro(m, world), world, sessionId, vehicleId)
  {
    InOrderProvides(m, world);
    FineStep(m, world);
    InOrderStep(m, world);
    MicroKeepsIdentity(m, world);
  }

  ghost predicate EmptyStart(g: Gateway) {
    FreshStart(g) && NothingCounted(g) && g.maxSize >= 0 && g.table.rows == []
  }

  lemma GoodStart(g: Gateway, world: World)
    requires EmptyStart(g)
    ensures Good(Machine(Begin(g), Top), world, g.sessionId, g.vehicleId)
  {
    StartsInOrder(g);
  }

  lemma GoodAlways(world: World, g: Gateway, n: nat)
    requires FailuresDisconnect(world) && SteadyClock(world) && EmptyStart(g)
    ensures Good(Machine(Iterate(Begin(g), world, n), Top), world, g.sessionId, g.vehicleId)
  {
    var inv := m => Good(m, world, g.sessionId, g.vehicleId);
    forall m {:trigger Micro(m, world)} | inv(m) ensures inv(Micro(m, world)) {
      GoodStep(m, world, g.sessionId, g.vehicleId);
    }
    GoodStart(g, world);
    IterateKeeps(inv, world, Begin(g), n);
  }

  // --- a faithful subscriber ---

  function TopicOf(events: seq<Event>, like: Event): seq<Event> {
    if events == [] then [] else
    var last := events[|events| - 1];
    TopicOf(events[..|events| - 1], like) + (if SameTopic(last, like) then [last] else [])
  }

  /** Everything acknowledged was received, unchanged; an id names one event;
      and per topic the acknowledged order is kept, whatever else (duplicates,
      unacknowledged copies) was received in between. */
  ghost predicate Observed(acked: seq<Event>, received: seq<Event>) {
    && (forall e :: e in acked ==> e in received)
    && (forall a, r :: a in acked && r in received && a.eventId == r.eventId ==> a == r)
    && (forall like: Event :: Embeds(IdsOf(TopicOf(acked, like)), IdsOf(TopicOf(received, like))))
  }

  // --- embeddings ---

  lemma EmbedsMore(needles: seq<nat>, haystack: seq<nat>, more: seq<nat>)
    requires Embeds(needles, haystack)
    ensures Embeds(needles, haystack + more)
  {
    var at :| EmbedsAt(needles, haystack, at);
    assert EmbedsAt(needles, haystack + more, at);
  }

  lemma EmbedsBoth(needles: seq<nat>, haystack: seq<nat>, x: nat)
    requires Embeds(needles, haystack)
    ensures Embeds(needles + [x], haystack + [x])
  {
    var at :| EmbedsAt(needles, haystack, at);
    var last: nat := |haystack|;
    assert EmbedsAt(needles + [x], haystack + [x], at + [last]);
  }

  lemma {:induction false} TopicEmbeds(events: seq<Event>, like: Event)
    ensures Embeds(IdsOf(TopicOf(events, like)), IdsOf(events))
  {
    if events == [] {
      assert EmbedsAt([], [], []);
    } else {
      var before, last := events[..|events| - 1], events[|events| - 1];
      TopicEmbeds(before, like);
      assert IdsOf(events) == IdsOf(before) + [last.eventId];
      if SameTopic(last, like) {
        EmbedsBoth(IdsOf(TopicOf(before, like)), IdsOf(before), last.eventId);
        assert IdsOf(TopicOf(events, like)) == IdsOf(TopicOf(before, like)) + [last.eventId];
      } else {
        EmbedsMore(IdsOf(TopicOf(before, like)), IdsOf(before), [last.eventId]);
        assert TopicOf(events, like) == TopicOf(before, like);
      }
    }
  }

  // --- what was confirmed was acknowledged, in that order ---

  function Payloads(rows: seq<Row>): (events: seq<Event>)
    ensures |events| == |rows| && forall i :: 0 <= i < |rows| ==> events[i] == rows[i].payload
  {
    seq(|rows|, i requires 0 <= i < |rows| => rows[i].payload)
  }

  ghost predicate Acks(t: Tally, like: Event) {
    && (forall r :: r in t.confirmed ==> r.payload in t.acked)
    && (forall e :: e in t.published ==> e in t.acked)
    && Embeds(IdsOf(TopicOf(Payloads(t.confirmed), like)), IdsOf(TopicOf(t.acked, like)))
  }

  lemma AckedTopicGrows(acked: seq<Event>, e: Event, like: Event)
    ensures IdsOf(TopicOf(acked + [e], like)) ==
            IdsOf(TopicOf(acked, like)) + (if SameTopic(e, like) then [e.eventId] else [])
  {
    var before := TopicOf(acked, like);
    if SameTopic(e, like) {
    } else {
      assert before + [] == before && IdsOf(before) + [] == IdsOf(before);
    }
  }

  /** An acknowledged event that is also a needle, or that is not. */
  lemma AckedEmbeds(rows: seq<Event>, acked: seq<Event>, e: Event, like: Event)
    requires Embeds(IdsOf(TopicOf(rows, like)), IdsOf(TopicOf(acked, like)))
    ensures Embeds(IdsOf(TopicOf(rows, like)), IdsOf(TopicOf(acked + [e], like)))
    ensures Embeds(IdsOf(TopicOf(rows + [e], like)), IdsOf(TopicOf(acked + [e], like)))
  {
    var needles, haystack := IdsOf(TopicOf(rows, like)), IdsOf(TopicOf(acked, like));
    AckedTopicGrows(acked, e, like);
    AckedTopicGrows(rows, e, like);
    if SameTopic(e, like) {
      EmbedsMore(needles, haystack, [e.eventId]);
      EmbedsBoth(needles, haystack, e.eventId);
    } else {
      assert needles + [] == needles && haystack + [] == haystack;
    }
  }

  lemma AcksMore(t: Tally, a: Action, like: Event)
    requires Acks(t, like)
    ensures Acks(Tallied(t, a), like)
  {
    var rows := Payloads(t.confirmed);
    if a.Live? && a.acked {
      AckedEmbeds(rows, t.acked, a.event, like);
    } else if a.Resent? && a.acked {
      AckedEmbeds(rows, t.acked, a.row.payload, like);
      assert Payloads(t.confirmed + [a.row]) == rows + [a.row.payload];
    }
  }

  lemma {:induction false} AcksAlways(journal: seq<Action>, like: Event)
    ensures Acks(TallyOf(journal), like)
  {
    if journal == [] {
      assert EmbedsAt(IdsOf(TopicOf(Payloads([]), like)), IdsOf(TopicOf([], like)), []);
    } else {
      AcksAlways(journal[..|journal| - 1], like);
      AcksMore(TallyOf(journal[..|journal| - 1]), journal[|journal| - 1], like);
    }
  }

  // --- the checks one by one ---

  /** The stored rows, all confirmed, as the subscriber's index shows them. */
  ghost predicate Indexed(stored: seq<Row>, byId: map<nat, Event>) {
    forall i :: 0 <= i < |stored| ==>
      && stored[i].eventId == stored[i].payload.eventId
      && stored[i].eventId in byId && byId[stored[i].eventId] == stored[i].payload
  }

  lemma {:induction false} OnTopicIsTopicOf(stored: seq<Row>, byId: map<nat, Event>, like: Event)
    requires Indexed(stored, byId)
    ensures OnTopic(EventIdsOf(stored), byId, like) == IdsOf(TopicOf(Payloads(stored), like))
  {
    if stored != [] {
      var before, last := stored[..|stored| - 1], stored[|stored| - 1];
      OnTopicIsTopicOf(before, byId, like);
      assert EventIdsOf(stored)[..|stored| - 1] == EventIdsOf(before);
      assert Payloads(stored) == Payloads(before) + [last.payload];
      AckedTopicGrows(Payloads(before), last.payload, like);
    }
  }

  lemma {:induction false} TimestampsOfStored(stored: seq<Row>, byId: map<nat, Event>)
    requires Indexed(stored, byId)
    ensures var xs := Timestamps(EventIdsOf(stored), byId);
            |xs| == |stored| && forall i :: 0 <= i < |stored| ==> xs[i] == stored[i].payload.timestamp
  {
    if stored != [] {
      var before := stored[..|stored| - 1];
      TimestampsOfStored(before, byId);
      assert EventIdsOf(stored)[..|stored| - 1] == EventIdsOf(before);
    }
  }

  lemma {:induction false} CountStored(stored: seq<Row>, byId: map<nat, Event>)
    requires Indexed(stored, byId)
    ensures CountIn(EventIdsOf(stored), byId) == |stored|
  {
    if stored != [] {
      var before := stored[..|stored| - 1];
      CountStored(before, byId);
      assert EventIdsOf(stored)[..|stored| - 1] == EventIdsOf(before);
    }
  }

  lemma StoredAreIndexed(t: Tally, received: seq<Event>, sessionId: string, vehicleId: string, now: real, like: Event)
    requires Stamped(t.stored, sessionId, vehicleId, now) && t.confirmed == t.stored
    requires Acks(t, like) && Observed(t.acked, received)
    ensures Indexed(t.stored, ById(received))
  {
    var byId := ById(received);
    ByIdIsReceived(received);
    forall i | 0 <= i < |t.stored|
      ensures t.stored[i].eventId in byId && byId[t.stored[i].eventId] == t.stored[i].payload
    {
      var row := t.stored[i];
      assert row in t.confirmed && row.payload in t.acked && row.payload in received;
    }
  }

  lemma TopicArrivedInOrder(t: Tally, received: seq<Event>, like: Event)
    requires Indexed(t.stored, ById(received)) && t.confirmed == t.stored
    requires Acks(t, like) && Observed(t.acked, received)
    ensures var topicIds := OnTopic(EventIdsOf(t.stored), ById(received), like);
            IsSubsequence(topicIds, Keep(IdsOf(received), IdSet(topicIds)))
  {
    var topicIds := OnTopic(EventIdsOf(t.stored), ById(received), like);
    OnTopicIsTopicOf(t.stored, ById(received), like);
    EmbedsTransitive(topicIds, IdsOf(TopicOf(t.acked, like)), IdsOf(TopicOf(received, like)));
    TopicEmbeds(received, like);
    EmbedsTransitive(topicIds, IdsOf(TopicOf(received, like)), IdsOf(received));
    EmbedsInKept(topicIds, IdsOf(received), IdSet(topicIds));
    IsSubsequenceIffEmbeds(topicIds, Keep(IdsOf(received), IdSet(topicIds)));
  }

  lemma FifoHolds(journal: seq<Action>, o: Outcome, sessionId: string, vehicleId: string, now: real)
    requires var t := TallyOf(journal);
             && Stamped(t.stored, sessionId, vehicleId, now) && t.confirmed == t.stored
             && Observed(t.acked, o.received) && Indexed(t.stored, ById(o.received))
    ensures var ids := EventIdsOf(TallyOf(journal).stored); SubscriberFifo(ids, ids, o)
  {
    var t, byId := TallyOf(journal), ById(o.received);
    var ids := EventIdsOf(t.stored);
    TimestampsOfStored(t.stored, byId);
    forall i | 0 <= i < |ids| && ids[i] in byId
      ensures var topicIds := OnTopic(ids, byId, byId[ids[i]]);
              IsSubsequence(topicIds, Keep(IdsOf(o.received), IdSet(topicIds)))
    {
      AcksAlways(journal, byId[ids[i]]);
      TopicArrivedInOrder(t, o.received, byId[ids[i]]);
    }
  }

  /** The buffer is non-empty from the first buffered line to the last replay. */
  ghost predicate OnePeriod(records: seq<LogRecord>, first: nat, last: nat)
    requires last < |records|
  {
    forall i {:trigger records[..i]} :: first < i <= last ==> Depth(records[..i]) > 0
  }

  lemma NobodyOvertook(records: seq<LogRecord>, first: nat, last: nat)
    requires IsSpan(records, first, last) && OnePeriod(records, first, last) && PublishedAtDepthZero(records)
    ensures forall i :: first <= i < last ==> records[i].message != MsgPublished
  {
    forall i: nat | first <= i < last ensures records[i].message != MsgPublished {
      assert NotPublishedOrEmpty(records, i);
      assert first < i ==> Depth(records[..i]) > 0;
    }
  }

  lemma {:induction false} SuffixIds(records: seq<LogRecord>, from: nat, message: Message)
    requires from <= |records|
    ensures forall x :: x in EventIds(records[from..], message) ==> x in EventIds(records, message)
    decreases |records|
  {
    if from < |records| {
      var before, last := records[..|records| - 1], records[|records| - 1];
      SuffixIds(before, from, message);
      assert records[from..] == before[from..] + [last] && records == before + [last];
    }
  }

  lemma AcknowledgedArrived(t: Tally, records: seq<LogRecord>, o: Outcome, like: Event)
    requires Tells(records, t) && Acks(t, like) && Observed(t.acked, o.received)
    requires t.deleted == t.stored == t.confirmed && Indexed(t.stored, ById(o.received))
    ensures EverythingArrived(records, o)
    ensures forall x :: x in EventIds(records, MsgPublished) ==> x in ById(o.received)
  {
    ByIdIsReceived(o.received);
    forall x | x in EventIds(records, MsgPublished) ensures x in ById(o.received) {
      var i :| 0 <= i < |t.published| && IdsOf(t.published)[i] == x;
      assert t.published[i] in t.acked;
    }
    forall x | x in ReplayedEventIds(records) ensures x in IdsOf(o.received) {
      var i :| 0 <= i < |t.deleted| && EventIdsOf(t.deleted)[i] == x;
      assert t.stored[i].eventId in ById(o.received);
    }
  }

  /** A finished run as the self-check sees it. */
  ghost predicate ReportsOf(o: Outcome, after: Gateway) {
    && o.sessionId == after.sessionId && o.vehicleId == after.vehicleId
    && o.metrics == after.metrics && o.dropped == after.dropped && o.depth == |after.table.rows|
  }

  /** Start empty; every failed publish disconnects; nothing is dropped or
      rejected; the buffer is non-empty during one period and drained at the
      end; live events follow; the subscriber is faithful. Then the log has its
      lines, everything acknowledged arrived, and every check passes. */
  lemma GoodRunPassesSelfCheck(world: World, g: Gateway, n: nat, o: Outcome, first: nat, last: nat)
    requires FailuresDisconnect(world) && SteadyClock(world) && EmptyStart(g)
    requires var after := Iterate(Begin(g), world, n);
             && after.dropped == 0 && after.metrics.rejected == 0 && after.table.rows == []
             && ReportsOf(o, after) && o.recovered
             && Observed(TallyOf(after.journal).acked, o.received)
    requires var records := Records(Iterate(Begin(g), world, n).journal);
             && IsSpan(records, first, last) && OnePeriod(records, first, last)
             && EventIds(records[last..], MsgPublished) != []
    ensures var records := Records(Iterate(Begin(g), world, n).journal);
            EverythingArrived(records, o) && Passed(Judge(records, first, last, o))
  {
    var after := Iterate(Begin(g), world, n);
    GoodAlways(world, g, n);
    CountersBalanceAtBoundaries(g, world, n);
    FineRunPasses(world, after, o, first, last);
  }

  lemma FineRunPasses(world: World, after: Gateway, o: Outcome, first: nat, last: nat)
    requires Fine(after, Top, world) && after.metrics.buffered == after.metrics.publishFailures
    requires after.dropped == 0 && after.metrics.rejected == 0 && after.table.rows == []
    requires ReportsOf(o, after) && o.recovered && Observed(TallyOf(after.journal).acked, o.received)
    requires var records := Records(after.journal);
             && IsSpan(records, first, last) && OnePeriod(records, first, last)
             && EventIds(records[last..], MsgPublished) != []
    ensures EverythingArrived(Records(after.journal), o) && Passed(Judge(Records(after.journal), first, last, o))
  {
    var t, records, now := TallyOf(after.journal), Records(after.journal), world(after.cursor).now;
    var like := Event(0, "", "", Body, 0, OdometerKm, 0.0, 0.0);
    assert t.deleted + [] == t.deleted;
    assert t.stored == t.deleted == t.confirmed;
    LogTells(after.journal, records, t);
    AcksAlways(after.journal, like);
    StoredAreIndexed(t, o.received, after.sessionId, after.vehicleId, now, like);
    AcknowledgedArrived(t, records, o, like);
    FifoHolds(after.journal, o, after.sessionId, after.vehicleId, now);
    NobodyOvertook(records, first, last);
    CountStored(t.stored, ById(o.received));
    ChecksPass(t, records, o, first, last, now);
  }

  lemma ChecksPass(t: Tally, records: seq<LogRecord>, o: Outcome, first: nat, last: nat, now: real)
    requires IsSpan(records, first, last) && Tells(records, t) && t.stored == t.deleted
    requires o.recovered && o.depth == 0 && Indexed(t.stored, ById(o.received))
    requires SubscriberFifo(EventIdsOf(t.stored), EventIdsOf(t.stored), o)
    requires CountIn(EventIdsOf(t.stored), ById(o.received)) == |t.stored|
    requires forall i :: first <= i < last ==> records[i].message != MsgPublished
    requires Stamped(t.stored, o.sessionId, o.vehicleId, now)
    requires forall x :: x in EventIds(records, MsgPublished) ==> x in ById(o.received)
    requires EventIds(records[last..], MsgPublished) != []
    requires MetricsAgree(EventIdsOf(t.stored), EventIdsOf(t.deleted), IdsOf(t.published), o)
    ensures Passed(Judge(records, first, last, o))
  {
    SomethingBuffered(records, first);
    SuffixIds(records, last, MsgPublished);
    var liveAfter := EventIds(records[last..], MsgPublished);
    assert liveAfter[0] in EventIds(records, MsgPublished);
    assert 0 <= 0 < |liveAfter| && liveAfter[0] in ById(o.received);
  }

  lemma {:induction false} SomethingBuffered(records: seq<LogRecord>, at: nat)
    requires at < |records| && records[at].message == MsgBuffered
    ensures EventIds(records, MsgBuffered) != []
  {
    if at < |records| - 1 {
      SomethingBuffered(records[..|records| - 1], at);
    }
  }

  // --- what a passed check says ---

  /** Some copy of `a` was received before some copy of `b`. */
  ghost predicate ReceivedBefore(a: nat, b: nat, receivedIds: seq<nat>) {
    exists p, q :: 0 <= p < q < |receivedIds| && receivedIds[p] == a && receivedIds[q] == b
  }

  lemma {:induction false} OnTopicHolds(ids: seq<nat>, byId: map<nat, Event>, like: Event, i: nat)
    requires i < |ids| && ids[i] in byId && SameTopic(byId[ids[i]], like)
    ensures Embeds([ids[i]], OnTopic(ids, byId, like))
  {
    var before, last := ids[..|ids| - 1], ids[|ids| - 1];
    if i < |before| {
      OnTopicHolds(before, byId, like, i);
      EmbedsMore([ids[i]], OnTopic(before, byId, like),
                 if last in byId && SameTopic(byId[last], like) then [last] else []);
    } else {
      var topicIds := OnTopic(before, byId, like) + [last];
      var at: nat := |topicIds| - 1;
      assert EmbedsAt([last], topicIds, [at]);
    }
  }

  lemma {:induction false} OnTopicOrders(ids: seq<nat>, byId: map<nat, Event>, like: Event, i: nat, j: nat)
    requires i < j < |ids|
    requires ids[i] in byId && SameTopic(byId[ids[i]], like) && ids[j] in byId && SameTopic(byId[ids[j]], like)
    ensures Embeds([ids[i], ids[j]], OnTopic(ids, byId, like))
  {
    var before, last := ids[..|ids| - 1], ids[|ids| - 1];
    if j < |before| {
      OnTopicOrders(before, byId, like, i, j);
      EmbedsMore([ids[i], ids[j]], OnTopic(before, byId, like),
                 if last in byId && SameTopic(byId[last], like) then [last] else []);
    } else {
      OnTopicHolds(before, byId, like, i);
      EmbedsBoth([ids[i]], OnTopic(before, byId, like), last);
      assert [ids[i]] + [last] == [ids[i], ids[j]];
    }
  }

  lemma EmbeddedPair(a: nat, b: nat, receivedIds: seq<nat>)
    requires Embeds([a, b], receivedIds)
    ensures ReceivedBefore(a, b, receivedIds)
  {
    var at :| EmbedsAt([a, b], receivedIds, at);
    assert receivedIds[at[0]] == a && receivedIds[at[1]] == b && at[0] < at[1];
  }

  lemma TopicPairArrived(bufferedIds: seq<nat>, o: Outcome, i: nat, j: nat)
    requires FifoPerTopic(bufferedIds, ById(o.received), IdsOf(o.received)) && i < j < |bufferedIds|
    requires var byId := ById(o.received);
             bufferedIds[i] in byId && bufferedIds[j] in byId && SameTopic(byId[bufferedIds[j]], byId[bufferedIds[i]])
    ensures ReceivedBefore(bufferedIds[i], bufferedIds[j], IdsOf(o.received))
  {
    var byId, receivedIds := ById(o.received), IdsOf(o.received);
    var topicIds := OnTopic(bufferedIds, byId, byId[bufferedIds[i]]);
    var kept, pair := Keep(receivedIds, IdSet(topicIds)), [bufferedIds[i], bufferedIds[j]];
    OnTopicOrders(bufferedIds, byId, byId[bufferedIds[i]], i, j);
    IsSubsequenceIffEmbeds(topicIds, kept);
    EmbedsTransitive(pair, topicIds, kept);
    KeepEmbeds(receivedIds, IdSet(topicIds));
    EmbedsTransitive(pair, kept, receivedIds);
    EmbeddedPair(bufferedIds[i], bufferedIds[j], receivedIds);
  }

  lemma {:induction false} TimestampsOfIndexed(ids: seq<nat>, byId: map<nat, Event>)
    requires forall i :: 0 <= i < |ids| ==> ids[i] in byId
    ensures |Timestamps(ids, byId)| == |ids|
    ensures forall i :: 0 <= i < |ids| ==> Timestamps(ids, byId)[i] == byId[ids[i]].timestamp
  {
    if ids != [] {
      TimestampsOfIndexed(ids[..|ids| - 1], byId);
    }
  }

  /** Buffered event i as the subscriber has it. */
  ghost predicate DeliveredAsOurs(ids: seq<nat>, o: Outcome, i: nat)
    requires i < |ids|
  {
    var byId := ById(o.received);
    ids[i] in byId && byId[ids[i]].sessionId == o.sessionId && byId[ids[i]].vehicleId == o.vehicleId
  }

  /** Buffered events i and j, in this order, as the subscriber has them. */
  ghost predicate DeliveredInOrder(ids: seq<nat>, o: Outcome, i: nat, j: nat)
    requires i < j < |ids| && DeliveredAsOurs(ids, o, i) && DeliveredAsOurs(ids, o, j)
  {
    var byId := ById(o.received);
    && byId[ids[i]].timestamp <= byId[ids[j]].timestamp
    && (SameTopic(byId[ids[j]], byId[ids[i]]) ==> ReceivedBefore(ids[i], ids[j], IdsOf(o.received)))
  }

  lemma FifoMeansDelivered(ids: seq<nat>, o: Outcome, i: nat, j: nat)
    requires i < j < |ids| && IdentityKept(ids, o) && SubscriberFifo(ids, ids, o)
    ensures DeliveredAsOurs(ids, o, i) && DeliveredAsOurs(ids, o, j) && DeliveredInOrder(ids, o, i, j)
  {
    var byId := ById(o.received);
    TimestampsOfIndexed(ids, byId);
    if SameTopic(byId[ids[j]], byId[ids[i]]) {
      TopicPairArrived(ids, o, i, j);
    }
  }

  /** What the log and the subscriber show, from the first buffered line to the
      last replayed one. */
  ghost predicate Delivered(records: seq<LogRecord>, first: nat, last: nat, o: Outcome)
    requires last < |records|
  {
    var ids := EventIds(records, MsgBuffered);
    && ReplayedEventIds(records) == ids
    && (forall k :: first <= k < last ==> records[k].message != MsgPublished)
    && (forall i :: 0 <= i < |ids| ==> DeliveredAsOurs(ids, o, i))
    && (forall i, j :: 0 <= i < j < |ids| ==> DeliveredInOrder(ids, o, i, j))
  }

  /** The gateway reconnected and drained its buffer, some event published after
      the replay was received, and the counters equal the log. */
  ghost predicate Recovered(records: seq<LogRecord>, last: nat, o: Outcome) {
    && o.recovered && o.depth == 0 && CountersMatchLog(records, o)
    && exists i :: last <= i < |records| &&
                   records[i].message == MsgPublished && records[i].eventId in IdsOf(o.received)
  }

  /** Independently of the gateway: if all checks pass, something was buffered,
      everything buffered was replayed in the order of buffering, nothing was
      published in between, and the subscriber has every buffered event with
      this run's identity; any two are in time order, and if they share a topic,
      the earlier one was received before the later one; and the gateway is
      back to normal with counters that equal the log. */
  lemma PassedMeansDelivered(records: seq<LogRecord>, first: nat, last: nat, o: Outcome)
    requires IsSpan(records, first, last)
    ensures Passed(Judge(records, first, last, o)) ==>
            EventIds(records, MsgBuffered) != [] && Delivered(records, first, last, o) && Recovered(records, last, o)
  {
    if Passed(Judge(records, first, last, o)) {
      var ids := EventIds(records, MsgBuffered);
      JudgeMeans(records, first, last, o);
      forall i, j | 0 <= i < j < |ids|
        ensures DeliveredAsOurs(ids, o, i) && DeliveredAsOurs(ids, o, j) && DeliveredInOrder(ids, o, i, j) {
        FifoMeansDelivered(ids, o, i, j);
      }
    }
  }
}
