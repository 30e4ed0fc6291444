/** The self-check of the resilience demonstration: what it records, and what
    it requires of a finished run. */
module ResilienceDemo {
  import opened Telemetry
  import opened Gateways

  // --- _is_subsequence: one pass over a consumed iterator ---

  /** `any(item == needle for item in iterator)`: what the iterator still holds
      after the first hit, or None when it is exhausted. */
  function After(needle: nat, rest: seq<nat>): Option<seq<nat>> {
    if rest == [] then None else if rest[0] == needle then Some(rest[1..]) else After(needle, rest[1..])
  }

  predicate IsSubsequence(needles: seq<nat>, haystack: seq<nat>)
    decreases |needles|
  {
    needles == [] ||
    var rest := After(needles[0], haystack);
    rest.Some? && IsSubsequence(needles[1..], rest.value)
  }

  /** Strictly increasing positions at which the needles are found. */
  ghost predicate EmbedsAt(needles: seq<nat>, haystack: seq<nat>, at: seq<nat>) {
    && |at| == |needles|
    && (forall i :: 0 <= i < |at| ==> at[i] < |haystack| && haystack[at[i]] == needles[i])
    && (forall i, j :: 0 <= i < j < |at| ==> at[i] < at[j])
  }

  ghost predicate Embeds(needles: seq<nat>, haystack: seq<nat>) {
    exists at :: EmbedsAt(needles, haystack, at)
  }

  function Shifted(at: seq<nat>, delta: int): (r: seq<nat>)
    requires forall i :: 0 <= i < |at| ==> at[i] + delta >= 0
    ensures |r| == |at| && forall i :: 0 <= i < |at| ==> r[i] == at[i] + delta
  {
    seq(|at|, i requires 0 <= i < |at| => at[i] + delta)
  }

  lemma EmbedsSkip(needles: seq<nat>, head: nat, rest: seq<nat>)
    requires Embeds(needles, rest)
    ensures Embeds(needles, [head] + rest)
  {
    var at :| EmbedsAt(needles, rest, at);
    assert EmbedsAt(needles, [head] + rest, Shifted(at, 1));
  }

  lemma EmbedsMatch(needle: nat, needles: seq<nat>, rest: seq<nat>)
    requires Embeds(needles, rest)
    ensures Embeds([needle] + needles, [needle] + rest)
  {
    var at :| EmbedsAt(needles, rest, at);
    assert EmbedsAt([needle] + needles, [needle] + rest, [0] + Shifted(at, 1));
  }

  lemma EmbedsTail(needles: seq<nat>, haystack: seq<nat>)
    requires needles != [] && Embeds(needles, haystack)
    ensures haystack != []
    ensures Embeds(if haystack[0] == needles[0] then needles[1..] else needles, haystack[1..])
  {
    var at :| EmbedsAt(needles, haystack, at);
    assert at[0] < |haystack|;
    if haystack[0] == needles[0] {
      assert EmbedsAt(needles[1..], haystack[1..], Shifted(at[1..], -1));
    } else {
      forall i | 0 <= i < |at| ensures at[i] >= 1 {
        assert at[0] >= 1 && (i > 0 ==> at[0] < at[i]);
      }
      assert EmbedsAt(needles, haystack[1..], Shifted(at, -1));
    }
  }

  lemma {:induction false} AfterIsGreedy(needles: seq<nat>, haystack: seq<nat>)
    requires needles != []
    ensures Embeds(needles, haystack) <==>
            After(needles[0], haystack).Some? && Embeds(needles[1..], After(needles[0], haystack).value)
    decreases |haystack|
  {
    if haystack == [] {
      if Embeds(needles, haystack) {
        EmbedsTail(needles, haystack);
      }
    } else {
      var rest := haystack[1..];
      assert haystack == [haystack[0]] + rest && needles == [needles[0]] + needles[1..];
      if haystack[0] == needles[0] {
        if Embeds(needles, haystack) {
          EmbedsTail(needles, haystack);
        }
        if Embeds(needles[1..], rest) {
          EmbedsMatch(needles[0], needles[1..], rest);
        }
      } else {
        AfterIsGreedy(needles, rest);
        if Embeds(needles, haystack) {
          EmbedsTail(needles, haystack);
        }
        if Embeds(needles, rest) {
          EmbedsSkip(needles, haystack[0], rest);
        }
      }
    }
  }

  /** The one-pass check answers exactly whether the needles occur in order,
      for all sequences, with any repeats. */
  lemma {:induction false} IsSubsequenceIffEmbeds(needles: seq<nat>, haystack: seq<nat>)
    ensures IsSubsequence(needles, haystack) <==> Embeds(needles, haystack)
    decreases |needles|
  {
    if needles == [] {
      assert EmbedsAt([], haystack, []);
    } else {
      AfterIsGreedy(needles, haystack);
      if After(needles[0], haystack).Some? {
        IsSubsequenceIffEmbeds(needles[1..], After(needles[0], haystack).value);
      }
    }
  }

  // --- the recorded log ---

  datatype Message = MsgPublished | MsgBuffered | MsgReplayed | MsgReconnected | MsgReconnectFailed | MsgRejected

  /** `eventId` is set on per-event lines, `eventIds` on the replay line. */
  datatype LogRecord = LogRecord(message: Message, eventId: nat, eventIds: seq<nat>)

  function EventIds(records: seq<LogRecord>, message: Message): seq<nat> {
    if records == [] then [] else
    var last := records[|records| - 1];
    EventIds(records[..|records| - 1], message) + (if last.message == message then [last.eventId] else [])
  }

  function ReplayedEventIds(records: seq<LogRecord>): seq<nat> {
    if records == [] then [] else
    var last := records[|records| - 1];
    ReplayedEventIds(records[..|records| - 1]) + (if last.message == MsgReplayed then last.eventIds else [])
  }

  class GatewayLogRecorder {
    var records: seq<LogRecord>

    constructor ()
      ensures records == []
    {
      records := [];
    }

    method Emit(r: LogRecord)
      modifies this
      ensures records == old(records) + [r]
    {
      records := records + [r];
    }

    method CollectEventIds(message: Message) returns (ids: seq<nat>)
      ensures ids == EventIds(records, message)
    {
      ids := [];
      for i := 0 to |records|
        invariant ids == EventIds(records[..i], message)
      {
        assert records[..i + 1] == records[..i] + [records[i]];
        if records[i].message == message {
          ids := ids + [records[i].eventId];
        }
      }
      assert records[..|records|] == records;
    }

    method CollectReplayedEventIds() returns (ids: seq<nat>)
      ensures ids == ReplayedEventIds(records)
    {
      ids := [];
      for i := 0 to |records|
        invariant ids == ReplayedEventIds(records[..i])
      {
        assert records[..i + 1] == records[..i] + [records[i]];
        if records[i].message == MsgReplayed {
          ids := ids + records[i].eventIds;
        }
      }
      assert records[..|records|] == records;
    }

    /** `messages.index(message)`. */
    method FirstIndex(message: Message) returns (at: nat)
      ensures at <= |records|
      ensures at < |records| ==> records[at].message == message
      ensures forall i :: 0 <= i < at ==> records[i].message != message
    {
      at := 0;
      while at < |records| && records[at].message != message
        invariant at <= |records|
        invariant forall i :: 0 <= i < at ==> records[i].message != message
      {
        at := at + 1;
      }
    }

    /** `len(messages) - 1 - messages[::-1].index(message)`, or -1. */
    method LastIndex(message: Message) returns (at: int)
      ensures -1 <= at < |records|
      ensures at >= 0 ==> records[at].message == message
      ensures forall i :: at < i < |records| ==> records[i].message != message
    {
      at := |records| - 1;
      while at >= 0 && records[at].message != message
        invariant -1 <= at < |records|
        invariant forall i :: at < i < |records| ==> records[i].message != message
      {
        at := at - 1;
      }
    }

    method NonePublishedBetween(from: nat, to: nat) returns (ok: bool)
      requires to <= |records|
      ensures ok <==> forall i :: from <= i < to ==> records[i].message != MsgPublished
    {
      var i := from;
      while i < to
        invariant i >= from
        invariant forall k :: from <= k < i && k < to ==> records[k].message != MsgPublished
      {
        if records[i].message == MsgPublished {
          return false;
        }
        i := i + 1;
      }
      return true;
    }
  }

  // --- the subscriber ---

  function IdsOf(events: seq<Event>): (ids: seq<nat>)
    ensures |ids| == |events| && forall i :: 0 <= i < |events| ==> ids[i] == events[i].eventId
  {
    seq(|events|, i requires 0 <= i < |events| => events[i].eventId)
  }

  /** `{e.event_id: e for e in received}`: the last one wins. */
  function ById(received: seq<Event>): map<nat, Event> {
    if received == [] then map[] else
    var last := received[|received| - 1];
    ById(received[..|received| - 1])[last.eventId := last]
  }

  lemma {:induction false} ByIdIsReceived(received: seq<Event>)
    ensures forall i :: i in ById(received) <==> i in IdsOf(received)
    ensures forall i :: i in ById(received) ==> ById(received)[i] in received && ById(received)[i].eventId == i
  {
    if received != [] {
      var before := received[..|received| - 1];
      ByIdIsReceived(before);
      assert received == before + [received[|received| - 1]];
      assert IdsOf(received) == IdsOf(before) + [received[|received| - 1].eventId];
    }
  }

  function Keep(ids: seq<nat>, wanted: set<nat>): seq<nat> {
    if ids == [] then [] else (if ids[0] in wanted then [ids[0]] else []) + Keep(ids[1..], wanted)
  }

  predicate SameTopic(a: Event, b: Event) {
    a.ecu == b.ecu && a.signal == b.signal
  }

  /** The ids whose event went to the same topic as `like`. */
  function OnTopic(ids: seq<nat>, byId: map<nat, Event>, like: Event): seq<nat> {
    if ids == [] then [] else
    var last := ids[|ids| - 1];
    OnTopic(ids[..|ids| - 1], byId, like) + (if last in byId && SameTopic(byId[last], like) then [last] else [])
  }

  /** Per topic of a buffered event: its buffered events arrived in order. */
  predicate FifoPerTopic(bufferedIds: seq<nat>, byId: map<nat, Event>, receivedIds: seq<nat>) {
    forall i | 0 <= i < |bufferedIds| && bufferedIds[i] in byId ::
      var topicIds := OnTopic(bufferedIds, byId, byId[bufferedIds[i]]);
      IsSubsequence(topicIds, Keep(receivedIds, IdSet(topicIds)))
  }

  /** `[by_id[i].timestamp for i in ids if i in by_id]`. */
  function Timestamps(ids: seq<nat>, byId: map<nat, Event>): seq<real> {
    if ids == [] then [] else
    var last := ids[|ids| - 1];
    Timestamps(ids[..|ids| - 1], byId) + (if last in byId then [byId[last].timestamp] else [])
  }

  /** `timestamps == sorted(timestamps)`. */
  predicate NonDecreasing(xs: seq<real>) {
    forall i, j | 0 <= i < j < |xs| :: xs[i] <= xs[j]
  }

  function CountIn(ids: seq<nat>, byId: map<nat, Event>): nat {
    if ids == [] then 0
    else CountIn(ids[..|ids| - 1], byId) + (if ids[|ids| - 1] in byId then 1 else 0)
  }

  // --- _verify ---

  datatype Checks = Checks(
    bufferedEvents: bool, reconnected: bool, everyBufferedReplayed: bool, everyReplayedReceived: bool,
    fifoReplay: bool, noneOvertook: bool, idsPreserved: bool, liveResumed: bool, drained: bool, metricsAgree: bool)

  predicate Passed(c: Checks) {
    && c.bufferedEvents && c.reconnected && c.everyBufferedReplayed && c.everyReplayedReceived && c.fifoReplay
    && c.noneOvertook && c.idsPreserved && c.liveResumed && c.drained && c.metricsAgree
  }

  /** A log without a buffered or a replayed line makes `index` raise; an
      acknowledged event that never arrives times the wait out. */
  datatype Failure = NoSuchLine | NeverArrived

  /** What is looked at besides the log: the subscriber, the gateway's identity
      and counters, and the final depth of the buffer. */
  datatype Outcome = Outcome(received: seq<Event>, recovered: bool, sessionId: string, vehicleId: string,
                             metrics: Metrics, dropped: int, depth: nat)

  function SubscriberFifo(bufferedIds: seq<nat>, replayedIds: seq<nat>, o: Outcome): bool {
    var byId := ById(o.received);
    && replayedIds == bufferedIds
    && FifoPerTopic(bufferedIds, byId, IdsOf(o.received))
    && NonDecreasing(Timestamps(bufferedIds, byId))
  }

  predicate IdentityKept(bufferedIds: seq<nat>, o: Outcome) {
    var byId := ById(o.received);
    forall i | 0 <= i < |bufferedIds| :: bufferedIds[i] in byId &&
      byId[bufferedIds[i]].sessionId == o.sessionId && byId[bufferedIds[i]].vehicleId == o.vehicleId
  }

  predicate MetricsAgree(bufferedIds: seq<nat>, replayedIds: seq<nat>, publishedIds: seq<nat>, o: Outcome) {
    && o.metrics.buffered == o.metrics.publishFailures == |bufferedIds|
    && o.metrics.replayed == |replayedIds|
    && o.metrics.rejected == 0 && o.dropped == 0
    && o.metrics.processed == |publishedIds|
  }

  /** The verdict on a log whose first buffered line is at `first` and whose
      last replayed line is at `last`. */
  function Judge(records: seq<LogRecord>, first: nat, last: nat, o: Outcome): Checks
    requires first < |records| && last < |records|
  {
    var byId := ById(o.received);
    var bufferedIds, replayedIds := EventIds(records, MsgBuffered), ReplayedEventIds(records);
    var liveAfter := EventIds(records[last..], MsgPublished);
    Checks(|bufferedIds| > 0,
           o.recovered,
           IdSet(replayedIds) == IdSet(bufferedIds),
           CountIn(replayedIds, byId) == |bufferedIds|,
           SubscriberFifo(bufferedIds, replayedIds, o),
           forall i | first <= i < last :: records[i].message != MsgPublished,
           IdentityKept(bufferedIds, o),
           exists i | 0 <= i < |liveAfter| :: liveAfter[i] in byId,
           o.depth == 0,
           MetricsAgree(bufferedIds, replayedIds, EventIds(records, MsgPublished), o))
  }

  // --- what the checks mean ---

  function Composed(f: seq<nat>, g: seq<nat>): (h: seq<nat>)
    requires forall i :: 0 <= i < |f| ==> f[i] < |g|
    ensures |h| == |f| && forall i :: 0 <= i < |f| ==> h[i] == g[f[i]]
  {
    seq(|f|, i requires 0 <= i < |f| => g[f[i]])
  }

  lemma EmbedsTransitive(a: seq<nat>, b: seq<nat>, c: seq<nat>)
    requires Embeds(a, b) && Embeds(b, c)
    ensures Embeds(a, c)
  {
    var f :| EmbedsAt(a, b, f);
    var g :| EmbedsAt(b, c, g);
    assert EmbedsAt(a, c, Composed(f, g));
  }

  /** Filtering the haystack by a set that holds all needles loses nothing. */
  lemma {:induction false} EmbedsInKept(needles: seq<nat>, haystack: seq<nat>, wanted: set<nat>)
    requires Embeds(needles, haystack) && forall x :: x in needles ==> x in wanted
    ensures Embeds(needles, Keep(haystack, wanted))
    decreases |haystack|
  {
    if needles == [] {
      assert EmbedsAt([], Keep(haystack, wanted), []);
    } else {
      EmbedsTail(needles, haystack);
      var rest := Keep(haystack[1..], wanted);
      if haystack[0] == needles[0] {
        EmbedsInKept(needles[1..], haystack[1..], wanted);
        EmbedsMatch(needles[0], needles[1..], rest);
        assert [needles[0]] + needles[1..] == needles;
      } else {
        EmbedsInKept(needles, haystack[1..], wanted);
        if haystack[0] in wanted {
          EmbedsSkip(needles, haystack[0], rest);
        } else {
          assert [] + rest == rest;
        }
      }
    }
  }

  lemma {:induction false} KeepEmbeds(ids: seq<nat>, wanted: set<nat>)
    ensures Embeds(Keep(ids, wanted), ids)
  {
    if ids == [] {
      assert EmbedsAt([], [], []);
    } else {
      var rest := Keep(ids[1..], wanted);
      KeepEmbeds(ids[1..], wanted);
      assert ids == [ids[0]] + ids[1..];
      if ids[0] in wanted {
        EmbedsMatch(ids[0], rest, ids[1..]);
      } else {
        EmbedsSkip(rest, ids[0], ids[1..]);
        assert Keep(ids, wanted) == [] + rest == rest;
      }
    }
  }

  /** Where the log has this message. */
  ghost function LinesWith(records: seq<LogRecord>, message: Message): set<nat> {
    set i: nat | i < |records| && records[i].message == message
  }

  lemma LinesMore(before: seq<LogRecord>, last: LogRecord, message: Message)
    ensures |LinesWith(before + [last], message)| == |LinesWith(before, message)| +
            (if last.message == message then 1 else 0)
  {
    assert LinesWith(before + [last], message) ==
           LinesWith(before, message) + (if last.message == message then {|before|} else {});
  }

  lemma {:induction false} EventIdsCountLines(records: seq<LogRecord>, message: Message)
    ensures |EventIds(records, message)| == |LinesWith(records, message)|
  {
    if records != [] {
      var before, last := records[..|records| - 1], records[|records| - 1];
      EventIdsCountLines(before, message);
      LinesMore(before, last, message);
      assert records == before + [last];
    }
  }

  /** Line i has this message and names this event. */
  predicate LineNames(records: seq<LogRecord>, i: nat, message: Message, id: nat) {
    i < |records| && records[i].message == message && records[i].eventId == id
  }

  lemma {:induction false} EventIdsAreNamed(records: seq<LogRecord>, message: Message, id: nat)
    ensures id in EventIds(records, message) <==> exists i: nat :: LineNames(records, i, message, id)
  {
    if records != [] {
      var before, last := records[..|records| - 1], |records| - 1;
      EventIdsAreNamed(before, message, id);
      if i: nat :| LineNames(records, i, message, id) {
        assert i < last ==> LineNames(before, i, message, id);
      }
      if i: nat :| LineNames(before, i, message, id) {
        assert LineNames(records, i, message, id);
      }
      if records[last].message == message && records[last].eventId == id {
        assert LineNames(records, last, message, id);
      }
    }
  }

  /** The copy of an id that was received last. */
  ghost predicate LastCopy(received: seq<Event>, id: nat, e: Event) {
    exists p :: 0 <= p < |received| && received[p] == e && e.eventId == id &&
                forall q :: p < q < |received| ==> received[q].eventId != id
  }

  lemma {:induction false} ByIdIsLastCopy(received: seq<Event>, id: nat)
    ensures id in ById(received) ==> LastCopy(received, id, ById(received)[id])
    ensures id in ById(received) <==> exists p :: 0 <= p < |received| && received[p].eventId == id
  {
    if received != [] {
      var before, last := received[..|received| - 1], |received| - 1;
      ByIdIsLastCopy(before, id);
      assert received == before + [received[last]];
      LastCopyMore(before, received[last], id);
    }
  }

  lemma LastCopyMore(before: seq<Event>, last: Event, id: nat)
    ensures last.eventId == id ==> LastCopy(before + [last], id, last)
    ensures forall e :: last.eventId != id && LastCopy(before, id, e) ==> LastCopy(before + [last], id, e)
  {
    var all := before + [last];
    if last.eventId == id {
      assert all[|before|] == last;
    } else {
      forall e | LastCopy(before, id, e) ensures LastCopy(all, id, e) {
        var p :| 0 <= p < |before| && before[p] == e && forall q :: p < q < |before| ==> before[q].eventId != id;
        assert all[p] == e;
      }
    }
  }

  /** The buffered ids on the topic of `like`, one by one and in order. */
  lemma {:induction false} OnTopicIsExact(ids: seq<nat>, byId: map<nat, Event>, like: Event) returns (at: seq<nat>)
    ensures EmbedsAt(OnTopic(ids, byId, like), ids, at)
    ensures forall i :: 0 <= i < |ids| ==>
              (i in at <==> ids[i] in byId && byId[ids[i]].ecu == like.ecu && byId[ids[i]].signal == like.signal)
  {
    at := [];
    if ids != [] {
      var before, last := ids[..|ids| - 1], |ids| - 1;
      at := OnTopicIsExact(before, byId, like);
      assert forall k :: 0 <= k < |at| ==> at[k] < |before|;
      if ids[last] in byId && SameTopic(byId[ids[last]], like) {
        at := at + [last];
      }
    }
  }

  /** Which of these were received. */
  ghost function Received(ids: seq<nat>, o: Outcome): set<nat> {
    set i: nat | i < |ids| && ids[i] in IdsOf(o.received)
  }

  lemma ReceivedMore(before: seq<nat>, last: nat, o: Outcome)
    ensures |Received(before + [last], o)| == |Received(before, o)| + (if last in IdsOf(o.received) then 1 else 0)
  {
    assert Received(before + [last], o) ==
           Received(before, o) + (if last in IdsOf(o.received) then {|before|} else {});
  }

  lemma {:induction false} CountInIsReceived(ids: seq<nat>, o: Outcome)
    ensures CountIn(ids, ById(o.received)) == |Received(ids, o)|
  {
    ByIdIsReceived(o.received);
    if ids != [] {
      var before, last := ids[..|ids| - 1], ids[|ids| - 1];
      CountInIsReceived(before, o);
      ReceivedMore(before, last, o);
      assert ids == before + [last];
    }
  }

  /** The received ones among them carry non-decreasing timestamps. */
  ghost predicate InTimeOrder(ids: seq<nat>, byId: map<nat, Event>) {
    forall i, j :: 0 <= i < j < |ids| && ids[i] in byId && ids[j] in byId ==>
      byId[ids[i]].timestamp <= byId[ids[j]].timestamp
  }

  lemma {:induction false} TimestampsAre(ids: seq<nat>, byId: map<nat, Event>)
    ensures forall t :: t in Timestamps(ids, byId) <==>
              exists i :: 0 <= i < |ids| && ids[i] in byId && byId[ids[i]].timestamp == t
  {
    if ids != [] {
      TimestampsAre(ids[..|ids| - 1], byId);
    }
  }

  lemma LastIsNotEarlier(xs: seq<real>, t: real)
    ensures NonDecreasing(xs + [t]) <==> NonDecreasing(xs) && forall x :: x in xs ==> x <= t
  {
    var all := xs + [t];
    if NonDecreasing(all) {
      forall i, j | 0 <= i < j < |xs| ensures xs[i] <= xs[j] {
        assert all[i] <= all[j];
      }
      forall x | x in xs ensures x <= t {
        var i :| 0 <= i < |xs| && xs[i] == x;
        assert all[i] <= all[|xs|];
      }
    }
    if NonDecreasing(xs) && forall x :: x in xs ==> x <= t {
      forall i, j | 0 <= i < j < |all| ensures all[i] <= all[j] {
        assert xs[i] in xs;
      }
    }
  }

  lemma NoneLater(ids: seq<nat>, byId: map<nat, Event>, t: real)
    ensures (forall x :: x in Timestamps(ids, byId) ==> x <= t) <==>
            forall i :: 0 <= i < |ids| && ids[i] in byId ==> byId[ids[i]].timestamp <= t
  {
    TimestampsAre(ids, byId);
    if forall x :: x in Timestamps(ids, byId) ==> x <= t {
      forall i | 0 <= i < |ids| && ids[i] in byId ensures byId[ids[i]].timestamp <= t {
        assert byId[ids[i]].timestamp in Timestamps(ids, byId);
      }
    }
  }

  lemma {:induction false} SortedIffInTimeOrder(ids: seq<nat>, byId: map<nat, Event>)
    ensures NonDecreasing(Timestamps(ids, byId)) <==> InTimeOrder(ids, byId)
  {
    if ids != [] {
      var before, last := ids[..|ids| - 1], ids[|ids| - 1];
      SortedIffInTimeOrder(before, byId);
      assert ids == before + [last];
      if last in byId {
        NoneLater(before, byId, byId[last].timestamp);
        LastIsNotEarlier(Timestamps(before, byId), byId[last].timestamp);
        TimeOrderMore(before, last, byId);
      } else {
        assert Timestamps(ids, byId) == Timestamps(before, byId);
      }
    }
  }

  lemma TimeOrderMore(before: seq<nat>, last: nat, byId: map<nat, Event>)
    requires last in byId
    ensures InTimeOrder(before + [last], byId) <==>
            InTimeOrder(before, byId) &&
            forall i :: 0 <= i < |before| && before[i] in byId ==> byId[before[i]].timestamp <= byId[last].timestamp
  {
    var all := before + [last];
    assert forall i :: 0 <= i < |before| ==> all[i] == before[i];
    assert all[|before|] == last;
  }

  /** On the topic of each received one, the buffered ids arrived in order. */
  ghost predicate InTopicOrder(ids: seq<nat>, o: Outcome) {
    var byId := ById(o.received);
    forall i :: 0 <= i < |ids| && ids[i] in byId ==> Embeds(OnTopic(ids, byId, byId[ids[i]]), IdsOf(o.received))
  }

  lemma FifoIffInTopicOrder(ids: seq<nat>, o: Outcome)
    ensures FifoPerTopic(ids, ById(o.received), IdsOf(o.received)) <==> InTopicOrder(ids, o)
  {
    var byId, receivedIds := ById(o.received), IdsOf(o.received);
    forall i | 0 <= i < |ids| && ids[i] in byId
      ensures var topicIds := OnTopic(ids, byId, byId[ids[i]]);
              IsSubsequence(topicIds, Keep(receivedIds, IdSet(topicIds))) <==> Embeds(topicIds, receivedIds) {
      var topicIds := OnTopic(ids, byId, byId[ids[i]]);
      var kept := Keep(receivedIds, IdSet(topicIds));
      IsSubsequenceIffEmbeds(topicIds, kept);
      KeepEmbeds(receivedIds, IdSet(topicIds));
      if Embeds(topicIds, kept) {
        EmbedsTransitive(topicIds, kept, receivedIds);
      }
      if Embeds(topicIds, receivedIds) {
        EmbedsInKept(topicIds, receivedIds, IdSet(topicIds));
      }
    }
  }

  /** The counters equal the numbers of log lines and of replayed ids. */
  ghost predicate CountersMatchLog(records: seq<LogRecord>, o: Outcome) {
    && o.metrics.buffered == |LinesWith(records, MsgBuffered)|
    && o.metrics.publishFailures == |LinesWith(records, MsgBuffered)|
    && o.metrics.replayed == |ReplayedEventIds(records)|
    && o.metrics.rejected == 0 && o.dropped == 0
    && o.metrics.processed == |LinesWith(records, MsgPublished)|
  }

  /** The subscriber has this id, last under this run's identity. */
  ghost predicate HasOurs(id: nat, o: Outcome) {
    exists e :: LastCopy(o.received, id, e) && e.sessionId == o.sessionId && e.vehicleId == o.vehicleId
  }

  /** What the checks of the replay say of the log and the subscriber. */
  ghost predicate ReplayChecksMean(c: Checks, bufferedIds: seq<nat>, replayedIds: seq<nat>, lines: nat, o: Outcome) {
    && (c.everyBufferedReplayed <==> forall x :: x in replayedIds <==> x in bufferedIds)
    && (c.everyReplayedReceived <==> |Received(replayedIds, o)| == lines)
    && (c.fifoReplay <==> replayedIds == bufferedIds && InTopicOrder(bufferedIds, o)
                          && InTimeOrder(bufferedIds, ById(o.received)))
    && (c.idsPreserved <==> forall i :: 0 <= i < |bufferedIds| ==> HasOurs(bufferedIds[i], o))
  }

  /** What each check says of the log, the subscriber and the gateway. */
  ghost predicate ChecksMean(c: Checks, records: seq<LogRecord>, first: nat, last: nat, o: Outcome) {
    && (c.bufferedEvents <==> exists i :: 0 <= i < |records| && records[i].message == MsgBuffered)
    && (c.reconnected <==> o.recovered)
    && ReplayChecksMean(c, EventIds(records, MsgBuffered), ReplayedEventIds(records),
                        |LinesWith(records, MsgBuffered)|, o)
    && (c.noneOvertook <==> forall i :: first <= i < last && i < |records| ==> records[i].message != MsgPublished)
    && (c.liveResumed <==> exists i :: last <= i < |records| && records[i].message == MsgPublished &&
                                       records[i].eventId in IdsOf(o.received))
    && (c.drained <==> o.depth == 0)
    && (c.metricsAgree <==> CountersMatchLog(records, o))
  }

  lemma BufferedMeans(records: seq<LogRecord>)
    ensures |EventIds(records, MsgBuffered)| > 0 <==>
            exists i :: 0 <= i < |records| && records[i].message == MsgBuffered
  {
    EventIdsCountLines(records, MsgBuffered);
    var lines := LinesWith(records, MsgBuffered);
    if lines != {} {
      var i :| i in lines;
    }
    if i :| 0 <= i < |records| && records[i].message == MsgBuffered {
      assert i in lines;
    }
  }

  lemma SetsMean(a: seq<nat>, b: seq<nat>)
    ensures IdSet(a) == IdSet(b) <==> forall x :: x in a <==> x in b
  {
    if IdSet(a) == IdSet(b) {
      forall x ensures x in a <==> x in b {
        assert x in IdSet(a) <==> x in IdSet(b);
      }
    }
  }

  lemma IdentityMeans(ids: seq<nat>, o: Outcome)
    ensures IdentityKept(ids, o) <==> forall i :: 0 <= i < |ids| ==> HasOurs(ids[i], o)
  {
    var byId := ById(o.received);
    forall i | 0 <= i < |ids|
      ensures HasOurs(ids[i], o) <==> ids[i] in byId && byId[ids[i]].sessionId == o.sessionId &&
                                      byId[ids[i]].vehicleId == o.vehicleId {
      ByIdIsLastCopy(o.received, ids[i]);
    }
  }

  lemma LiveMeans(records: seq<LogRecord>, last: nat, o: Outcome)
    requires last < |records|
    ensures var liveAfter := EventIds(records[last..], MsgPublished);
            (exists i :: 0 <= i < |liveAfter| && liveAfter[i] in ById(o.received)) <==>
            exists i :: last <= i < |records| && records[i].message == MsgPublished &&
                        records[i].eventId in IdsOf(o.received)
  {
    var tail, liveAfter := records[last..], EventIds(records[last..], MsgPublished);
    ByIdIsReceived(o.received);
    if k :| 0 <= k < |liveAfter| && liveAfter[k] in ById(o.received) {
      EventIdsAreNamed(tail, MsgPublished, liveAfter[k]);
      var i: nat :| LineNames(tail, i, MsgPublished, liveAfter[k]);
      assert records[last + i] == tail[i];
    }
    if i :| last <= i < |records| && records[i].message == MsgPublished && records[i].eventId in IdsOf(o.received) {
      EventIdsAreNamed(tail, MsgPublished, records[i].eventId);
      assert LineNames(tail, i - last, MsgPublished, records[i].eventId);
    }
  }

  lemma JudgeMeansReplay(records: seq<LogRecord>, first: nat, last: nat, o: Outcome)
    requires first < |records| && last < |records|
    ensures ReplayChecksMean(Judge(records, first, last, o), EventIds(records, MsgBuffered), ReplayedEventIds(records),
                             |LinesWith(records, MsgBuffered)|, o)
  {
    var bufferedIds, replayedIds := EventIds(records, MsgBuffered), ReplayedEventIds(records);
    EventIdsCountLines(records, MsgBuffered);
    SetsMean(replayedIds, bufferedIds);
    CountInIsReceived(replayedIds, o);
    FifoIffInTopicOrder(bufferedIds, o);
    SortedIffInTimeOrder(bufferedIds, ById(o.received));
    IdentityMeans(bufferedIds, o);
  }

  lemma CountersMean(records: seq<LogRecord>, o: Outcome)
    ensures MetricsAgree(EventIds(records, MsgBuffered), ReplayedEventIds(records), EventIds(records, MsgPublished), o)
            <==> CountersMatchLog(records, o)
  {
    EventIdsCountLines(records, MsgBuffered);
    EventIdsCountLines(records, MsgPublished);
  }

  /** The verdict of `_verify`, check by check. */
  lemma JudgeMeans(records: seq<LogRecord>, first: nat, last: nat, o: Outcome)
    requires first < |records| && last < |records|
    ensures ChecksMean(Judge(records, first, last, o), records, first, last, o)
  {
    BufferedMeans(records);
    JudgeMeansReplay(records, first, last, o);
    LiveMeans(records, last, o);
    CountersMean(records, o);
  }

  predicate EverythingArrived(records: seq<LogRecord>, o: Outcome) {
    IdSet(EventIds(records, MsgPublished)) + IdSet(ReplayedEventIds(records)) <= IdSet(IdsOf(o.received))
  }

  method Verify(recorder: GatewayLogRecorder, o: Outcome) returns (r: Result<Checks, Failure>)
    ensures r == Err(NoSuchLine) <==>
            (forall i :: 0 <= i < |recorder.records| ==> recorder.records[i].message != MsgBuffered) ||
            (forall i :: 0 <= i < |recorder.records| ==> recorder.records[i].message != MsgReplayed)
    ensures r != Err(NoSuchLine) ==>
              && (r.Ok? <==> EverythingArrived(recorder.records, o))
              && (r.Ok? <==> forall x :: (x in EventIds(recorder.records, MsgPublished) ||
                                          x in ReplayedEventIds(recorder.records)) ==> x in IdsOf(o.received))
    ensures r.Ok? ==> exists first: nat, last: nat | IsSpan(recorder.records, first, last) ::
                        r.value == Judge(recorder.records, first, last, o) &&
                        ChecksMean(r.value, recorder.records, first, last, o)
  {
    var bufferedIds := recorder.CollectEventIds(MsgBuffered);
    var replayedIds := recorder.CollectReplayedEventIds();
    var first := recorder.FirstIndex(MsgBuffered);
    var last := recorder.LastIndex(MsgReplayed);
    if first == |recorder.records| || last < 0 {
      return Err(NoSuchLine);
    }
    assert IsSpan(recorder.records, first, last);
    var publishedIds := recorder.CollectEventIds(MsgPublished);
    if !(IdSet(publishedIds) + IdSet(replayedIds) <= IdSet(IdsOf(o.received))) {
      return Err(NeverArrived);
    }
    var byId := ById(o.received);
    var noneOvertook := recorder.NonePublishedBetween(first, last);
    var liveAfter := EventIds(recorder.records[last..], MsgPublished);
    var checks := Checks(|bufferedIds| > 0, o.recovered,
                         IdSet(replayedIds) == IdSet(bufferedIds),
                         CountIn(replayedIds, byId) == |bufferedIds|,
                         SubscriberFifo(bufferedIds, replayedIds, o), noneOvertook, IdentityKept(bufferedIds, o),
                         exists i | 0 <= i < |liveAfter| :: liveAfter[i] in byId,
                         o.depth == 0, MetricsAgree(bufferedIds, replayedIds, publishedIds, o));
    assert checks == Judge(recorder.records, first, last, o);
    JudgeMeans(recorder.records, first, last, o);
    return Ok(checks);
  }

  /** The first buffered line and the last replayed line of a log. */
  predicate IsSpan(records: seq<LogRecord>, first: nat, last: nat) {
    && first < |records| && records[first].message == MsgBuffered
    && (forall i | 0 <= i < first :: records[i].message != MsgBuffered)
    && last < |records| && records[last].message == MsgReplayed
    && (forall i | last < i < |records| :: records[i].message != MsgReplayed)
  }
}
