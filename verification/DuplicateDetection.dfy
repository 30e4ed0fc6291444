/** The dashboard's duplicate detector: a bounded set of recently seen event
    ids, refreshed on every delivery, compared with the delivery history. */
module DuplicateDetection {
  import opened Telemetry

  const MAX_SEEN_EVENT_IDS := 5000
  const MAX_PAYLOAD_BYTES := 16 * 1024

  // --- an OrderedDict used as a set: keys in insertion order ---

  function Without(keys: seq<nat>, key: nat): seq<nat> {
    if keys == [] then []
    else Without(keys[..|keys| - 1], key) + (if keys[|keys| - 1] == key then [] else [keys[|keys| - 1]])
  }

  function Newest(keys: seq<nat>, limit: nat): seq<nat> {
    if |keys| <= limit then keys else keys[|keys| - limit..]
  }

  /** `_remember`: insert or move to the end, then drop the oldest. */
  function Remembered(keys: seq<nat>, key: nat, limit: nat): seq<nat> {
    Newest(Without(keys, key) + [key], limit)
  }

  lemma WithoutAppend(keys: seq<nat>, last: nat, key: nat)
    ensures Without(keys + [last], key) == Without(keys, key) + (if last == key then [] else [last])
  {
    assert (keys + [last])[..|keys|] == keys;
  }

  lemma {:induction false} WithoutConcat(a: seq<nat>, b: seq<nat>, key: nat)
    ensures Without(a + b, key) == Without(a, key) + Without(b, key)
  {
    if b == [] {
      assert a + b == a;
    } else {
      var before, last := b[..|b| - 1], b[|b| - 1];
      assert a + b == a + before + [last] && b == before + [last];
      WithoutConcat(a, before, key);
      WithoutAppend(a + before, last, key);
    }
  }

  lemma {:induction false} WithoutAbsent(keys: seq<nat>, key: nat)
    requires key !in keys
    ensures Without(keys, key) == keys
  {
    if keys != [] {
      assert keys == keys[..|keys| - 1] + [keys[|keys| - 1]];
      WithoutAbsent(keys[..|keys| - 1], key);
    }
  }

  /** Removing one key from distinct keys: nothing else changes. */
  lemma {:induction false} WithoutKeepsRest(keys: seq<nat>, key: nat)
    requires Distinct(keys)
    ensures Distinct(Without(keys, key)) && key !in Without(keys, key)
    ensures forall k :: k in Without(keys, key) <==> k in keys && k != key
    ensures |Without(keys, key)| == if key in keys then |keys| - 1 else |keys|
  {
    if keys != [] {
      var before, last := keys[..|keys| - 1], keys[|keys| - 1];
      assert keys == before + [last];
      WithoutKeepsRest(before, key);
      assert last !in before;
      if last == key {
        WithoutAbsent(before, key);
        assert Without(keys, key) == before + [] == before;
      } else {
        assert Without(keys, key) == Without(before, key) + [last];
      }
    }
  }

  lemma NewestOfConcat(a: seq<nat>, b: seq<nat>, limit: nat)
    requires |b| >= limit
    ensures Newest(a + b, limit) == Newest(b, limit)
  {
  }

  // --- the history-based meaning ---

  /** All ids of a history, each at the place of its last delivery. */
  function Recency(history: seq<nat>): seq<nat> {
    if history == [] then []
    else Without(Recency(history[..|history| - 1]), history[|history| - 1]) + [history[|history| - 1]]
  }

  /** The bounded set after a history. */
  function Seen(history: seq<nat>, limit: nat): seq<nat> {
    if history == [] then []
    else Remembered(Seen(history[..|history| - 1], limit), history[|history| - 1], limit)
  }

  lemma {:induction false} RecencyIsDistinct(history: seq<nat>)
    ensures Distinct(Recency(history)) && forall k :: k in Recency(history) <==> k in history
  {
    if history != [] {
      var before, last := history[..|history| - 1], history[|history| - 1];
      assert history == before + [last];
      RecencyIsDistinct(before);
      WithoutKeepsRest(Recency(before), last);
    }
  }

  lemma RememberedKeepsSuffix(recency: seq<nat>, key: nat, limit: nat)
    requires Distinct(recency)
    ensures Remembered(Newest(recency, limit), key, limit) == Newest(Without(recency, key) + [key], limit)
  {
    if |recency| > limit {
      var front, recent := recency[..|recency| - limit], recency[|recency| - limit..];
      assert recency == front + recent;
      WithoutConcat(front, recent, key);
      WithoutKeepsRest(recent, key);
      var tail := Without(recent, key) + [key];
      assert Without(recency, key) + [key] == Without(front, key) + tail;
      NewestOfConcat(Without(front, key), tail, limit);
    }
  }

  /** The set always holds the `limit` most recently delivered ids, in order. */
  lemma {:induction false} SeenIsMostRecent(history: seq<nat>, limit: nat)
    ensures Seen(history, limit) == Newest(Recency(history), limit)
  {
    if history != [] {
      var before := history[..|history| - 1];
      SeenIsMostRecent(before, limit);
      RecencyIsDistinct(before);
      RememberedKeepsSuffix(Recency(before), history[|history| - 1], limit);
    }
  }

  /** The distinct other ids delivered since the last delivery of `id`. */
  function OthersSince(history: seq<nat>, id: nat): set<nat> {
    if history == [] || history[|history| - 1] == id then {}
    else OthersSince(history[..|history| - 1], id) + {history[|history| - 1]}
  }

  lemma DistinctTail(older: seq<nat>, id: nat, newer: seq<nat>)
    requires Distinct(older + [id] + newer)
    ensures Distinct(newer)
  {
    forall i, j | 0 <= i < j < |newer| ensures newer[i] != newer[j] {
      var all := older + [id] + newer;
      assert all[|older| + 1 + i] != all[|older| + 1 + j];
    }
  }

  /** Another delivery moves its id to the end and leaves the split in place. */
  lemma SplitMoves(older: seq<nat>, id: nat, newer: seq<nat>, last: nat)
    requires Distinct(older + [id] + newer) && last != id
    ensures Without(older + [id] + newer, last) + [last] ==
            Without(older, last) + [id] + (Without(newer, last) + [last])
    ensures IdSet(Without(newer, last) + [last]) == IdSet(newer) + {last}
  {
    WithoutConcat(older + [id], newer, last);
    WithoutAppend(older, id, last);
    DistinctTail(older, id, newer);
    WithoutKeepsRest(newer, last);
  }

  /** What follows an id in the recency order is exactly what was delivered since. */
  lemma {:induction false} RecencySplits(history: seq<nat>, id: nat) returns (older: seq<nat>, newer: seq<nat>)
    requires id in history
    ensures Recency(history) == older + [id] + newer
    ensures IdSet(newer) == OthersSince(history, id)
  {
    var before, last := history[..|history| - 1], history[|history| - 1];
    assert history == before + [last];
    if last == id {
      older, newer := Without(Recency(before), id), [];
    } else {
      older, newer := RecencySplits(before, id);
      RecencyIsDistinct(before);
      SplitMoves(older, id, newer, last);
      older, newer := Without(older, last), Without(newer, last) + [last];
    }
  }

  lemma {:induction false} DistinctCount(keys: seq<nat>)
    requires Distinct(keys)
    ensures |IdSet(keys)| == |keys|
  {
    if keys != [] {
      var before, last := keys[..|keys| - 1], keys[|keys| - 1];
      assert keys == before + [last];
      DistinctCount(before);
      assert IdSet(keys) == IdSet(before) + {last};
    }
  }

  lemma InNewest(older: seq<nat>, id: nat, newer: seq<nat>, limit: nat)
    requires Distinct(older + [id] + newer)
    ensures id in Newest(older + [id] + newer, limit) <==> |newer| < limit
  {
    var all := older + [id] + newer;
    var at := |older|;
    assert all[at] == id;
    if |all| > limit {
      var kept := all[|all| - limit..];
      if |newer| < limit {
        assert kept[at - (|all| - limit)] == id;
      }
      if id in kept {
        var k :| 0 <= k < |kept| && kept[k] == id;
        assert all[|all| - limit + k] == id;
      }
    }
  }

  /** A delivery counts as a duplicate exactly when its id was delivered before
      with fewer than `limit` distinct other ids since. */
  lemma DuplicateIsStackDistance(history: seq<nat>, id: nat, limit: nat)
    ensures id in Seen(history, limit) <==> id in history && |OthersSince(history, id)| < limit
  {
    SeenIsMostRecent(history, limit);
    RecencyIsDistinct(history);
    if id in history {
      var older, newer := RecencySplits(history, id);
      DistinctTail(older, id, newer);
      DistinctCount(newer);
      InNewest(older, id, newer, limit);
    } else {
      assert forall k :: k in Newest(Recency(history), limit) ==> k in Recency(history);
    }
  }

  /** The duplicate counter after a history. */
  function Duplicates(history: seq<nat>, limit: nat): nat {
    if history == [] then 0 else
    var before, last := history[..|history| - 1], history[|history| - 1];
    Duplicates(before, limit) + (if last in Seen(before, limit) then 1 else 0)
  }

  /** Never more than the repeats there were, and all of them as long as no
      more than `limit` distinct ids have been delivered. */
  lemma {:induction false} DuplicatesCountRepeats(history: seq<nat>, limit: nat)
    ensures Duplicates(history, limit) <= |history| - |IdSet(history)|
    ensures |IdSet(history)| <= limit ==> Duplicates(history, limit) == |history| - |IdSet(history)|
  {
    if history != [] {
      var before, last := history[..|history| - 1], history[|history| - 1];
      assert history == before + [last];
      assert IdSet(history) == IdSet(before) + {last};
      DuplicatesCountRepeats(before, limit);
      SeenIsMostRecent(before, limit);
      RecencyIsDistinct(before);
      DistinctCount(Recency(before));
      assert IdSet(Recency(before)) == IdSet(before);
      assert forall k :: k in Newest(Recency(before), limit) ==> k in Recency(before);
      if last in before {
        assert IdSet(history) == IdSet(before);
      }
    }
  }

  // --- the accounting half of ingest_telemetry ---

  /** One MQTT message: its size, and the event its payload validates to. */
  datatype Delivery = Delivery(topic: Topic, payloadBytes: nat, event: Option<Event>, finite: bool)

  predicate Accepted(d: Delivery) {
    d.payloadBytes <= MAX_PAYLOAD_BYTES && d.event.Some? && d.finite && BuildTopic(d.event.value) == d.topic
  }

  /** The topic names the event's vehicle, ECU and signal. */
  predicate OnItsTopic(event: Event, topic: Topic) {
    topic.vehicleId == event.vehicleId && topic.ecu == event.ecu && topic.signal == event.signal
  }

  /** An event is published under one topic; two events share it exactly if they
      agree in vehicle, ECU and signal. So a finite event that arrives as it was
      published is accepted up to the size limit, and one that arrives under the
      topic of any other vehicle, ECU or signal is malformed. */
  lemma AcceptedOnlyOnItsTopic(event: Event, other: Event, bytes: nat)
    ensures Accepted(Delivery(BuildTopic(event), bytes, Some(event), true)) <==> bytes <= 16384
    ensures Accepted(Delivery(BuildTopic(other), bytes, Some(event), true)) <==>
            bytes <= 16384 && other.vehicleId == event.vehicleId && other.ecu == event.ecu
              && other.signal == event.signal
  {
  }

  /** The ids of the accepted deliveries. */
  function AcceptedIds(deliveries: seq<Delivery>): seq<nat> {
    if deliveries == [] then [] else
    var last := deliveries[|deliveries| - 1];
    AcceptedIds(deliveries[..|deliveries| - 1]) + (if Accepted(last) then [last.event.value.eventId] else [])
  }

  /** What one more accepted id does to the set and the duplicate counter. */
  lemma HistoryAppend(history: seq<nat>, id: nat, limit: nat)
    ensures Seen(history + [id], limit) == Remembered(Seen(history, limit), id, limit)
    ensures Duplicates(history + [id], limit) == Duplicates(history, limit) +
            (if id in Seen(history, limit) then 1 else 0)
  {
    assert (history + [id])[..|history|] == history;
  }

  /** The id was delivered before, with fewer than 5000 distinct other ids since. */
  predicate RepeatsRecent(history: seq<nat>, d: Delivery)
    requires Accepted(d)
  {
    var id := d.event.value.eventId;
    id in history && |OthersSince(history, id)| < 5000
  }

  class DashboardState {
    var seenIds: seq<nat>
    var totalReceived: nat
    var malformed: nat
    var duplicates: nat
    ghost var deliveries: seq<Delivery>

    /** The counters and the set are functions of the deliveries. */
    ghost predicate Valid()
      reads this
    {
      var history := AcceptedIds(deliveries);
      && seenIds == Seen(history, MAX_SEEN_EVENT_IDS)
      && totalReceived == |history| && malformed == |deliveries| - |history|
      && duplicates == Duplicates(history, MAX_SEEN_EVENT_IDS)
    }

    constructor ()
      ensures Valid() && deliveries == []
    {
      seenIds, deliveries := [], [];
      totalReceived, malformed, duplicates := 0, 0, 0;
    }

    method IngestTelemetry(d: Delivery) returns (accepted: bool)
      requires Valid()
      modifies this
      ensures Valid() && deliveries == old(deliveries) + [d]
      ensures accepted <==> d.payloadBytes <= 16384 && d.event.Some? && d.finite && OnItsTopic(d.event.value, d.topic)
      ensures totalReceived + malformed == old(totalReceived + malformed) + 1
      ensures totalReceived == old(totalReceived) + (if accepted then 1 else 0)
      ensures duplicates == old(duplicates) +
              (if accepted && RepeatsRecent(AcceptedIds(old(deliveries)), d) then 1 else 0)
    {
      ghost var history := AcceptedIds(deliveries);
      accepted := d.payloadBytes <= MAX_PAYLOAD_BYTES && d.event.Some? && d.finite
        && BuildTopic(d.event.value) == d.topic;
      deliveries := deliveries + [d];
      if accepted {
        CountDelivery(history, d.event.value.eventId);
      } else {
        assert history + [] == history;
        malformed := malformed + 1;
      }
    }

    method CountDelivery(ghost history: seq<nat>, id: nat)
      requires seenIds == Seen(history, MAX_SEEN_EVENT_IDS) && totalReceived == |history|
      requires duplicates == Duplicates(history, MAX_SEEN_EVENT_IDS)
      modifies this`seenIds, this`totalReceived, this`duplicates
      ensures seenIds == Seen(history + [id], MAX_SEEN_EVENT_IDS) && totalReceived == |history| + 1
      ensures duplicates == Duplicates(history + [id], MAX_SEEN_EVENT_IDS)
      ensures duplicates == old(duplicates) +
                (if id in history && |OthersSince(history, id)| < 5000 then 1 else 0)
    {
      DuplicateIsStackDistance(history, id, MAX_SEEN_EVENT_IDS);
      HistoryAppend(history, id, MAX_SEEN_EVENT_IDS);
      totalReceived := totalReceived + 1;
      if id in seenIds {
        duplicates := duplicates + 1;
      }
      seenIds := Remember(seenIds, id, MAX_SEEN_EVENT_IDS);
    }

    /** The dict update, the move to the end, and the trimming loop. */
    static method Remember(store: seq<nat>, key: nat, limit: nat) returns (keys: seq<nat>)
      ensures keys == Remembered(store, key, limit)
    {
      keys := Without(store, key) + [key];
      ghost var all := keys;
      while |keys| > limit
        invariant |keys| <= |all| && keys == all[|all| - |keys|..]
        invariant |keys| < limit ==> keys == all
      {
        assert all[|all| - |keys|..][1..] == all[|all| - |keys| + 1..];
        keys := keys[1..];
      }
    }
  }

  // --- chart series ---

  const SERIES_SAMPLE_SECONDS := 0.5
  const MAX_SERIES_POINTS := 120

  /** A bounded deque: appending to a full one drops the oldest. */
  function Sample(series: seq<(real, real)>, t: real, value: real): seq<(real, real)> {
    if series == [] || t - series[|series| - 1].0 >= SERIES_SAMPLE_SECONDS then
      var longer := series + [(t, value)];
      if |longer| > MAX_SERIES_POINTS then longer[1..] else longer
    else series
  }

  function Series(points: seq<(real, real)>): seq<(real, real)> {
    if points == [] then []
    else Sample(Series(points[..|points| - 1]), points[|points| - 1].0, points[|points| - 1].1)
  }

  ghost predicate Spaced(s: seq<(real, real)>) {
    forall i :: 0 < i < |s| ==> s[i].0 - s[i - 1].0 >= 0.5
  }

  /** At most 120 of the given points, at least half a second apart, the newest
      less than half a second behind any of them. */
  ghost predicate Samples(s: seq<(real, real)>, points: seq<(real, real)>) {
    && |s| <= 120 && Spaced(s)
    && (forall p :: p in s ==> p in points)
    && (forall p :: p in points ==> s != [] && p.0 - s[|s| - 1].0 < 0.5)
  }

  lemma SampleIsSpaced(s: seq<(real, real)>, t: real, value: real)
    requires |s| <= MAX_SERIES_POINTS && Spaced(s)
    ensures |Sample(s, t, value)| <= MAX_SERIES_POINTS && Spaced(Sample(s, t, value))
  {
  }

  /** A new point either becomes the newest, or it is not half a second past it. */
  lemma SampleEnds(s: seq<(real, real)>, t: real, value: real)
    ensures var after := Sample(s, t, value);
            && after != [] && t - after[|after| - 1].0 < SERIES_SAMPLE_SECONDS
            && (s != [] ==> s[|s| - 1].0 <= after[|after| - 1].0)
            && (forall p :: p in after ==> p in s || p == (t, value))
  {
  }

  lemma SampleKeeps(s: seq<(real, real)>, before: seq<(real, real)>, t: real, value: real)
    requires Samples(s, before)
    ensures Samples(Sample(s, t, value), before + [(t, value)])
  {
    SampleIsSpaced(s, t, value);
    SampleEnds(s, t, value);
  }

  /** Whatever order the points arrive in, the chart samples what was delivered. */
  lemma {:induction false} SeriesIsSampled(points: seq<(real, real)>)
    ensures Samples(Series(points), points)
  {
    if points != [] {
      var before, last := points[..|points| - 1], points[|points| - 1];
      assert points == before + [(last.0, last.1)];
      SeriesIsSampled(before);
      SampleKeeps(Series(before), before, last.0, last.1);
    }
  }

  // --- which points are on the chart ---

  /** Every sample ever taken: the first point, then each one at least half a
      second past the sample before it. */
  function AllSamples(points: seq<(real, real)>): seq<(real, real)> {
    if points == [] then [] else
    var earlier, last := AllSamples(points[..|points| - 1]), points[|points| - 1];
    if earlier == [] || last.0 - earlier[|earlier| - 1].0 >= 0.5 then earlier + [last] else earlier
  }

  function NewestSamples(s: seq<(real, real)>): seq<(real, real)> {
    if |s| <= 120 then s else s[|s| - 120..]
  }

  /** Trimming before a sample is taken or after makes no difference. */
  lemma SampleOfNewest(all: seq<(real, real)>, p: (real, real))
    ensures Sample(NewestSamples(all), p.0, p.1) ==
            if all == [] || p.0 - all[|all| - 1].0 >= 0.5 then NewestSamples(all + [p]) else NewestSamples(all)
  {
    assert (p.0, p.1) == p;
  }

  /** The chart shows the newest 120 of all samples ever taken. */
  lemma {:induction false} SeriesIsNewestSamples(points: seq<(real, real)>)
    ensures Series(points) == NewestSamples(AllSamples(points))
  {
    if points != [] {
      var before := points[..|points| - 1];
      SeriesIsNewestSamples(before);
      SampleOfNewest(AllSamples(before), points[|points| - 1]);
    }
  }
}
