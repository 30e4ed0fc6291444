/** The greedy window scan of the anomaly rules, on events sorted by time. */
module Clustering {
  import opened Telemetry

  datatype DiagnosticEvent = DiagnosticEvent(
    eventId: string, vehicleId: string, ecu: ECU, serviceName: string, isPositive: bool,
    responseSummary: string, timestamp: real)

  /** The slice events[from..to] of a list, `to` excluded. */
  datatype Span = Span(from: nat, to: nat)

  /** Extends a run while the next event is within the window of its first. */
  function RunEnd(events: seq<DiagnosticEvent>, start: nat, end: nat, window: real): (r: nat)
    requires start < |events| && start <= end
    ensures r >= end
    decreases |events| - end
  {
    if end + 1 < |events| && events[end + 1].timestamp - events[start].timestamp <= window
    then RunEnd(events, start, end + 1, window) else end
  }

  /** The clusters found from `start` on. Beyond the list, which only a
      threshold below one reaches, a run is empty but counts as one event. */
  function SpansFrom(events: seq<DiagnosticEvent>, threshold: int, window: real, start: nat): seq<Span>
    decreases |events| - threshold - start
  {
    if start > |events| - threshold then [] else
    var end := if start < |events| then RunEnd(events, start, start, window) else start;
    if end - start + 1 >= threshold
    then [Span(start, end + 1)] + SpansFrom(events, threshold, window, end + 1)
    else SpansFrom(events, threshold, window, start + 1)
  }

  /** A Python slice: out of range means empty. */
  function Slice(events: seq<DiagnosticEvent>, span: Span): seq<DiagnosticEvent> {
    if span.from <= span.to <= |events| then events[span.from..span.to]
    else if span.from <= |events| then events[span.from..] else []
  }

  function Slices(events: seq<DiagnosticEvent>, spans: seq<Span>): (r: seq<seq<DiagnosticEvent>>)
    ensures |r| == |spans| && forall k :: 0 <= k < |spans| ==> r[k] == Slice(events, spans[k])
  {
    seq(|spans|, k requires 0 <= k < |spans| => Slice(events, spans[k]))
  }

  function Clusters(events: seq<DiagnosticEvent>, threshold: int, window: real): seq<seq<DiagnosticEvent>> {
    Slices(events, SpansFrom(events, threshold, window, 0))
  }

  /** The inner loop of `_cluster_by_window`. */
  method ExtendRun(events: seq<DiagnosticEvent>, start: nat, window: real) returns (end: nat)
    ensures end == if start < |events| then RunEnd(events, start, start, window) else start
  {
    end := start;
    while end + 1 < |events| && events[end + 1].timestamp - events[start].timestamp <= window
      invariant start <= end && (start < |events| ==> end < |events|) && (start >= |events| ==> end == start)
      invariant start < |events| ==> RunEnd(events, start, end, window) == RunEnd(events, start, start, window)
      decreases |events| - end
    {
      end := end + 1;
    }
  }

  /** `_cluster_by_window`. */
  method ClusterByWindow(events: seq<DiagnosticEvent>, threshold: int, window: real)
    returns (clusters: seq<seq<DiagnosticEvent>>)
    ensures clusters == Clusters(events, threshold, window)
  {
    clusters := [];
    ghost var spans, all := [], SpansFrom(events, threshold, window, 0);
    var n := |events|;
    var start := 0;
    while start <= n - threshold
      invariant spans + SpansFrom(events, threshold, window, start) == all
      invariant clusters == Slices(events, spans)
      decreases n - threshold - start
    {
      var end := ExtendRun(events, start, window);
      if end - start + 1 >= threshold {
        ghost var span, rest := Span(start, end + 1), SpansFrom(events, threshold, window, end + 1);
        assert spans + ([span] + rest) == (spans + [span]) + rest;
        clusters := clusters + [Slice(events, Span(start, end + 1))];
        spans := spans + [span];
        start := end + 1;
      } else {
        start := start + 1;
      }
    }
    assert spans + [] == spans;
  }

  // --- what the scan finds ---

  ghost predicate SortedByTime(events: seq<DiagnosticEvent>) {
    forall i, j :: 0 <= i < j < |events| ==> events[i].timestamp <= events[j].timestamp
  }

  /** At least `threshold` events from index i on lie within the window of event i. */
  predicate Qualifies(events: seq<DiagnosticEvent>, threshold: int, window: real, i: nat) {
    threshold >= 1 && i + threshold <= |events| &&
    events[i + threshold - 1].timestamp - events[i].timestamp <= window
  }

  /** A maximal run: at least `threshold` events, all within the window of the
      first, and the next event is not. */
  ghost predicate IsRun(events: seq<DiagnosticEvent>, threshold: int, window: real, s: Span) {
    && s.from + threshold <= s.to <= |events| && s.from < s.to
    && (forall i :: s.from <= i < s.to ==> events[i].timestamp - events[s.from].timestamp <= window)
    && (s.to < |events| ==> events[s.to].timestamp - events[s.from].timestamp > window)
  }

  lemma {:induction false} RunEndIsMaximal(events: seq<DiagnosticEvent>, start: nat, end: nat, window: real)
    requires start <= end < |events| && SortedByTime(events)
    requires forall i :: start <= i <= end ==> events[i].timestamp - events[start].timestamp <= window
    ensures var last := RunEnd(events, start, end, window);
            && end <= last < |events|
            && (forall i :: start <= i <= last ==> events[i].timestamp - events[start].timestamp <= window)
            && (last + 1 < |events| ==> events[last + 1].timestamp - events[start].timestamp > window)
    decreases |events| - end
  {
    if end + 1 < |events| && events[end + 1].timestamp - events[start].timestamp <= window {
      RunEndIsMaximal(events, start, end + 1, window);
    }
  }

  lemma RunIsLongIffQualifies(events: seq<DiagnosticEvent>, threshold: int, window: real, start: nat)
    requires SortedByTime(events) && threshold >= 1 && window >= 0.0 && start < |events|
    ensures var end := RunEnd(events, start, start, window);
            && (end - start + 1 >= threshold <==> Qualifies(events, threshold, window, start))
            && (end - start + 1 >= threshold ==> IsRun(events, threshold, window, Span(start, end + 1)))
  {
    RunEndIsMaximal(events, start, start, window);
    var end := RunEnd(events, start, start, window);
    var needed := start + threshold - 1;
    if needed < |events| && end < needed {
      assert events[end + 1].timestamp <= events[needed].timestamp;
    }
  }

  /** Runs in order, from `start` on: disjoint, maximal, and with no qualifying
      event before, between or after them. */
  ghost predicate FindsAll(events: seq<DiagnosticEvent>, threshold: int, window: real, start: nat, spans: seq<Span>)
    decreases |spans|
  {
    if spans == [] then
      forall i {:trigger Qualifies(events, threshold, window, i)} ::
        i >= start ==> !Qualifies(events, threshold, window, i)
    else
      && start <= spans[0].from && IsRun(events, threshold, window, spans[0])
      && (forall i {:trigger Qualifies(events, threshold, window, i)} :: start <= i < spans[0].from ==>
          !Qualifies(events, threshold, window, i))
      && FindsAll(events, threshold, window, spans[0].to, spans[1..])
  }

  /** Soundness, disjointness, maximality and completeness of the scan. */
  lemma {:induction false} ScanFindsAll(events: seq<DiagnosticEvent>, threshold: int, window: real, start: nat)
    requires SortedByTime(events) && threshold >= 1 && window >= 0.0
    ensures FindsAll(events, threshold, window, start, SpansFrom(events, threshold, window, start))
    decreases |events| - threshold - start
  {
    if start <= |events| - threshold {
      RunIsLongIffQualifies(events, threshold, window, start);
      var end := RunEnd(events, start, start, window);
      if end - start + 1 >= threshold {
        ScanFindsAll(events, threshold, window, end + 1);
      } else {
        ScanFindsAll(events, threshold, window, start + 1);
        FindsAllEarlier(events, threshold, window, start, SpansFrom(events, threshold, window, start + 1));
      }
    }
  }

  lemma FindsAllEarlier(events: seq<DiagnosticEvent>, threshold: int, window: real, start: nat, spans: seq<Span>)
    requires FindsAll(events, threshold, window, start + 1, spans) && !Qualifies(events, threshold, window, start)
    ensures FindsAll(events, threshold, window, start, spans)
  {
    if spans == [] {
      forall i {:trigger Qualifies(events, threshold, window, i)} | i >= start
        ensures !Qualifies(events, threshold, window, i)
      {
        if i > start {
          assert i >= start + 1;
        }
      }
    }
  }

  /** Every event that starts a qualifying run lies in some cluster. */
  lemma {:induction false} QualifyingIsClustered(events: seq<DiagnosticEvent>, threshold: int, window: real,
                                                 start: nat, spans: seq<Span>, i: nat) returns (k: nat)
    requires FindsAll(events, threshold, window, start, spans)
    requires i >= start && Qualifies(events, threshold, window, i)
    ensures k < |spans| && spans[k].from <= i < spans[k].to
    decreases |spans|
  {
    if i < spans[0].to {
      return 0;
    }
    k := QualifyingIsClustered(events, threshold, window, spans[0].to, spans[1..], i);
    k := k + 1;
  }

  /** The k-th cluster and its neighbours. */
  lemma {:induction false} SpanProperties(events: seq<DiagnosticEvent>, threshold: int, window: real,
                                          start: nat, spans: seq<Span>, k: nat)
    requires FindsAll(events, threshold, window, start, spans) && k < |spans|
    ensures start <= spans[k].from && IsRun(events, threshold, window, spans[k])
    ensures forall j :: 0 <= j < k ==> spans[j].to <= spans[k].from
    ensures var before := if k == 0 then start else spans[k - 1].to;
            before <= spans[k].from &&
            forall i {:trigger Qualifies(events, threshold, window, i)} ::
              before <= i < spans[k].from ==> !Qualifies(events, threshold, window, i)
    decreases |spans|
  {
    if k > 0 {
      SpanProperties(events, threshold, window, spans[0].to, spans[1..], k - 1);
      forall j | 0 <= j < k ensures spans[j].to <= spans[k].from {
        if j > 0 {
          assert spans[1..][j - 1].to <= spans[1..][k - 1].from;
        }
      }
    }
  }

  /** Re-running the scan on what no cluster contains finds nothing. */
  lemma {:induction false} UnclusteredIsQuiet(events: seq<DiagnosticEvent>, threshold: int, window: real,
                                              kept: seq<nat>)
    requires SortedByTime(events) && threshold >= 1 && window >= 0.0
    requires forall i :: 0 <= i < |kept| ==> kept[i] < |events|
    requires forall i, j :: 0 <= i < j < |kept| ==> kept[i] < kept[j]
    requires forall i, k :: 0 <= i < |kept| && 0 <= k < |SpansFrom(events, threshold, window, 0)| ==>
               var s := SpansFrom(events, threshold, window, 0)[k]; !(s.from <= kept[i] < s.to)
    ensures Clusters(Selected(events, kept), threshold, window) == []
  {
    var rest, spans := Selected(events, kept), SpansFrom(events, threshold, window, 0);
    ScanFindsAll(events, threshold, window, 0);
    assert SortedByTime(rest);
    forall i: nat | Qualifies(rest, threshold, window, i) ensures false {
      IndicesSpread(kept, i, i + threshold - 1);
      assert events[kept[i] + threshold - 1].timestamp <= events[kept[i + threshold - 1]].timestamp;
      assert Qualifies(events, threshold, window, kept[i]);
      var _ := QualifyingIsClustered(events, threshold, window, 0, spans, kept[i]);
      assert false;
    }
    ScanFindsAll(rest, threshold, window, 0);
    var found := SpansFrom(rest, threshold, window, 0);
    if found != [] {
      RunStartQualifies(rest, threshold, window, found[0]);
    }
  }

  lemma RunStartQualifies(events: seq<DiagnosticEvent>, threshold: int, window: real, s: Span)
    requires IsRun(events, threshold, window, s) && threshold >= 1
    ensures Qualifies(events, threshold, window, s.from)
  {
    assert s.from <= s.from + threshold - 1 < s.to;
  }

  function Selected(events: seq<DiagnosticEvent>, kept: seq<nat>): (r: seq<DiagnosticEvent>)
    requires forall i :: 0 <= i < |kept| ==> kept[i] < |events|
    ensures |r| == |kept| && forall i :: 0 <= i < |kept| ==> r[i] == events[kept[i]]
  {
    seq(|kept|, i requires 0 <= i < |kept| => events[kept[i]])
  }

  lemma {:induction false} IndicesSpread(kept: seq<nat>, i: nat, j: nat)
    requires forall a, b :: 0 <= a < b < |kept| ==> kept[a] < kept[b]
    requires i <= j < |kept|
    ensures kept[j] >= kept[i] + (j - i)
    decreases j - i
  {
    if i < j {
      IndicesSpread(kept, i, j - 1);
    }
  }

  // --- a threshold below one ---

  lemma {:induction false} LowThresholdEndsEmpty(events: seq<DiagnosticEvent>, threshold: int, window: real, start: nat)
    returns (k: nat)
    requires threshold <= 0 && start <= |events|
    ensures var spans := SpansFrom(events, threshold, window, start);
            k < |spans| && spans[k] == Span(|events|, |events| + 1)
    decreases |events| - start
  {
    k := 0;
    if start < |events| {
      var end := RunEnd(events, start, start, window);
      RunEndInside(events, start, start, window);
      k := LowThresholdEndsEmpty(events, threshold, window, end + 1);
      k := k + 1;
    }
  }

  lemma {:induction false} RunEndInside(events: seq<DiagnosticEvent>, start: nat, end: nat, window: real)
    requires start <= end < |events|
    ensures RunEnd(events, start, end, window) < |events|
    decreases |events| - end
  {
    if end + 1 < |events| && events[end + 1].timestamp - events[start].timestamp <= window {
      RunEndInside(events, start, end + 1, window);
    }
  }

  ghost predicate Inside(spans: seq<Span>, length: nat) {
    forall k :: 0 <= k < |spans| ==> spans[k].from < spans[k].to <= length
  }

  lemma {:induction false} SpansAreInside(events: seq<DiagnosticEvent>, threshold: int, window: real, start: nat)
    requires threshold >= 1
    ensures Inside(SpansFrom(events, threshold, window, start), |events|)
    decreases |events| - threshold - start
  {
    if start <= |events| - threshold {
      var end := RunEnd(events, start, start, window);
      RunEndInside(events, start, start, window);
      if end - start + 1 >= threshold {
        SpansAreInside(events, threshold, window, end + 1);
      } else {
        SpansAreInside(events, threshold, window, start + 1);
      }
    }
  }

  /** Every cluster has a first event, so that a report can be built from it,
      exactly when the threshold is at least one. */
  lemma ClustersAreNonEmptyIffThreshold(events: seq<DiagnosticEvent>, threshold: int, window: real)
    ensures (forall k :: 0 <= k < |Clusters(events, threshold, window)| ==>
             Clusters(events, threshold, window)[k] != [])
            <==> threshold >= 1
  {
    var clusters, spans := Clusters(events, threshold, window), SpansFrom(events, threshold, window, 0);
    if threshold >= 1 {
      SpansAreInside(events, threshold, window, 0);
      forall k | 0 <= k < |clusters| ensures clusters[k] != [] {
        assert spans[k].from < spans[k].to <= |events|;
        assert |Slice(events, spans[k])| == spans[k].to - spans[k].from;
      }
    } else {
      var k := LowThresholdEndsEmpty(events, threshold, window, 0);
      assert clusters[k] == Slice(events, Span(|events|, |events| + 1)) == [];
    }
  }

  // --- ties ---

  /** No cluster edge separates events with equal timestamps. */
  lemma TiesAreNotSplit(events: seq<DiagnosticEvent>, threshold: int, window: real, k: nat)
    requires SortedByTime(events) && threshold >= 1 && window >= 0.0
    requires k < |SpansFrom(events, threshold, window, 0)|
    ensures var s := SpansFrom(events, threshold, window, 0)[k];
            && 0 <= s.from < s.to <= |events|
            && (s.to < |events| ==> events[s.to - 1].timestamp < events[s.to].timestamp)
            && (s.from > 0 ==> events[s.from - 1].timestamp < events[s.from].timestamp)
  {
    var spans := SpansFrom(events, threshold, window, 0);
    var s := spans[k];
    ScanFindsAll(events, threshold, window, 0);
    SpanProperties(events, threshold, window, 0, spans, k);
    RunStartQualifies(events, threshold, window, s);
    if s.from > 0 && events[s.from - 1].timestamp == events[s.from].timestamp {
      if k > 0 && spans[k - 1].to == s.from {
        SpanProperties(events, threshold, window, 0, spans, k - 1);
        assert false;
      } else {
        assert events[s.from + threshold - 2].timestamp <= events[s.from + threshold - 1].timestamp;
        assert Qualifies(events, threshold, window, s.from - 1);
        assert false;
      }
    }
  }

  /** A negative window puts no two events together: a threshold of one makes
      every event a cluster of its own, any higher one finds nothing. */
  lemma {:induction false} NegativeWindowFindsSingles(events: seq<DiagnosticEvent>, threshold: int, window: real,
                                                      start: nat)
    requires SortedByTime(events) && threshold >= 1 && window < 0.0 && start <= |events|
    ensures |SpansFrom(events, threshold, window, start)| == if threshold == 1 then |events| - start else 0
    ensures forall k :: 0 <= k < |SpansFrom(events, threshold, window, start)| ==>
              SpansFrom(events, threshold, window, start)[k] == Span(start + k, start + k + 1)
    decreases |events| - start
  {
    if start < |events| {
      assert RunEnd(events, start, start, window) == start;
      NegativeWindowFindsSingles(events, threshold, window, start + 1);
    }
  }
}
