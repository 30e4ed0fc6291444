/** What the anomaly rules mean: the order of the input does not matter, the
    rules relate to each other, and ECUs do not influence each other. */
module RuleProperties {
  import opened Telemetry
  import opened Clustering
  import opened Rules

  // --- the order of the input does not matter ---

  function Before(t: real): DiagnosticEvent -> bool {
    (e: DiagnosticEvent) => e.timestamp < t
  }

  lemma FilterDependsOnMultiset(a: seq<DiagnosticEvent>, b: seq<DiagnosticEvent>, p: DiagnosticEvent -> bool)
    requires multiset(a) == multiset(b)
    ensures multiset(Filter(a, p)) == multiset(Filter(b, p))
  {
    forall x ensures multiset(Filter(a, p))[x] == multiset(Filter(b, p))[x] {
      FilterCounts(a, p, x);
      FilterCounts(b, p, x);
    }
  }

  lemma SameMultisetSameLength(a: seq<DiagnosticEvent>, b: seq<DiagnosticEvent>)
    requires multiset(a) == multiset(b)
    ensures |a| == |b|
  {
    assert |multiset(a)| == |a| && |multiset(b)| == |b|;
  }

  /** In a sorted list the events before a moment are a prefix. */
  lemma {:induction false} BeforeIsPrefix(events: seq<DiagnosticEvent>, t: real)
    requires SortedByTime(events)
    ensures var n := |Filter(events, Before(t))|;
            && n <= |events| && Filter(events, Before(t)) == events[..n]
            && forall i :: 0 <= i < |events| ==> (i < n <==> events[i].timestamp < t)
  {
    if events != [] {
      var before, last := events[..|events| - 1], events[|events| - 1];
      BeforeIsPrefix(before, t);
      assert forall i :: 0 <= i < |before| ==> before[i] == events[i];
      if last.timestamp < t {
        assert |Filter(before, Before(t))| == |before|;
        assert Filter(events, Before(t)) == before + [last] == events;
      } else {
        assert Filter(events, Before(t)) == Filter(before, Before(t)) + [];
      }
    }
  }

  /** Two sorted arrangements of the same events have the same timestamps, and
      agree as multisets up to every position that does not split a tie. */
  lemma SortedArrangementsAgree(a: seq<DiagnosticEvent>, b: seq<DiagnosticEvent>)
    requires SortedByTime(a) && SortedByTime(b) && multiset(a) == multiset(b)
    ensures |a| == |b| && forall i :: 0 <= i < |a| ==> a[i].timestamp == b[i].timestamp
  {
    SameMultisetSameLength(a, b);
    forall i | 0 <= i < |a| ensures a[i].timestamp == b[i].timestamp {
      NotEarlier(a, b, i);
      NotEarlier(b, a, i);
    }
  }

  lemma NotEarlier(a: seq<DiagnosticEvent>, b: seq<DiagnosticEvent>, i: nat)
    requires SortedByTime(a) && SortedByTime(b) && multiset(a) == multiset(b) && |a| == |b| && i < |a|
    ensures a[i].timestamp >= b[i].timestamp
  {
    var t := b[i].timestamp;
    BeforeIsPrefix(a, t);
    BeforeIsPrefix(b, t);
    FilterDependsOnMultiset(a, b, Before(t));
    SameMultisetSameLength(Filter(a, Before(t)), Filter(b, Before(t)));
  }

  lemma PrefixesAgree(a: seq<DiagnosticEvent>, b: seq<DiagnosticEvent>, k: nat)
    requires SortedByTime(a) && SortedByTime(b) && multiset(a) == multiset(b) && |a| == |b| && k <= |a|
    requires forall i :: 0 <= i < |a| ==> a[i].timestamp == b[i].timestamp
    requires 0 < k < |a| ==> a[k - 1].timestamp < a[k].timestamp
    ensures multiset(a[..k]) == multiset(b[..k])
  {
    if k == |a| {
      assert a[..k] == a && b[..k] == b;
    } else if k > 0 {
      var t := a[k].timestamp;
      BeforeIsPrefix(a, t);
      BeforeIsPrefix(b, t);
      FilterDependsOnMultiset(a, b, Before(t));
      assert |Filter(a, Before(t))| == k == |Filter(b, Before(t))|;
    }
  }

  lemma {:induction false} RunEndSeesOnlyTimes(a: seq<DiagnosticEvent>, b: seq<DiagnosticEvent>, start: nat, end: nat,
                                               window: real)
    requires |a| == |b| && start <= end && start < |a|
    requires forall i :: 0 <= i < |a| ==> a[i].timestamp == b[i].timestamp
    ensures RunEnd(a, start, end, window) == RunEnd(b, start, end, window)
    decreases |a| - end
  {
    if end + 1 < |a| && a[end + 1].timestamp - a[start].timestamp <= window {
      RunEndSeesOnlyTimes(a, b, start, end + 1, window);
    }
  }

  lemma {:induction false} SpansSeeOnlyTimes(a: seq<DiagnosticEvent>, b: seq<DiagnosticEvent>, threshold: int,
                                             window: real, start: nat)
    requires |a| == |b| && forall i :: 0 <= i < |a| ==> a[i].timestamp == b[i].timestamp
    ensures SpansFrom(a, threshold, window, start) == SpansFrom(b, threshold, window, start)
    decreases |a| - threshold - start
  {
    if start <= |a| - threshold {
      if start < |a| {
        RunEndSeesOnlyTimes(a, b, start, start, window);
      }
      var end := if start < |a| then RunEnd(a, start, start, window) else start;
      if end - start + 1 >= threshold {
        SpansSeeOnlyTimes(a, b, threshold, window, end + 1);
      } else {
        SpansSeeOnlyTimes(a, b, threshold, window, start + 1);
      }
    }
  }

  /** One cluster of two arrangements: the same events, ending at the same time. */
  ghost predicate SameCluster(c: seq<DiagnosticEvent>, d: seq<DiagnosticEvent>) {
    multiset(c) == multiset(d) && c != [] && d != [] && c[|c| - 1].timestamp == d[|d| - 1].timestamp
  }

  lemma SlicesAgree(a: seq<DiagnosticEvent>, b: seq<DiagnosticEvent>, s: Span)
    requires SortedByTime(a) && SortedByTime(b) && multiset(a) == multiset(b) && |a| == |b|
    requires forall i :: 0 <= i < |a| ==> a[i].timestamp == b[i].timestamp
    requires s.from < s.to <= |a|
    requires s.to < |a| ==> a[s.to - 1].timestamp < a[s.to].timestamp
    requires s.from > 0 ==> a[s.from - 1].timestamp < a[s.from].timestamp
    ensures SameCluster(Slice(a, s), Slice(b, s))
  {
    PrefixesAgree(a, b, s.to);
    PrefixesAgree(a, b, s.from);
    MiddlesAgree(a, b, s.from, s.to);
    SameSlice(a, b, s);
  }

  lemma MiddlesAgree(a: seq<DiagnosticEvent>, b: seq<DiagnosticEvent>, from: nat, to: nat)
    requires from <= to <= |a| == |b|
    requires multiset(a[..from]) == multiset(b[..from]) && multiset(a[..to]) == multiset(b[..to])
    ensures multiset(a[from..to]) == multiset(b[from..to])
  {
    SliceMultiset(a, from, to);
    SliceMultiset(b, from, to);
  }

  lemma SameSlice(a: seq<DiagnosticEvent>, b: seq<DiagnosticEvent>, s: Span)
    requires s.from < s.to <= |a| == |b| && a[s.to - 1].timestamp == b[s.to - 1].timestamp
    requires multiset(a[s.from..s.to]) == multiset(b[s.from..s.to])
    ensures SameCluster(Slice(a, s), Slice(b, s))
  {
  }

  lemma SliceMultiset(events: seq<DiagnosticEvent>, from: nat, to: nat)
    requires from <= to <= |events|
    ensures multiset(events[from..to]) == multiset(events[..to]) - multiset(events[..from])
  {
    assert events[..to] == events[..from] + events[from..to];
  }

  lemma ClustersAgree(a: seq<DiagnosticEvent>, b: seq<DiagnosticEvent>, threshold: int, window: real)
    requires SortedByTime(a) && SortedByTime(b) && multiset(a) == multiset(b) && threshold >= 1 && window >= 0.0
    ensures var c, d := Clusters(a, threshold, window), Clusters(b, threshold, window);
            |c| == |d| && forall k :: 0 <= k < |c| ==> SameCluster(c[k], d[k])
  {
    SortedArrangementsAgree(a, b);
    SpansSeeOnlyTimes(a, b, threshold, window, 0);
    forall k | 0 <= k < |Clusters(a, threshold, window)|
      ensures SameCluster(Clusters(a, threshold, window)[k], Clusters(b, threshold, window)[k])
    {
      TiesAreNotSplit(a, threshold, window, k);
      SlicesAgree(a, b, SpansFrom(a, threshold, window, 0)[k]);
    }
  }

  /** Any permutation of the input, ties included, gives per ECU and rule the
      same clusters as sets of events, hence the same `detected_at` each. */
  lemma InputOrderDoesNotMatter(rule: Rule, events: seq<DiagnosticEvent>, permuted: seq<DiagnosticEvent>, ecu: ECU,
                                threshold: int, window: real)
    requires multiset(events) == multiset(permuted) && threshold >= 1 && window >= 0.0
    ensures var c, d := RuleClusters(rule, Group(events, ecu), threshold, window),
                        RuleClusters(rule, Group(permuted, ecu), threshold, window);
            |c| == |d| && forall k :: 0 <= k < |c| ==>
              SameCluster(c[k], d[k]) && BuildReport(rule, c[k]).detectedAt == BuildReport(rule, d[k]).detectedAt
  {
    FilterDependsOnMultiset(events, permuted, IsFrom(ecu));
    SortSorts(OfEcu(events, ecu));
    SortSorts(OfEcu(permuted, ecu));
    var a, b := Group(events, ecu), Group(permuted, ecu);
    FilterDependsOnMultiset(a, b, Matching(rule));
    FilterKeepsSorted(a, Matching(rule));
    FilterKeepsSorted(b, Matching(rule));
    ClustersAgree(Filter(a, Matching(rule)), Filter(b, Matching(rule)), threshold, window);
  }

  // --- P0217 activity is DTC-query activity ---

  lemma NarrowRunQualifies(wide: seq<DiagnosticEvent>, narrow: seq<DiagnosticEvent>, at: seq<nat>, s: Span,
                           threshold: int, window: real, wideThreshold: int, wideWindow: real)
    requires SortedByTime(wide) && wideThreshold >= 1 && window <= wideWindow && |at| == |narrow|
    requires forall i :: 0 <= i < |at| ==> at[i] < |wide| && wide[at[i]] == narrow[i]
    requires forall i, j :: 0 <= i < j < |at| ==> at[i] < at[j]
    requires IsRun(narrow, threshold, window, s) && s.to - s.from >= wideThreshold
    ensures Qualifies(wide, wideThreshold, wideWindow, at[s.from])
  {
    var lastNeeded := s.from + wideThreshold - 1;
    IndicesSpread(at, s.from, lastNeeded);
    assert narrow[lastNeeded].timestamp - narrow[s.from].timestamp <= window;
    var first := at[s.from];
    if first + wideThreshold - 1 < at[lastNeeded] {
      assert wide[first + wideThreshold - 1].timestamp <= wide[at[lastNeeded]].timestamp;
    }
  }

  lemma QualifyingIsInCluster(events: seq<DiagnosticEvent>, threshold: int, window: real, i: nat) returns (k: nat)
    requires SortedByTime(events) && threshold >= 1 && window >= 0.0 && Qualifies(events, threshold, window, i)
    ensures k < |Clusters(events, threshold, window)| && events[i] in Clusters(events, threshold, window)[k]
  {
    var spans := SpansFrom(events, threshold, window, 0);
    ScanFindsAll(events, threshold, window, 0);
    k := QualifyingIsClustered(events, threshold, window, 0, spans, i);
    SpanProperties(events, threshold, window, 0, spans, k);
    assert Slice(events, spans[k])[i - spans[k].from] == events[i];
  }

  /** A run among the narrower events, long enough for the wider rule, starts
      inside one of the wider rule's clusters. */
  lemma NarrowRunStartsInWideCluster(wide: seq<DiagnosticEvent>, p: DiagnosticEvent -> bool, s: Span,
                                     threshold: int, window: real, wideThreshold: int, wideWindow: real)
    returns (k: nat)
    requires SortedByTime(wide) && threshold >= 1 && wideThreshold >= 1 && 0.0 <= window <= wideWindow
    requires IsRun(Filter(wide, p), threshold, window, s) && s.to - s.from >= wideThreshold
    ensures k < |Clusters(wide, wideThreshold, wideWindow)|
    ensures Filter(wide, p)[s.from] in Clusters(wide, wideThreshold, wideWindow)[k]
  {
    var at := FilterPositions(wide, p);
    NarrowRunQualifies(wide, Filter(wide, p), at, s, threshold, window, wideThreshold, wideWindow);
    k := QualifyingIsInCluster(wide, wideThreshold, wideWindow, at[s.from]);
  }

  /** The same of the reports on one group. */
  lemma GroupP0217StartsInDtcReport(group: seq<DiagnosticEvent>, r: nat, threshold: int, window: real,
                                     dtcThreshold: int, dtcWindow: real) returns (k: nat)
    requires SortedByTime(group) && threshold >= 1 && dtcThreshold >= 1 && 0.0 <= window <= dtcWindow
    requires r < |GroupReports(RepeatedP0217Activity, group, threshold, window)|
    requires |GroupReports(RepeatedP0217Activity, group, threshold, window)[r].eventIds| >= dtcThreshold
    ensures k < |GroupReports(RepeatedDtcQueries, group, dtcThreshold, dtcWindow)|
    ensures GroupReports(RepeatedP0217Activity, group, threshold, window)[r].eventIds[0] in
            GroupReports(RepeatedDtcQueries, group, dtcThreshold, dtcWindow)[k].eventIds
  {
    var dtc, p := Filter(group, Matching(RepeatedDtcQueries)), Matching(RepeatedP0217Activity);
    FilterAgain(group, Matching(RepeatedDtcQueries), p);
    FilterKeepsSorted(group, Matching(RepeatedDtcQueries));
    var narrow := Filter(dtc, p);
    FilterKeepsSorted(dtc, p);
    var s := SpansFrom(narrow, threshold, window, 0)[r];
    ClusterIsRun(narrow, threshold, window, r);
    k := NarrowRunStartsInWideCluster(dtc, p, s, threshold, window, dtcThreshold, dtcWindow);
    var cluster := Clusters(dtc, dtcThreshold, dtcWindow)[k];
    var i :| 0 <= i < |cluster| && cluster[i] == narrow[s.from];
    assert GroupReports(RepeatedDtcQueries, group, dtcThreshold, dtcWindow)[k].eventIds[i] == narrow[s.from].eventId;
  }

  lemma ClusterIsRun(events: seq<DiagnosticEvent>, threshold: int, window: real, k: nat)
    requires SortedByTime(events) && threshold >= 1 && window >= 0.0 && k < |Clusters(events, threshold, window)|
    ensures var s := SpansFrom(events, threshold, window, 0)[k];
            IsRun(events, threshold, window, s) && Clusters(events, threshold, window)[k] == events[s.from..s.to]
  {
    ScanFindsAll(events, threshold, window, 0);
    SpanProperties(events, threshold, window, 0, SpansFrom(events, threshold, window, 0), k);
  }

  // --- what a report says ---

  /** Report and run: the rule and its severity, the ids of the run's events in
      time order, its first event's vehicle, and the latest time, within the
      window of the earliest. */
  ghost predicate Describes(r: Report, rule: Rule, events: seq<DiagnosticEvent>, s: Span, window: real)
    requires s.from < s.to <= |events|
  {
    && r.rule == rule && (r.severity == Info <==> rule == RepeatedDtcQueries)
    && |r.eventIds| == s.to - s.from
    && (forall i :: s.from <= i < s.to ==> r.eventIds[i - s.from] == events[i].eventId)
    && (forall i :: s.from <= i < s.to ==> events[s.from].timestamp <= events[i].timestamp <= r.detectedAt)
    && r.detectedAt == events[s.to - 1].timestamp <= events[s.from].timestamp + window
    && r.vehicleId == events[s.from].vehicleId && r.ecu == events[s.from].ecu
  }

  /** In one group, the k-th report describes the k-th maximal run of the rule's events. */
  lemma GroupReportDescribesRun(rule: Rule, group: seq<DiagnosticEvent>, threshold: int, window: real, k: nat)
    requires SortedByTime(group) && threshold >= 1 && window >= 0.0
    requires k < |GroupReports(rule, group, threshold, window)|
    ensures var events := Filter(group, Matching(rule));
            var s := SpansFrom(events, threshold, window, 0)[k];
            && IsRun(events, threshold, window, s)
            && Describes(GroupReports(rule, group, threshold, window)[k], rule, events, s, window)
  {
    var events := Filter(group, Matching(rule));
    FilterKeepsSorted(group, Matching(rule));
    ClusterIsRun(events, threshold, window, k);
    RunIsDescribed(rule, events, threshold, window, SpansFrom(events, threshold, window, 0)[k]);
  }

  lemma RunIsDescribed(rule: Rule, events: seq<DiagnosticEvent>, threshold: int, window: real, s: Span)
    requires SortedByTime(events) && IsRun(events, threshold, window, s)
    ensures Describes(BuildReport(rule, events[s.from..s.to]), rule, events, s, window)
  {
    var cluster := events[s.from..s.to];
    assert cluster[0] == events[s.from] && cluster[|cluster| - 1] == events[s.to - 1];
    forall i | s.from <= i < s.to
      ensures events[s.from].timestamp <= events[i].timestamp <= events[s.to - 1].timestamp {
    }
  }

  // --- ECUs do not influence each other ---

  function OnlyFrom(reports: seq<Report>, ecu: ECU): seq<Report> {
    if reports == [] then [] else
    var last := reports[|reports| - 1];
    OnlyFrom(reports[..|reports| - 1], ecu) + (if last.ecu == ecu then [last] else [])
  }

  lemma {:induction false} OnlyFromConcat(a: seq<Report>, b: seq<Report>, ecu: ECU)
    ensures OnlyFrom(a + b, ecu) == OnlyFrom(a, ecu) + OnlyFrom(b, ecu)
  {
    if b == [] {
      assert a + b == a;
    } else {
      assert (a + b)[..|a + b| - 1] == a + b[..|b| - 1];
      OnlyFromConcat(a, b[..|b| - 1], ecu);
    }
  }

  lemma {:induction false} OnlyFromAllOrNone(reports: seq<Report>, from: ECU, ecu: ECU)
    requires ReportsOf(reports, from)
    ensures OnlyFrom(reports, ecu) == if from == ecu then reports else []
  {
    if reports != [] {
      var before := reports[..|reports| - 1];
      assert reports == before + [reports[|reports| - 1]];
      OnlyFromAllOrNone(before, from, ecu);
    }
  }

  ghost predicate AllOf(events: seq<DiagnosticEvent>, ecu: ECU) {
    forall i :: 0 <= i < |events| ==> events[i].ecu == ecu
  }

  lemma GroupIsOfEcu(rule: Rule, events: seq<DiagnosticEvent>, ecu: ECU)
    ensures AllOf(Filter(Group(events, ecu), Matching(rule)), ecu)
  {
    var group, own := Group(events, ecu), OfEcu(events, ecu);
    FilterMembers(events, IsFrom(ecu));
    SortSorts(own);
    FilterMembers(group, Matching(rule));
    var matching := Filter(group, Matching(rule));
    forall i | 0 <= i < |matching| ensures matching[i].ecu == ecu {
      assert matching[i] in matching && matching[i] in group;
      assert matching[i] in multiset(group) && matching[i] in multiset(own) && matching[i] in own;
    }
  }

  lemma ClusterReportsAreOfEcu(rule: Rule, matching: seq<DiagnosticEvent>, ecu: ECU, threshold: int, window: real,
                               k: nat)
    requires threshold >= 1 && AllOf(matching, ecu) && k < |Clusters(matching, threshold, window)|
    ensures Clusters(matching, threshold, window)[k] != []
    ensures BuildReport(rule, Clusters(matching, threshold, window)[k]).ecu == ecu
  {
    SpansAreInside(matching, threshold, window, 0);
    var s := SpansFrom(matching, threshold, window, 0)[k];
    assert Slice(matching, s)[0] == matching[s.from];
  }

  ghost predicate ReportsOf(reports: seq<Report>, ecu: ECU) {
    forall k :: 0 <= k < |reports| ==> reports[k].ecu == ecu
  }

  lemma OnlyFromNext(reports: seq<Report>, more: seq<Report>, from: ECU, ecu: ECU)
    requires ReportsOf(more, from)
    ensures OnlyFrom(reports + more, ecu) == OnlyFrom(reports, ecu) + (if from == ecu then more else [])
  {
    OnlyFromConcat(reports, more, ecu);
    OnlyFromAllOrNone(more, from, ecu);
  }

  lemma GroupReportsAreOfEcu(rule: Rule, events: seq<DiagnosticEvent>, ecu: ECU, threshold: int, window: real)
    requires threshold >= 1
    ensures ReportsOf(GroupReports(rule, Group(events, ecu), threshold, window), ecu)
  {
    GroupIsOfEcu(rule, events, ecu);
    var reports, matching :=
      GroupReports(rule, Group(events, ecu), threshold, window), Filter(Group(events, ecu), Matching(rule));
    forall k | 0 <= k < |reports| ensures reports[k].ecu == ecu {
      ClusterReportsAreOfEcu(rule, matching, ecu, threshold, window, k);
    }
  }

  lemma ReportsOverFromNext(rule: Rule, events: seq<DiagnosticEvent>, before: seq<ECU>, last: ECU, ecu: ECU,
                            threshold: int, window: real)
    requires threshold >= 1
    ensures OnlyFrom(ReportsOver(rule, events, before + [last], threshold, window), ecu) ==
            OnlyFrom(ReportsOver(rule, events, before, threshold, window), ecu) +
            (if last == ecu then GroupReports(rule, Group(events, ecu), threshold, window) else [])
  {
    ReportsOverSnoc(rule, events, before, last, threshold, window);
    GroupReportsAreOfEcu(rule, events, last, threshold, window);
    OnlyFromNext(ReportsOver(rule, events, before, threshold, window),
                 GroupReports(rule, Group(events, last), threshold, window), last, ecu);
  }

  lemma DistinctSnoc(before: seq<ECU>, last: ECU, ecu: ECU)
    requires Distinct(before + [last])
    ensures Distinct(before) && last !in before
    ensures ecu in before + [last] <==> ecu in before || ecu == last
  {
    assert forall i :: 0 <= i < |before| ==> (before + [last])[i] == before[i];
    assert (before + [last])[|before|] == last;
  }

  lemma {:induction false} ReportsOverFrom(rule: Rule, events: seq<DiagnosticEvent>, ecus: seq<ECU>, ecu: ECU,
                                           threshold: int, window: real)
    requires threshold >= 1 && Distinct(ecus)
    ensures ecu in ecus ==>
            OnlyFrom(ReportsOver(rule, events, ecus, threshold, window), ecu) ==
              GroupReports(rule, Group(events, ecu), threshold, window)
    ensures ecu !in ecus ==> OnlyFrom(ReportsOver(rule, events, ecus, threshold, window), ecu) == []
    decreases |ecus|
  {
    if ecus != [] {
      var before, last := ecus[..|ecus| - 1], ecus[|ecus| - 1];
      assert ecus == before + [last];
      DistinctSnoc(before, last, ecu);
      ReportsOverFrom(rule, events, before, ecu, threshold, window);
      ReportsOverFromNext(rule, events, before, last, ecu, threshold, window);
    }
  }

  lemma NoEventsNoReports(rule: Rule, events: seq<DiagnosticEvent>, ecu: ECU, threshold: int, window: real)
    requires threshold >= 1 && OfEcu(events, ecu) == []
    ensures GroupReports(rule, Group(events, ecu), threshold, window) == []
  {
    assert Filter([], Matching(rule)) == [];
    assert SpansFrom([], threshold, window, 0) == [];
  }

  lemma FindingsFrom(rule: Rule, events: seq<DiagnosticEvent>, ecu: ECU, threshold: int, window: real)
    requires threshold >= 1
    ensures OnlyFrom(Findings(rule, events, threshold, window), ecu) ==
            GroupReports(rule, Group(events, ecu), threshold, window)
  {
    EcusAreDistinct(events);
    ReportsOverFrom(rule, events, EcusOf(events), ecu, threshold, window);
    if ecu !in EcusOf(events) {
      NoEventsNoReports(rule, events, ecu, threshold, window);
    }
  }

  lemma {:induction false} EcusOfOne(events: seq<DiagnosticEvent>, ecu: ECU)
    requires forall e :: e in events ==> e.ecu == ecu
    ensures EcusOf(events) == if events == [] then [] else [ecu]
  {
    if events != [] {
      var before := events[..|events| - 1];
      assert events == before + [events[|events| - 1]];
      EcusOfOne(before, ecu);
    }
  }

  lemma FindingsOfOneEcu(rule: Rule, alone: seq<DiagnosticEvent>, ecu: ECU, threshold: int, window: real)
    requires threshold >= 1 && forall e :: e in alone ==> e.ecu == ecu
    ensures alone != [] ==>
            Findings(rule, alone, threshold, window) == GroupReports(rule, Group(alone, ecu), threshold, window)
    ensures alone == [] ==> Findings(rule, alone, threshold, window) == []
  {
    EcusOfOne(alone, ecu);
    if alone != [] {
      assert [ecu][..0] == [];
      ReportsOverSnoc(rule, alone, [], ecu, threshold, window);
      assert [] + [ecu] == [ecu];
    }
  }

  /** The reports about one ECU are, in order, exactly the reports on that
      ECU's events alone, however other ECUs' events are interleaved. */
  lemma FindingsAreIsolated(rule: Rule, events: seq<DiagnosticEvent>, ecu: ECU, threshold: int, window: real)
    requires threshold >= 1
    ensures OnlyFrom(Findings(rule, events, threshold, window), ecu) ==
            Findings(rule, OfEcu(events, ecu), threshold, window)
  {
    var alone := OfEcu(events, ecu);
    FindingsFrom(rule, events, ecu, threshold, window);
    FilterMembers(events, IsFrom(ecu));
    FindingsOfOneEcu(rule, alone, ecu, threshold, window);
    FilterAgain(events, IsFrom(ecu), IsFrom(ecu));
    assert Group(alone, ecu) == Group(events, ecu);
    if alone == [] {
      NoEventsNoReports(rule, events, ecu, threshold, window);
    }
  }

  // --- P0217 reports lie in DTC-query reports ---

  /** In the rules' reports on any ECU, every P0217 report with at least
      `dtc_query_threshold` events begins with an event of some
      repeated-DTC-query report on that ECU. */
  lemma P0217ReportStartsInDtcReport(events: seq<DiagnosticEvent>, ecu: ECU, r: nat, threshold: int, window: real,
                                     dtcThreshold: int, dtcWindow: real) returns (k: nat)
    requires threshold >= 1 && dtcThreshold >= 1 && 0.0 <= window <= dtcWindow
    requires var p0217 := OnlyFrom(Findings(RepeatedP0217Activity, events, threshold, window), ecu);
             r < |p0217| && |p0217[r].eventIds| >= dtcThreshold
    ensures var p0217 := OnlyFrom(Findings(RepeatedP0217Activity, events, threshold, window), ecu);
            var dtc := OnlyFrom(Findings(RepeatedDtcQueries, events, dtcThreshold, dtcWindow), ecu);
            k < |dtc| && p0217[r].eventIds[0] in dtc[k].eventIds
  {
    FindingsFrom(RepeatedP0217Activity, events, ecu, threshold, window);
    FindingsFrom(RepeatedDtcQueries, events, ecu, dtcThreshold, dtcWindow);
    SortSorts(OfEcu(events, ecu));
    k := GroupP0217StartsInDtcReport(Group(events, ecu), r, threshold, window, dtcThreshold, dtcWindow);
  }

  /** The k-th report is about the k-th maximal run of these events, for every k. */
  ghost predicate ReportsDescribeRuns(reports: seq<Report>, rule: Rule, events: seq<DiagnosticEvent>, threshold: int,
                                      window: real) {
    var spans := SpansFrom(events, threshold, window, 0);
    && |reports| == |spans|
    && forall k :: 0 <= k < |reports| ==>
         IsRun(events, threshold, window, spans[k]) && Describes(reports[k], rule, events, spans[k], window)
  }

  lemma GroupReportsDescribeRuns(rule: Rule, group: seq<DiagnosticEvent>, threshold: int, window: real)
    requires SortedByTime(group) && threshold >= 1 && window >= 0.0
    ensures ReportsDescribeRuns(GroupReports(rule, group, threshold, window), rule, Filter(group, Matching(rule)),
                                threshold, window)
  {
    var events, reports := Filter(group, Matching(rule)), GroupReports(rule, group, threshold, window);
    var spans := SpansFrom(events, threshold, window, 0);
    forall k | 0 <= k < |reports|
      ensures IsRun(events, threshold, window, spans[k]) && Describes(reports[k], rule, events, spans[k], window) {
      GroupReportDescribesRun(rule, group, threshold, window, k);
    }
  }

  /** A rule's reports on any ECU describe, one by one and in order, the maximal
      runs of the events it looks at on that ECU, in time order. */
  lemma ReportDescribesRun(rule: Rule, events: seq<DiagnosticEvent>, ecu: ECU, threshold: int, window: real)
    requires threshold >= 1 && window >= 0.0
    ensures ReportsDescribeRuns(OnlyFrom(Findings(rule, events, threshold, window), ecu), rule,
                                Filter(Group(events, ecu), Matching(rule)), threshold, window)
  {
    FindingsFrom(rule, events, ecu, threshold, window);
    SortSorts(OfEcu(events, ecu));
    GroupReportsDescribeRuns(rule, Group(events, ecu), threshold, window);
  }

  // --- what a rule reports, without mentioning order ---

  /** The events a rule looks at on one ECU, in the window that starts at t. */
  function InBurst(rule: Rule, ecu: ECU, t: real, window: real): DiagnosticEvent -> bool {
    (e: DiagnosticEvent) => e.ecu == ecu && Matches(rule, e) && t <= e.timestamp <= t + window
  }

  function InWindow(t: real, window: real): DiagnosticEvent -> bool {
    (e: DiagnosticEvent) => t <= e.timestamp <= t + window
  }

  lemma {:induction false} FilterConcat(a: seq<DiagnosticEvent>, b: seq<DiagnosticEvent>, p: DiagnosticEvent -> bool)
    ensures Filter(a + b, p) == Filter(a, p) + Filter(b, p)
  {
    if b == [] {
      assert a + b == a;
    } else {
      var before, last := b[..|b| - 1], b[|b| - 1];
      assert a + b == (a + before) + [last] && b == before + [last];
      FilterConcat(a, before, p);
      FilterAppend(a + before, last, p);
    }
  }

  lemma {:induction false} FilterKeepsAll(events: seq<DiagnosticEvent>, p: DiagnosticEvent -> bool)
    requires forall i :: 0 <= i < |events| ==> p(events[i])
    ensures Filter(events, p) == events
  {
    if events != [] {
      var before, last := events[..|events| - 1], events[|events| - 1];
      assert events == before + [last];
      FilterKeepsAll(before, p);
    }
  }

  lemma QualifyingIsBurst(events: seq<DiagnosticEvent>, threshold: int, window: real, i: nat)
    requires SortedByTime(events) && Qualifies(events, threshold, window, i)
    ensures |Filter(events, InWindow(events[i].timestamp, window))| >= threshold
  {
    var p, burst := InWindow(events[i].timestamp, window), events[i..i + threshold];
    FilterKeepsAll(burst, p);
    var front, rest := events[..i], events[i + threshold..];
    assert events == (front + burst) + rest;
    FilterConcat(front + burst, rest, p);
    FilterConcat(front, burst, p);
  }

  lemma BurstQualifies(events: seq<DiagnosticEvent>, threshold: int, window: real, t: real) returns (i: nat)
    requires SortedByTime(events) && threshold >= 1 && |Filter(events, InWindow(t, window))| >= threshold
    ensures Qualifies(events, threshold, window, i)
  {
    var burst := Filter(events, InWindow(t, window));
    var at := FilterPositions(events, InWindow(t, window));
    FilterMembers(events, InWindow(t, window));
    assert burst[0] in burst && burst[threshold - 1] in burst;
    IndicesSpread(at, 0, threshold - 1);
    i := at[0];
    assert events[i + threshold - 1].timestamp <= events[at[threshold - 1]].timestamp;
  }

  lemma ClusteredIffBurst(events: seq<DiagnosticEvent>, threshold: int, window: real)
    requires SortedByTime(events) && threshold >= 1 && window >= 0.0
    ensures Clusters(events, threshold, window) != [] <==>
            exists t: real :: |Filter(events, InWindow(t, window))| >= threshold
  {
    var spans := SpansFrom(events, threshold, window, 0);
    ScanFindsAll(events, threshold, window, 0);
    if spans != [] {
      RunStartQualifies(events, threshold, window, spans[0]);
      QualifyingIsBurst(events, threshold, window, spans[0].from);
    }
    if t: real :| |Filter(events, InWindow(t, window))| >= threshold {
      var i := BurstQualifies(events, threshold, window, t);
      var _ := QualifyingIsClustered(events, threshold, window, 0, spans, i);
    }
  }

  /** Filtering, grouping and sorting first changes no count. */
  lemma BurstIsCounted(rule: Rule, events: seq<DiagnosticEvent>, ecu: ECU, t: real, window: real)
    ensures |Filter(Filter(Group(events, ecu), Matching(rule)), InWindow(t, window))| ==
            |Filter(events, InBurst(rule, ecu, t, window))|
  {
    var group, matching := Group(events, ecu), Filter(Group(events, ecu), Matching(rule));
    SortSorts(OfEcu(events, ecu));
    forall x
      ensures multiset(Filter(matching, InWindow(t, window)))[x] ==
              multiset(Filter(events, InBurst(rule, ecu, t, window)))[x] {
      FilterCounts(matching, InWindow(t, window), x);
      FilterCounts(group, Matching(rule), x);
      FilterCounts(events, IsFrom(ecu), x);
      FilterCounts(events, InBurst(rule, ecu, t, window), x);
    }
    SameMultisetSameLength(Filter(matching, InWindow(t, window)), Filter(events, InBurst(rule, ecu, t, window)));
  }

  /** A rule reports something about an ECU exactly when, somewhere in time, a
      window holds at least `threshold` of the events it looks at. */
  lemma ReportedIffBurst(rule: Rule, events: seq<DiagnosticEvent>, ecu: ECU, threshold: int, window: real)
    requires threshold >= 1 && window >= 0.0
    ensures OnlyFrom(Findings(rule, events, threshold, window), ecu) != [] <==>
            exists t: real :: |Filter(events, InBurst(rule, ecu, t, window))| >= threshold
  {
    var matching := Filter(Group(events, ecu), Matching(rule));
    FindingsFrom(rule, events, ecu, threshold, window);
    SortSorts(OfEcu(events, ecu));
    FilterKeepsSorted(Group(events, ecu), Matching(rule));
    ClusteredIffBurst(matching, threshold, window);
    forall t: real ensures |Filter(matching, InWindow(t, window))| == |Filter(events, InBurst(rule, ecu, t, window))| {
      BurstIsCounted(rule, events, ecu, t, window);
    }
  }

  // --- each rule in its own terms ---

  /** The positions of the events with a property. */
  ghost function Positions(events: seq<DiagnosticEvent>, p: DiagnosticEvent -> bool): set<nat> {
    set i: nat | i < |events| && p(events[i])
  }

  lemma {:induction false} FilterCountsPositions(events: seq<DiagnosticEvent>, p: DiagnosticEvent -> bool)
    ensures |Filter(events, p)| == |Positions(events, p)|
  {
    if events != [] {
      var before, last := events[..|events| - 1], |events| - 1;
      FilterCountsPositions(before, p);
      assert Positions(events, p) == Positions(before, p) + (if p(events[last]) then {last} else {});
    }
  }

  /** The text has the part somewhere. */
  ghost predicate Occurs(part: string, text: string) {
    exists before: string, after: string :: text == before + part + after
  }

  lemma ContainsIffOccurs(text: string, part: string)
    ensures Contains(text, part) <==> Occurs(part, text)
  {
    if i: nat :| i <= |text| && IsAt(text, part, i) {
      assert text == text[..i] + part + text[i + |part|..];
    }
    if before: string, after: string :| text == before + part + after {
      assert IsAt(text, part, |before|);
    }
  }

  /** Where the ECU answered negatively, within the window that starts at t. */
  ghost function NegativeResponses(events: seq<DiagnosticEvent>, ecu: ECU, t: real, window: real): set<nat> {
    set i: nat | i < |events| && events[i].ecu == ecu && !events[i].isPositive && t <= events[i].timestamp <= t + window
  }

  /** Where its trouble codes were queried. */
  ghost function DtcQueries(events: seq<DiagnosticEvent>, ecu: ECU, t: real, window: real): set<nat> {
    set i: nat | i < |events| && events[i].ecu == ecu && events[i].serviceName == "ReadDTCInformation" &&
                 t <= events[i].timestamp <= t + window
  }

  /** Where it answered such a query positively and named P0217. */
  ghost function P0217Responses(events: seq<DiagnosticEvent>, ecu: ECU, t: real, window: real): set<nat> {
    set i: nat | i in DtcQueries(events, ecu, t, window) && i < |events| && events[i].isPositive &&
                 Occurs("P0217", events[i].responseSummary)
  }

  lemma PositionsOfBurst(rule: Rule, events: seq<DiagnosticEvent>, ecu: ECU, t: real, window: real, found: set<nat>)
    requires found == set i: nat | i < |events| && events[i].ecu == ecu && Matches(rule, events[i]) &&
                                   t <= events[i].timestamp <= t + window
    ensures |Filter(events, InBurst(rule, ecu, t, window))| == |found|
  {
    FilterCountsPositions(events, InBurst(rule, ecu, t, window));
    assert Positions(events, InBurst(rule, ecu, t, window)) == found;
  }

  lemma BurstsInTheirTerms(events: seq<DiagnosticEvent>, ecu: ECU, t: real, window: real)
    ensures |Filter(events, InBurst(RepeatedNegativeResponses, ecu, t, window))| ==
            |NegativeResponses(events, ecu, t, window)|
    ensures |Filter(events, InBurst(RepeatedDtcQueries, ecu, t, window))| == |DtcQueries(events, ecu, t, window)|
    ensures |Filter(events, InBurst(RepeatedP0217Activity, ecu, t, window))| ==
            |P0217Responses(events, ecu, t, window)|
  {
    forall e: DiagnosticEvent
      ensures Contains(e.responseSummary, "P0217") <==> Occurs("P0217", e.responseSummary) {
      ContainsIffOccurs(e.responseSummary, "P0217");
    }
    PositionsOfBurst(RepeatedNegativeResponses, events, ecu, t, window, NegativeResponses(events, ecu, t, window));
    PositionsOfBurst(RepeatedDtcQueries, events, ecu, t, window, DtcQueries(events, ecu, t, window));
    PositionsOfBurst(RepeatedP0217Activity, events, ecu, t, window, P0217Responses(events, ecu, t, window));
  }

  /** Some window holds enough positions. */
  ghost predicate NegativeBurst(events: seq<DiagnosticEvent>, ecu: ECU, threshold: int, window: real) {
    exists t: real :: |NegativeResponses(events, ecu, t, window)| >= threshold
  }

  ghost predicate DtcBurst(events: seq<DiagnosticEvent>, ecu: ECU, threshold: int, window: real) {
    exists t: real :: |DtcQueries(events, ecu, t, window)| >= threshold
  }

  ghost predicate P0217Burst(events: seq<DiagnosticEvent>, ecu: ECU, threshold: int, window: real) {
    exists t: real :: |P0217Responses(events, ecu, t, window)| >= threshold
  }

  /** Each rule reports on an ECU exactly if some window holds at least the
      threshold of input positions at which that ECU answered negatively, was
      asked for its trouble codes, or answered such a query positively with
      P0217 in the summary. */
  lemma RulesReportTheirBursts(events: seq<DiagnosticEvent>, ecu: ECU, threshold: int, window: real)
    requires threshold >= 1 && window >= 0.0
    ensures OnlyFrom(Findings(RepeatedNegativeResponses, events, threshold, window), ecu) != [] <==>
            NegativeBurst(events, ecu, threshold, window)
    ensures OnlyFrom(Findings(RepeatedDtcQueries, events, threshold, window), ecu) != [] <==>
            DtcBurst(events, ecu, threshold, window)
    ensures OnlyFrom(Findings(RepeatedP0217Activity, events, threshold, window), ecu) != [] <==>
            P0217Burst(events, ecu, threshold, window)
  {
    ReportedIffBurst(RepeatedNegativeResponses, events, ecu, threshold, window);
    ReportedIffBurst(RepeatedDtcQueries, events, ecu, threshold, window);
    ReportedIffBurst(RepeatedP0217Activity, events, ecu, threshold, window);
    forall t: real
      ensures |Filter(events, InBurst(RepeatedNegativeResponses, ecu, t, window))| ==
              |NegativeResponses(events, ecu, t, window)|
      ensures |Filter(events, InBurst(RepeatedDtcQueries, ecu, t, window))| == |DtcQueries(events, ecu, t, window)|
      ensures |Filter(events, InBurst(RepeatedP0217Activity, ecu, t, window))| ==
              |P0217Responses(events, ecu, t, window)| {
      BurstsInTheirTerms(events, ecu, t, window);
    }
  }

  // --- which rule, and in which order ---

  ghost predicate OfRule(reports: seq<Report>, rule: Rule) {
    forall k :: 0 <= k < |reports| ==> reports[k].rule == rule
  }

  lemma {:induction false} FindingsNameTheirRule(rule: Rule, events: seq<DiagnosticEvent>, ecus: seq<ECU>,
                                                 threshold: int,
                                                 window: real)
    requires threshold >= 1
    ensures OfRule(ReportsOver(rule, events, ecus, threshold, window), rule)
    decreases |ecus|
  {
    if ecus != [] {
      FindingsNameTheirRule(rule, events, ecus[..|ecus| - 1], threshold, window);
    }
  }

  lemma {:induction false} OnlyFromMembers(reports: seq<Report>, ecu: ECU)
    ensures forall r :: r in OnlyFrom(reports, ecu) <==> r in reports && r.ecu == ecu
  {
    if reports != [] {
      OnlyFromMembers(reports[..|reports| - 1], ecu);
      assert reports == reports[..|reports| - 1] + [reports[|reports| - 1]];
    }
  }

  /** An event of `first`, at p, comes before all events of `second`. */
  ghost predicate ComesFirstAt(events: seq<DiagnosticEvent>, p: nat, first: ECU, second: ECU) {
    p < |events| && events[p].ecu == first && forall q :: 0 <= q <= p ==> events[q].ecu != second
  }

  ghost predicate ComesFirst(events: seq<DiagnosticEvent>, first: ECU, second: ECU) {
    exists p: nat :: ComesFirstAt(events, p, first, second)
  }

  lemma NamedIffSeen(events: seq<DiagnosticEvent>, ecu: ECU)
    ensures ecu in EcusOf(events) <==> exists p: nat :: p < |events| && events[p].ecu == ecu
  {
    EcusAreDistinct(events);
    FilterMembers(events, IsFrom(ecu));
    if ecu in EcusOf(events) {
      assert OfEcu(events, ecu)[0] in OfEcu(events, ecu);
    }
    if p: nat :| p < |events| && events[p].ecu == ecu {
      assert events[p] in OfEcu(events, ecu);
    }
  }

  lemma StillComesFirst(before: seq<DiagnosticEvent>, last: DiagnosticEvent, first: ECU, second: ECU)
    requires ComesFirst(before, first, second) || (first in EcusOf(before) && second !in EcusOf(before))
    ensures ComesFirst(before + [last], first, second)
  {
    NamedIffSeen(before, first);
    NamedIffSeen(before, second);
    if ComesFirst(before, first, second) {
      var p: nat :| ComesFirstAt(before, p, first, second);
      assert ComesFirstAt(before + [last], p, first, second);
    } else {
      var p: nat :| p < |before| && before[p].ecu == first;
      assert forall q :: 0 <= q < |before| ==> before[q].ecu != second;
      assert ComesFirstAt(before + [last], p, first, second);
    }
  }

  ghost predicate InFirstOrder(ecus: seq<ECU>, events: seq<DiagnosticEvent>) {
    forall i, j :: 0 <= i < j < |ecus| ==> ComesFirst(events, ecus[i], ecus[j])
  }

  /** A dict keeps its keys in the order of their first insertion. */
  lemma {:induction false} EcusComeInOrder(events: seq<DiagnosticEvent>)
    ensures InFirstOrder(EcusOf(events), events)
  {
    if events != [] {
      var before, last := events[..|events| - 1], events[|events| - 1];
      var ecus, earlier := EcusOf(events), EcusOf(before);
      EcusComeInOrder(before);
      assert events == before + [last];
      forall i, j | 0 <= i < j < |ecus| ensures ComesFirst(events, ecus[i], ecus[j]) {
        StillComesFirst(before, last, ecus[i], ecus[j]);
      }
    }
  }

  /** The reports of an ECU come before those of any ECU seen later. */
  ghost predicate FollowEcus(reports: seq<Report>, events: seq<DiagnosticEvent>) {
    forall i, j :: 0 <= i < j < |reports| ==>
      reports[i].ecu == reports[j].ecu || ComesFirst(events, reports[i].ecu, reports[j].ecu)
  }

  lemma MoreFollowEcus(reports: seq<Report>, more: seq<Report>, last: ECU, events: seq<DiagnosticEvent>)
    requires FollowEcus(reports, events) && ReportsOf(more, last)
    requires forall r :: r in reports ==> ComesFirst(events, r.ecu, last)
    ensures FollowEcus(reports + more, events)
  {
    var all := reports + more;
    forall i, j | 0 <= i < j < |all|
      ensures all[i].ecu == all[j].ecu || ComesFirst(events, all[i].ecu, all[j].ecu) {
      if i < |reports| {
        assert all[i] in reports;
      }
    }
  }

  lemma {:induction false} ReportsOverFollow(rule: Rule, events: seq<DiagnosticEvent>, ecus: seq<ECU>, threshold: int,
                                             window: real)
    requires threshold >= 1 && InFirstOrder(ecus, events)
    ensures var reports := ReportsOver(rule, events, ecus, threshold, window);
            FollowEcus(reports, events) && forall r :: r in reports ==> r.ecu in ecus
    decreases |ecus|
  {
    if ecus != [] {
      var before, last := ecus[..|ecus| - 1], ecus[|ecus| - 1];
      ReportsOverFollow(rule, events, before, threshold, window);
      GroupReportsAreOfEcu(rule, events, last, threshold, window);
      var reports := ReportsOver(rule, events, before, threshold, window);
      forall r | r in reports ensures ComesFirst(events, r.ecu, last) {
        var i :| 0 <= i < |before| && before[i] == r.ecu;
        assert ComesFirst(events, ecus[i], ecus[|ecus| - 1]);
      }
      MoreFollowEcus(reports, GroupReports(rule, Group(events, last), threshold, window), last, events);
      assert ecus == before + [last];
    }
  }

  /** A rule's reports come in the order in which the ECUs were first seen. */
  lemma FindingsFollowEcus(rule: Rule, events: seq<DiagnosticEvent>, threshold: int, window: real)
    requires threshold >= 1
    ensures FollowEcus(Findings(rule, events, threshold, window), events)
    ensures OfRule(Findings(rule, events, threshold, window), rule)
  {
    EcusComeInOrder(events);
    ReportsOverFollow(rule, events, EcusOf(events), threshold, window);
    FindingsNameTheirRule(rule, events, EcusOf(events), threshold, window);
  }
}
