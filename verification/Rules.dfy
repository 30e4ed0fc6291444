/** The three anomaly rules: group by ECU, sort by time, keep the events a rule
    looks at, cluster them, and build one report per cluster. */
module Rules {
  import opened Telemetry
  import opened Clustering

  // --- filtering ---

  function Filter(events: seq<DiagnosticEvent>, p: DiagnosticEvent -> bool): seq<DiagnosticEvent> {
    if events == [] then [] else
    var last := events[|events| - 1];
    Filter(events[..|events| - 1], p) + (if p(last) then [last] else [])
  }

  lemma FilterAppend(events: seq<DiagnosticEvent>, e: DiagnosticEvent, p: DiagnosticEvent -> bool)
    ensures Filter(events + [e], p) == Filter(events, p) + (if p(e) then [e] else [])
  {
    assert (events + [e])[..|events|] == events;
  }

  lemma {:induction false} FilterCounts(events: seq<DiagnosticEvent>, p: DiagnosticEvent -> bool, x: DiagnosticEvent)
    ensures multiset(Filter(events, p))[x] == if p(x) then multiset(events)[x] else 0
  {
    if events != [] {
      var before, last := events[..|events| - 1], events[|events| - 1];
      FilterCounts(before, p, x);
      assert events == before + [last];
    }
  }

  lemma FilterMembers(events: seq<DiagnosticEvent>, p: DiagnosticEvent -> bool)
    ensures forall x :: x in Filter(events, p) <==> x in events && p(x)
  {
    forall x ensures x in Filter(events, p) <==> x in events && p(x) {
      FilterCounts(events, p, x);
      assert x in Filter(events, p) <==> x in multiset(Filter(events, p));
      assert x in events <==> x in multiset(events);
    }
  }

  /** Filtering keeps the order: the positions of what is kept increase. */
  lemma {:induction false} FilterPositions(events: seq<DiagnosticEvent>, p: DiagnosticEvent -> bool)
    returns (at: seq<nat>)
    ensures |at| == |Filter(events, p)|
    ensures forall i :: 0 <= i < |at| ==> at[i] < |events| && events[at[i]] == Filter(events, p)[i]
    ensures forall i, j :: 0 <= i < j < |at| ==> at[i] < at[j]
  {
    at := [];
    if events != [] {
      var last: nat := |events| - 1;
      var before := FilterPositions(events[..last], p);
      at := if p(events[last]) then before + [last] else before;
      forall i | 0 <= i < |at| ensures at[i] < |events| && events[at[i]] == Filter(events, p)[i] {
        if i < |before| {
          assert events[..last][before[i]] == Filter(events[..last], p)[i];
        }
      }
    }
  }

  lemma FilterKeepsSorted(events: seq<DiagnosticEvent>, p: DiagnosticEvent -> bool)
    requires SortedByTime(events)
    ensures SortedByTime(Filter(events, p))
  {
    var at := FilterPositions(events, p);
    forall i, j | 0 <= i < j < |at| ensures Filter(events, p)[i].timestamp <= Filter(events, p)[j].timestamp {
      assert at[i] < at[j];
    }
  }

  lemma {:induction false} FilterAgain(events: seq<DiagnosticEvent>, p: DiagnosticEvent -> bool,
                                       q: DiagnosticEvent -> bool)
    requires forall x :: q(x) ==> p(x)
    ensures Filter(Filter(events, p), q) == Filter(events, q)
  {
    if events != [] {
      var before, last := events[..|events| - 1], events[|events| - 1];
      FilterAgain(before, p, q);
      if p(last) {
        FilterAppend(Filter(before, p), last, q);
      } else {
        assert Filter(events, p) == Filter(before, p) + [] == Filter(before, p);
        assert Filter(events, q) == Filter(before, q) + [] == Filter(before, q);
      }
    }
  }

  // --- list.sort(key=timestamp): stable ---

  function Insert(sorted: seq<DiagnosticEvent>, e: DiagnosticEvent): seq<DiagnosticEvent> {
    if sorted == [] || sorted[|sorted| - 1].timestamp <= e.timestamp then sorted + [e]
    else Insert(sorted[..|sorted| - 1], e) + [sorted[|sorted| - 1]]
  }

  function SortByTime(events: seq<DiagnosticEvent>): seq<DiagnosticEvent> {
    if events == [] then [] else Insert(SortByTime(events[..|events| - 1]), events[|events| - 1])
  }

  lemma {:induction false} InsertMembers(sorted: seq<DiagnosticEvent>, e: DiagnosticEvent)
    ensures multiset(Insert(sorted, e)) == multiset(sorted) + multiset{e}
  {
    if sorted != [] && sorted[|sorted| - 1].timestamp > e.timestamp {
      var before, last := sorted[..|sorted| - 1], sorted[|sorted| - 1];
      InsertMembers(before, e);
      assert sorted == before + [last];
    }
  }

  ghost predicate AllUpTo(events: seq<DiagnosticEvent>, t: real) {
    forall i :: 0 <= i < |events| ==> events[i].timestamp <= t
  }

  lemma {:induction false} InsertUpTo(sorted: seq<DiagnosticEvent>, e: DiagnosticEvent, t: real)
    requires AllUpTo(sorted, t) && e.timestamp <= t
    ensures AllUpTo(Insert(sorted, e), t)
  {
    if sorted != [] && sorted[|sorted| - 1].timestamp > e.timestamp {
      InsertUpTo(sorted[..|sorted| - 1], e, t);
    }
  }

  lemma SortedAppend(events: seq<DiagnosticEvent>, last: DiagnosticEvent)
    requires SortedByTime(events) && AllUpTo(events, last.timestamp)
    ensures SortedByTime(events + [last])
  {
  }

  lemma SortedLast(events: seq<DiagnosticEvent>)
    requires SortedByTime(events) && events != []
    ensures AllUpTo(events, events[|events| - 1].timestamp)
    ensures SortedByTime(events[..|events| - 1]) && AllUpTo(events[..|events| - 1], events[|events| - 1].timestamp)
  {
  }

  lemma {:induction false} InsertSorts(sorted: seq<DiagnosticEvent>, e: DiagnosticEvent)
    requires SortedByTime(sorted)
    ensures SortedByTime(Insert(sorted, e))
  {
    if sorted == [] {
      SortedAppend(sorted, e);
    } else {
      var before, last := sorted[..|sorted| - 1], sorted[|sorted| - 1];
      SortedLast(sorted);
      if last.timestamp <= e.timestamp {
        SortedAppend(sorted, e);
      } else {
        InsertSorts(before, e);
        InsertUpTo(before, e, last.timestamp);
        SortedAppend(Insert(before, e), last);
      }
    }
  }

  /** The sort yields the same events in time order. */
  lemma {:induction false} SortSorts(events: seq<DiagnosticEvent>)
    ensures SortedByTime(SortByTime(events)) && multiset(SortByTime(events)) == multiset(events)
  {
    if events != [] {
      var before, last := events[..|events| - 1], events[|events| - 1];
      SortSorts(before);
      var sorted := SortByTime(before);
      InsertSorts(sorted, last);
      InsertMembers(sorted, last);
      assert SortByTime(events) == Insert(sorted, last);
      assert events == before + [last];
    }
  }

  function AtTime(t: real): DiagnosticEvent -> bool {
    (e: DiagnosticEvent) => e.timestamp == t
  }

  lemma {:induction false} InsertIsStable(sorted: seq<DiagnosticEvent>, e: DiagnosticEvent, t: real)
    requires SortedByTime(sorted)
    ensures Filter(Insert(sorted, e), AtTime(t)) == Filter(sorted, AtTime(t)) + (if e.timestamp == t then [e] else [])
  {
    if sorted == [] || sorted[|sorted| - 1].timestamp <= e.timestamp {
      FilterAppend(sorted, e, AtTime(t));
    } else {
      var before, last := sorted[..|sorted| - 1], sorted[|sorted| - 1];
      InsertIsStable(before, e, t);
      assert sorted == before + [last];
      StableBefore(before, e, last, t);
    }
  }

  /** A later event is not at the time of the inserted one. */
  lemma StableBefore(before: seq<DiagnosticEvent>, e: DiagnosticEvent, last: DiagnosticEvent, t: real)
    requires last.timestamp > e.timestamp && SortedByTime(before + [last])
    requires Filter(Insert(before, e), AtTime(t)) == Filter(before, AtTime(t)) + (if e.timestamp == t then [e] else [])
    ensures Filter(Insert(before, e) + [last], AtTime(t)) ==
            Filter(before + [last], AtTime(t)) + (if e.timestamp == t then [e] else [])
  {
    FilterAppend(Insert(before, e), last, AtTime(t));
    FilterAppend(before, last, AtTime(t));
  }

  /** Events with equal timestamps keep their input order. */
  lemma {:induction false} SortIsStable(events: seq<DiagnosticEvent>, t: real)
    ensures Filter(SortByTime(events), AtTime(t)) == Filter(events, AtTime(t))
  {
    if events != [] {
      var before := events[..|events| - 1];
      SortIsStable(before, t);
      SortSorts(before);
      InsertIsStable(SortByTime(before), events[|events| - 1], t);
    }
  }

  // --- _group_by_ecu ---

  function IsFrom(ecu: ECU): DiagnosticEvent -> bool {
    (e: DiagnosticEvent) => e.ecu == ecu
  }

  function OfEcu(events: seq<DiagnosticEvent>, ecu: ECU): seq<DiagnosticEvent> {
    Filter(events, IsFrom(ecu))
  }

  /** The ECUs in the order of their first event. */
  function EcusOf(events: seq<DiagnosticEvent>): seq<ECU> {
    if events == [] then [] else
    var before, ecu := EcusOf(events[..|events| - 1]), events[|events| - 1].ecu;
    if ecu in before then before else before + [ecu]
  }

  function Group(events: seq<DiagnosticEvent>, ecu: ECU): seq<DiagnosticEvent> {
    SortByTime(OfEcu(events, ecu))
  }

  lemma {:induction false} EcusAreDistinct(events: seq<DiagnosticEvent>)
    ensures forall i, j :: 0 <= i < j < |EcusOf(events)| ==> EcusOf(events)[i] != EcusOf(events)[j]
    ensures forall ecu :: ecu in EcusOf(events) <==> OfEcu(events, ecu) != []
  {
    if events != [] {
      var before, last := events[..|events| - 1], events[|events| - 1];
      EcusAreDistinct(before);
      assert events == before + [last];
      forall ecu ensures OfEcu(events, ecu) == OfEcu(before, ecu) + (if last.ecu == ecu then [last] else []) {
        FilterAppend(before, last, IsFrom(ecu));
      }
    }
  }

  lemma OfEcuAppend(events: seq<DiagnosticEvent>, e: DiagnosticEvent)
    ensures forall ecu :: OfEcu(events + [e], ecu) ==
                          if e.ecu == ecu then OfEcu(events, ecu) + [e] else OfEcu(events, ecu)
    ensures EcusOf(events + [e]) == if e.ecu in EcusOf(events) then EcusOf(events) else EcusOf(events) + [e.ecu]
  {
    assert (events + [e])[..|events|] == events;
    forall ecu
      ensures OfEcu(events + [e], ecu) == if e.ecu == ecu then OfEcu(events, ecu) + [e] else OfEcu(events, ecu) {
      FilterAppend(events, e, IsFrom(ecu));
    }
  }

  /** The dict as filled so far, and as sorted at the end. */
  ghost predicate Grouped(events: seq<DiagnosticEvent>, order: seq<ECU>, grouped: map<ECU, seq<DiagnosticEvent>>) {
    && order == EcusOf(events)
    && (forall ecu :: ecu in grouped <==> ecu in order)
    && (forall ecu :: ecu in grouped ==> grouped[ecu] == OfEcu(events, ecu))
  }

  lemma GroupedMore(events: seq<DiagnosticEvent>, e: DiagnosticEvent, order: seq<ECU>,
                    grouped: map<ECU, seq<DiagnosticEvent>>)
    requires Grouped(events, order, grouped)
    ensures Grouped(events + [e], if e.ecu in grouped then order else order + [e.ecu],
                    grouped[e.ecu := (if e.ecu in grouped then grouped[e.ecu] else []) + [e]])
  {
    var soFar := if e.ecu in grouped then grouped[e.ecu] else [];
    OfEcuAppend(events, e);
    if e.ecu !in grouped {
      NoGroupYet(events, e.ecu);
    }
    assert soFar == OfEcu(events, e.ecu);
  }

  lemma NoGroupYet(events: seq<DiagnosticEvent>, ecu: ECU)
    requires ecu !in EcusOf(events)
    ensures OfEcu(events, ecu) == []
  {
    EcusAreDistinct(events);
  }

  method FillGroups(events: seq<DiagnosticEvent>) returns (order: seq<ECU>, grouped: map<ECU, seq<DiagnosticEvent>>)
    ensures Grouped(events, order, grouped)
  {
    order, grouped := [], map[];
    for i := 0 to |events|
      invariant Grouped(events[..i], order, grouped)
    {
      var event := events[i];
      assert events[..i + 1] == events[..i] + [event];
      GroupedMore(events[..i], event, order, grouped);
      if event.ecu !in grouped {
        order := order + [event.ecu];
        grouped := grouped[event.ecu := []];
      }
      grouped := grouped[event.ecu := grouped[event.ecu] + [event]];
    }
    assert events[..|events|] == events;
  }

  /** The first i lists are sorted, the others as they were filled. */
  ghost predicate HalfSorted(order: seq<ECU>, filled: map<ECU, seq<DiagnosticEvent>>,
                             grouped: map<ECU, seq<DiagnosticEvent>>, i: nat)
    requires forall k :: 0 <= k < |order| ==> order[k] in filled
  {
    && grouped.Keys == filled.Keys
    && (forall k :: 0 <= k < i && k < |order| ==> grouped[order[k]] == SortByTime(filled[order[k]]))
    && (forall k :: i <= k < |order| ==> grouped[order[k]] == filled[order[k]])
  }

  lemma SortOneMore(order: seq<ECU>, filled: map<ECU, seq<DiagnosticEvent>>, grouped: map<ECU, seq<DiagnosticEvent>>,
                    i: nat, sorted: seq<DiagnosticEvent>)
    requires Distinct(order) && forall k :: 0 <= k < |order| ==> order[k] in filled
    requires HalfSorted(order, filled, grouped, i) && i < |order| && sorted == SortByTime(filled[order[i]])
    ensures HalfSorted(order, filled, grouped[order[i] := sorted], i + 1)
  {
    var after := grouped[order[i] := sorted];
    forall k | 0 <= k < |order| ensures k != i ==> after[order[k]] == grouped[order[k]] {
    }
  }

  /** `for ecu_events in grouped.values(): ecu_events.sort(...)`. */
  method SortGroups(order: seq<ECU>, filled: map<ECU, seq<DiagnosticEvent>>)
    returns (grouped: map<ECU, seq<DiagnosticEvent>>)
    requires Distinct(order) && forall k :: 0 <= k < |order| ==> order[k] in filled
    ensures grouped.Keys == filled.Keys
    ensures forall k :: 0 <= k < |order| ==> grouped[order[k]] == SortByTime(filled[order[k]])
  {
    grouped := filled;
    for i := 0 to |order|
      invariant HalfSorted(order, filled, grouped, i)
    {
      SortOneMore(order, filled, grouped, i, SortByTime(grouped[order[i]]));
      grouped := grouped[order[i] := SortByTime(grouped[order[i]])];
    }
  }

  /** A dict filled in one pass, then each list sorted in place. */
  method GroupByEcu(events: seq<DiagnosticEvent>) returns (order: seq<ECU>, grouped: map<ECU, seq<DiagnosticEvent>>)
    ensures order == EcusOf(events)
    ensures forall ecu :: ecu in grouped <==> ecu in order
    ensures forall k :: 0 <= k < |order| ==> order[k] in grouped && grouped[order[k]] == Group(events, order[k])
  {
    var filled;
    order, filled := FillGroups(events);
    EcusAreDistinct(events);
    grouped := SortGroups(order, filled);
  }

  // --- the rules ---

  datatype Rule = RepeatedNegativeResponses | RepeatedDtcQueries | RepeatedP0217Activity

  datatype Severity = Info | Warning

  const READ_DTC_SERVICE_NAME := "ReadDTCInformation"
  const P0217_LABEL := "P0217"

  predicate IsAt(text: string, part: string, i: nat) {
    i + |part| <= |text| && text[i..i + |part|] == part
  }

  predicate Contains(text: string, part: string) {
    exists i | 0 <= i <= |text| :: IsAt(text, part, i)
  }

  predicate Matches(rule: Rule, e: DiagnosticEvent) {
    match rule
    case RepeatedNegativeResponses => !e.isPositive
    case RepeatedDtcQueries => e.serviceName == READ_DTC_SERVICE_NAME
    case RepeatedP0217Activity =>
      e.serviceName == READ_DTC_SERVICE_NAME && e.isPositive && Contains(e.responseSummary, P0217_LABEL)
  }

  function Matching(rule: Rule): DiagnosticEvent -> bool {
    (e: DiagnosticEvent) => Matches(rule, e)
  }

  datatype Report = Report(rule: Rule, severity: Severity, eventIds: seq<string>, vehicleId: string, ecu: ECU,
                           detectedAt: real)

  /** A report names the cluster's events, its first event's vehicle and ECU,
      and the time of its last event. */
  function BuildReport(rule: Rule, cluster: seq<DiagnosticEvent>): Report
    requires cluster != []
  {
    Report(rule, if rule == RepeatedDtcQueries then Info else Warning,
           seq(|cluster|, i requires 0 <= i < |cluster| => cluster[i].eventId),
           cluster[0].vehicleId, cluster[0].ecu, cluster[|cluster| - 1].timestamp)
  }

  function BuildReports(rule: Rule, clusters: seq<seq<DiagnosticEvent>>): (r: seq<Report>)
    requires forall k :: 0 <= k < |clusters| ==> clusters[k] != []
    ensures |r| == |clusters| && forall k :: 0 <= k < |clusters| ==> r[k] == BuildReport(rule, clusters[k])
  {
    seq(|clusters|, k requires 0 <= k < |clusters| => BuildReport(rule, clusters[k]))
  }

  /** The clusters one rule sees in the events of one ECU. */
  function RuleClusters(rule: Rule, group: seq<DiagnosticEvent>, threshold: int,
                        window: real): seq<seq<DiagnosticEvent>> {
    Clusters(Filter(group, Matching(rule)), threshold, window)
  }

  function GroupReports(rule: Rule, group: seq<DiagnosticEvent>, threshold: int, window: real): seq<Report>
    requires threshold >= 1
  {
    ClustersAreNonEmptyIffThreshold(Filter(group, Matching(rule)), threshold, window);
    BuildReports(rule, RuleClusters(rule, group, threshold, window))
  }

  function ReportsOver(rule: Rule, events: seq<DiagnosticEvent>, ecus: seq<ECU>, threshold: int,
                       window: real): seq<Report>
    requires threshold >= 1
  {
    if ecus == [] then []
    else ReportsOver(rule, events, ecus[..|ecus| - 1], threshold, window)
         + GroupReports(rule, Group(events, ecus[|ecus| - 1]), threshold, window)
  }

  function Findings(rule: Rule, events: seq<DiagnosticEvent>, threshold: int, window: real): seq<Report>
    requires threshold >= 1
  {
    ReportsOver(rule, events, EcusOf(events), threshold, window)
  }

  /** Reading the first event of an empty cluster is an IndexError. */
  datatype RuleError = IndexError

  /** One report per cluster, in order. */
  method ReportClusters(rule: Rule, clusters: seq<seq<DiagnosticEvent>>) returns (r: Result<seq<Report>, RuleError>)
    ensures r.Ok? <==> forall k :: 0 <= k < |clusters| ==> clusters[k] != []
    ensures r.Ok? ==> r.value == BuildReports(rule, clusters)
  {
    var reports := [];
    for k := 0 to |clusters|
      invariant forall j :: 0 <= j < k ==> clusters[j] != []
      invariant reports == BuildReports(rule, clusters[..k])
    {
      if clusters[k] == [] {
        return Err(IndexError);
      }
      assert BuildReports(rule, clusters[..k + 1]) ==
             BuildReports(rule, clusters[..k]) + [BuildReport(rule, clusters[k])];
      reports := reports + [BuildReport(rule, clusters[k])];
    }
    assert clusters[..|clusters|] == clusters;
    return Ok(reports);
  }

  lemma SomeEcuIsNamed(events: seq<DiagnosticEvent>)
    requires events != []
    ensures EcusOf(events) != []
  {
    EcusAreDistinct(events);
    FilterMembers(events, IsFrom(events[0].ecu));
    assert events[0] in OfEcu(events, events[0].ecu);
  }

  /** The body of a rule's loop over the groups. */
  method DetectInGroup(rule: Rule, group: seq<DiagnosticEvent>, threshold: int, window: real)
    returns (r: Result<seq<Report>, RuleError>)
    ensures threshold >= 1 ==> r == Ok(GroupReports(rule, group, threshold, window))
    ensures threshold < 1 ==> r == Err(IndexError)
  {
    var clusters := ClusterByWindow(Filter(group, Matching(rule)), threshold, window);
    ClustersAreNonEmptyIffThreshold(Filter(group, Matching(rule)), threshold, window);
    r := ReportClusters(rule, clusters);
    if r.Err? {
      r := Err(IndexError);
    }
  }

  lemma ReportsOverSnoc(rule: Rule, events: seq<DiagnosticEvent>, ecus: seq<ECU>, ecu: ECU, threshold: int,
                        window: real)
    requires threshold >= 1
    ensures ReportsOver(rule, events, ecus + [ecu], threshold, window) ==
            ReportsOver(rule, events, ecus, threshold, window) +
              GroupReports(rule, Group(events, ecu), threshold, window)
  {
    assert (ecus + [ecu])[..|ecus|] == ecus;
  }

  /** The loop over the groups. */
  method DetectInGroups(rule: Rule, ghost events: seq<DiagnosticEvent>, order: seq<ECU>,
                        grouped: map<ECU, seq<DiagnosticEvent>>, threshold: int, window: real)
    returns (r: Result<seq<Report>, RuleError>)
    requires forall i :: 0 <= i < |order| ==> order[i] in grouped && grouped[order[i]] == Group(events, order[i])
    ensures threshold >= 1 ==> r == Ok(ReportsOver(rule, events, order, threshold, window))
    ensures threshold < 1 ==> r == if order == [] then Ok([]) else Err(IndexError)
  {
    var reports := [];
    for i := 0 to |order|
      invariant if threshold >= 1 then reports == ReportsOver(rule, events, order[..i], threshold, window)
                else i == 0 && reports == []
    {
      var found := DetectInGroup(rule, grouped[order[i]], threshold, window);
      if found.Err? {
        return Err(IndexError);
      }
      ReportsOverSnoc(rule, events, order[..i], order[i], threshold, window);
      assert order[..i + 1] == order[..i] + [order[i]];
      reports := reports + found.value;
    }
    assert order[..|order|] == order;
    return Ok(reports);
  }

  /** The `detect_*` functions. With a threshold below one any event at all
      leads to an empty cluster. */
  method Detect(rule: Rule, events: seq<DiagnosticEvent>, threshold: int, window: real)
    returns (r: Result<seq<Report>, RuleError>)
    ensures threshold >= 1 ==> r == Ok(Findings(rule, events, threshold, window))
    ensures threshold < 1 ==> r == if events == [] then Ok([]) else Err(IndexError)
  {
    var order, grouped := GroupByEcu(events);
    if events != [] {
      SomeEcuIsNamed(events);
    }
    r := DetectInGroups(rule, events, order, grouped, threshold, window);
  }
}
