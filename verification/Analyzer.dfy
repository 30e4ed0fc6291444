/** `DiagnosticAnalyzer.analyze`: the three rules in a fixed order. */
module Analyzer {
  import opened Telemetry
  import opened Clustering
  import opened Rules
  import opened RuleProperties

  datatype AnalyzerConfig = AnalyzerConfig(
    negativeThreshold: int, negativeWindow: real, dtcThreshold: int, dtcWindow: real, p0217Threshold: int,
      p0217Window: real)

  predicate Usable(c: AnalyzerConfig) {
    c.negativeThreshold >= 1 && c.dtcThreshold >= 1 && c.p0217Threshold >= 1
  }

  function AllFindings(events: seq<DiagnosticEvent>, c: AnalyzerConfig): seq<Report>
    requires Usable(c)
  {
    Findings(RepeatedNegativeResponses, events, c.negativeThreshold, c.negativeWindow) +
    Findings(RepeatedDtcQueries, events, c.dtcThreshold, c.dtcWindow) +
    Findings(RepeatedP0217Activity, events, c.p0217Threshold, c.p0217Window)
  }

  // --- what an analysis says ---

  /** The reports of one rule, in order. */
  function ByRule(reports: seq<Report>, rule: Rule): seq<Report> {
    if reports == [] then [] else
    var last := reports[|reports| - 1];
    ByRule(reports[..|reports| - 1], rule) + (if last.rule == rule then [last] else [])
  }

  /** The fixed order of the rules. */
  function Turn(rule: Rule): nat {
    match rule
    case RepeatedNegativeResponses => 0
    case RepeatedDtcQueries => 1
    case RepeatedP0217Activity => 2
  }

  ghost predicate Reported(reports: seq<Report>, rule: Rule, ecu: ECU) {
    exists r :: r in reports && r.rule == rule && r.ecu == ecu
  }

  /** Each rule reports on exactly the ECUs with a burst by its own threshold
      and window; its reports stand together, in the order of the rules. */
  ghost predicate TellsBursts(reports: seq<Report>, events: seq<DiagnosticEvent>, c: AnalyzerConfig) {
    && (forall ecu :: Reported(reports, RepeatedNegativeResponses, ecu) <==>
                      NegativeBurst(events, ecu, c.negativeThreshold, c.negativeWindow))
    && (forall ecu :: Reported(reports, RepeatedDtcQueries, ecu) <==>
                      DtcBurst(events, ecu, c.dtcThreshold, c.dtcWindow))
    && (forall ecu :: Reported(reports, RepeatedP0217Activity, ecu) <==>
                      P0217Burst(events, ecu, c.p0217Threshold, c.p0217Window))
  }

  ghost predicate InTurn(reports: seq<Report>) {
    forall i, j :: 0 <= i < j < |reports| ==> Turn(reports[i].rule) <= Turn(reports[j].rule)
  }

  lemma {:induction false} ByRuleConcat(a: seq<Report>, b: seq<Report>, rule: Rule)
    ensures ByRule(a + b, rule) == ByRule(a, rule) + ByRule(b, rule)
  {
    if b == [] {
      assert a + b == a;
    } else {
      assert (a + b)[..|a + b| - 1] == a + b[..|b| - 1];
      ByRuleConcat(a, b[..|b| - 1], rule);
    }
  }

  lemma {:induction false} ByRuleAllOrNone(reports: seq<Report>, from: Rule, rule: Rule)
    requires OfRule(reports, from)
    ensures ByRule(reports, rule) == if from == rule then reports else []
  {
    if reports != [] {
      var before := reports[..|reports| - 1];
      ByRuleAllOrNone(before, from, rule);
      assert reports == before + [reports[|reports| - 1]];
    }
  }

  lemma ByRuleOfConcat(negative: seq<Report>, dtc: seq<Report>, p0217: seq<Report>, rule: Rule)
    requires OfRule(negative, RepeatedNegativeResponses) && OfRule(dtc, RepeatedDtcQueries)
    requires OfRule(p0217, RepeatedP0217Activity)
    ensures ByRule(negative + dtc + p0217, rule) ==
            match rule
            case RepeatedNegativeResponses => negative
            case RepeatedDtcQueries => dtc
            case RepeatedP0217Activity => p0217
  {
    ByRuleConcat(negative + dtc, p0217, rule);
    ByRuleConcat(negative, dtc, rule);
    ByRuleAllOrNone(negative, RepeatedNegativeResponses, rule);
    ByRuleAllOrNone(dtc, RepeatedDtcQueries, rule);
    ByRuleAllOrNone(p0217, RepeatedP0217Activity, rule);
  }

  lemma ThreeInTurn(negative: seq<Report>, dtc: seq<Report>, p0217: seq<Report>)
    requires OfRule(negative, RepeatedNegativeResponses) && OfRule(dtc, RepeatedDtcQueries)
    requires OfRule(p0217, RepeatedP0217Activity)
    ensures InTurn(negative + dtc + p0217)
  {
  }

  /** Of three rules' reports in turn, those of one rule. */
  lemma ByRuleOfThree(negative: seq<Report>, dtc: seq<Report>, p0217: seq<Report>)
    requires OfRule(negative, RepeatedNegativeResponses) && OfRule(dtc, RepeatedDtcQueries)
    requires OfRule(p0217, RepeatedP0217Activity)
    ensures var all := negative + dtc + p0217;
            && ByRule(all, RepeatedNegativeResponses) == negative && ByRule(all, RepeatedDtcQueries) == dtc
            && ByRule(all, RepeatedP0217Activity) == p0217 && InTurn(all)
  {
    ByRuleOfConcat(negative, dtc, p0217, RepeatedNegativeResponses);
    ByRuleOfConcat(negative, dtc, p0217, RepeatedDtcQueries);
    ByRuleOfConcat(negative, dtc, p0217, RepeatedP0217Activity);
    ThreeInTurn(negative, dtc, p0217);
  }

  lemma {:induction false} ByRuleMembers(reports: seq<Report>, rule: Rule)
    ensures forall r :: r in ByRule(reports, rule) <==> r in reports && r.rule == rule
  {
    if reports != [] {
      ByRuleMembers(reports[..|reports| - 1], rule);
      assert reports == reports[..|reports| - 1] + [reports[|reports| - 1]];
    }
  }

  lemma ReportedIffOnlyFrom(reports: seq<Report>, rule: Rule, ecu: ECU)
    ensures Reported(reports, rule, ecu) <==> OnlyFrom(ByRule(reports, rule), ecu) != []
  {
    ByRuleMembers(reports, rule);
    OnlyFromMembers(ByRule(reports, rule), ecu);
    var found := OnlyFrom(ByRule(reports, rule), ecu);
    if found != [] {
      assert found[0] in found;
    }
  }

  /** The reports of each rule are its findings by its own fields of the
      configuration, and they come in the fixed order of the rules. */
  lemma AnalysisSplitsByRule(events: seq<DiagnosticEvent>, c: AnalyzerConfig)
    requires Usable(c)
    ensures var all := AllFindings(events, c);
            && ByRule(all, RepeatedNegativeResponses) ==
               Findings(RepeatedNegativeResponses, events, c.negativeThreshold, c.negativeWindow)
            && ByRule(all, RepeatedDtcQueries) == Findings(RepeatedDtcQueries, events, c.dtcThreshold, c.dtcWindow)
            && ByRule(all, RepeatedP0217Activity) ==
               Findings(RepeatedP0217Activity, events, c.p0217Threshold, c.p0217Window)
            && InTurn(all)
  {
    FindingsFollowEcus(RepeatedNegativeResponses, events, c.negativeThreshold, c.negativeWindow);
    FindingsFollowEcus(RepeatedDtcQueries, events, c.dtcThreshold, c.dtcWindow);
    FindingsFollowEcus(RepeatedP0217Activity, events, c.p0217Threshold, c.p0217Window);
    ByRuleOfThree(Findings(RepeatedNegativeResponses, events, c.negativeThreshold, c.negativeWindow),
                  Findings(RepeatedDtcQueries, events, c.dtcThreshold, c.dtcWindow),
                  Findings(RepeatedP0217Activity, events, c.p0217Threshold, c.p0217Window));
  }

  lemma AnalysisTellsBursts(events: seq<DiagnosticEvent>, c: AnalyzerConfig)
    requires Usable(c) && c.negativeWindow >= 0.0 && c.dtcWindow >= 0.0 && c.p0217Window >= 0.0
    ensures TellsBursts(AllFindings(events, c), events, c)
  {
    var all := AllFindings(events, c);
    AnalysisSplitsByRule(events, c);
    forall ecu
      ensures Reported(all, RepeatedNegativeResponses, ecu) <==>
              NegativeBurst(events, ecu, c.negativeThreshold, c.negativeWindow)
      ensures Reported(all, RepeatedDtcQueries, ecu) <==> DtcBurst(events, ecu, c.dtcThreshold, c.dtcWindow)
      ensures Reported(all, RepeatedP0217Activity, ecu) <==>
              P0217Burst(events, ecu, c.p0217Threshold, c.p0217Window) {
      ReportedIffOnlyFrom(all, RepeatedNegativeResponses, ecu);
      ReportedIffOnlyFrom(all, RepeatedDtcQueries, ecu);
      ReportedIffOnlyFrom(all, RepeatedP0217Activity, ecu);
      RulesReportTheirBursts(events, ecu, c.negativeThreshold, c.negativeWindow);
      RulesReportTheirBursts(events, ecu, c.dtcThreshold, c.dtcWindow);
      RulesReportTheirBursts(events, ecu, c.p0217Threshold, c.p0217Window);
    }
  }

  /** Nothing was looked at, nothing is reported. */
  lemma NothingToAnalyze(c: AnalyzerConfig)
    requires Usable(c)
    ensures AllFindings([], c) == []
  {
  }

  /** It fails exactly on non-empty input under a threshold below one. */
  method Analyze(events: seq<DiagnosticEvent>, c: AnalyzerConfig) returns (r: Result<seq<Report>, RuleError>)
    ensures r == Err(IndexError) <==> !Usable(c) && events != []
    ensures Usable(c) ==> r == Ok(AllFindings(events, c)) && InTurn(r.value)
    ensures Usable(c) && c.negativeWindow >= 0.0 && c.dtcWindow >= 0.0 && c.p0217Window >= 0.0 ==>
              TellsBursts(r.value, events, c)
    ensures events == [] ==> r == Ok([])
  {
    if Usable(c) {
      NothingToAnalyze(c);
      AnalysisSplitsByRule(events, c);
      if c.negativeWindow >= 0.0 && c.dtcWindow >= 0.0 && c.p0217Window >= 0.0 {
        AnalysisTellsBursts(events, c);
      }
    }
    if events == [] {
      return Ok([]);
    }
    var negative := Detect(RepeatedNegativeResponses, events, c.negativeThreshold, c.negativeWindow);
    if negative.Err? {
      return negative;
    }
    var dtc := Detect(RepeatedDtcQueries, events, c.dtcThreshold, c.dtcWindow);
    if dtc.Err? {
      return dtc;
    }
    var p0217 := Detect(RepeatedP0217Activity, events, c.p0217Threshold, c.p0217Window);
    if p0217.Err? {
      return p0217;
    }
    return Ok(negative.value + dtc.value + p0217.value);
  }

  /** One ECU's part of an analysis is the analysis of that ECU's events. */
  lemma AnalysisIsIsolated(events: seq<DiagnosticEvent>, ecu: ECU, c: AnalyzerConfig)
    requires Usable(c)
    ensures OnlyFrom(AllFindings(events, c), ecu) == AllFindings(OfEcu(events, ecu), c)
  {
    var negative := Findings(RepeatedNegativeResponses, events, c.negativeThreshold, c.negativeWindow);
    var dtc := Findings(RepeatedDtcQueries, events, c.dtcThreshold, c.dtcWindow);
    var p0217 := Findings(RepeatedP0217Activity, events, c.p0217Threshold, c.p0217Window);
    FindingsAreIsolated(RepeatedNegativeResponses, events, ecu, c.negativeThreshold, c.negativeWindow);
    FindingsAreIsolated(RepeatedDtcQueries, events, ecu, c.dtcThreshold, c.dtcWindow);
    FindingsAreIsolated(RepeatedP0217Activity, events, ecu, c.p0217Threshold, c.p0217Window);
    OnlyFromConcat(negative + dtc, p0217, ecu);
    OnlyFromConcat(negative, dtc, ecu);
  }
}
