/** The report over a whole evaluation run: means, the quality score, confidence bounds and the quality gates. */
module QualityReport {
  import opened Finite
  import opened Fractions
  import opened CaseMetrics
  import opened NdcgExactly

  function Total(s: seq<real>): real {
    if s == [] then 0.0 else Total(s[..|s| - 1]) + s[|s| - 1]
  }

  /** The mean, and 0 of nothing. */
  function Mean(s: seq<real>): real {
    if s == [] then 0.0 else Total(s) / |s| as real
  }

  ghost predicate AllUnit(s: seq<real>) {
    forall i :: 0 <= i < |s| ==> Unit(s[i])
  }

  lemma {:induction false} SumBounds(s: seq<real>)
    requires AllUnit(s)
    ensures 0.0 <= Total(s) <= |s| as real
  {
    if s != [] {
      SumBounds(s[..|s| - 1]);
    }
  }

  lemma {:induction false} MeanUnit(s: seq<real>)
    requires AllUnit(s)
    ensures Unit(Mean(s))
  {
    SumBounds(s);
    if s != [] {
      Ratio(Total(s), |s| as real);
    }
  }

  function Share(b: bool): real {
    if b then 1.0 else 0.0
  }

  // Repeated runs of one case.

  /** Overlap of two result lists: 1 for two empty lists. */
  function Jaccard(left: seq<string>, right: seq<string>): real {
    var union := Elements(left) + Elements(right);
    if union == {} then 1.0 else Fraction(|Elements(left) * Elements(right)|, |union|)
  }

  lemma {:induction false} JaccardUnit(left: seq<string>, right: seq<string>)
    ensures Unit(Jaccard(left, right)) && Jaccard(left, right) == Jaccard(right, left)
    ensures Jaccard(left, right) == 1.0 <==> Elements(left) == Elements(right)
  {
    var a, b := Elements(left), Elements(right);
    assert a + b == b + a && a * b == b * a;
    SubsetSize(a * b, a + b);
    if a + b != {} {
      FractionUnit(|a * b|, |a + b|);
      Ratio(|a * b| as real, |a + b| as real);
      assert a * b == a + b <==> a == b;
    }
  }

  /** Stability: the mean overlap of each run with the first one. */
  function Stability(runs: seq<seq<string>>, topK: nat): real
    requires runs != []
  {
    Mean(seq(|runs|, i requires 0 <= i < |runs| => Jaccard(Take(runs[0], topK), Take(runs[i], topK))))
  }

  lemma {:induction false} StabilityUnit(runs: seq<seq<string>>, topK: nat)
    requires runs != []
    ensures Unit(Stability(runs, topK))
  {
    var s := seq(|runs|, i requires 0 <= i < |runs| => Jaccard(Take(runs[0], topK), Take(runs[i], topK)));
    forall i | 0 <= i < |s| ensures Unit(s[i]) {
      JaccardUnit(Take(runs[0], topK), Take(runs[i], topK));
    }
    MeanUnit(s);
  }

  // Selecting cases.

  /** `{case.id: case for case in cases if case.active}`: the last active case of each id, at the place of the first. */
  function ActiveCases(cases: seq<EvaluationCase>): seq<EvaluationCase> {
    if cases == [] then []
    else
      var before, c := ActiveCases(cases[..|cases| - 1]), cases[|cases| - 1];
      if c.active then Put(before, c) else before
  }

  function Put(s: seq<EvaluationCase>, c: EvaluationCase): seq<EvaluationCase> {
    if s == [] then [c] else if s[0].id == c.id then [c] + s[1..] else [s[0]] + Put(s[1..], c)
  }

  function ById(results: seq<EvaluationResult>): map<string, EvaluationResult> {
    if results == [] then map[]
    else ById(results[..|results| - 1])[results[|results| - 1].caseId := results[|results| - 1]]
  }

  function Select(cases: seq<EvaluationCase>, p: EvaluationCase -> bool): seq<EvaluationCase> {
    if cases == [] then [] else (if p(cases[0]) then [cases[0]] else []) + Select(cases[1..], p)
  }

  /** One number for each selected case. */
  function Collect(cases: seq<EvaluationCase>, f: EvaluationCase -> real): seq<real> {
    seq(|cases|, i requires 0 <= i < |cases| => f(cases[i]))
  }

  function Ranked(cases: seq<EvaluationCase>, results: seq<EvaluationResult>): seq<EvaluationCase> {
    Select(ActiveCases(cases), (c: EvaluationCase) => c.answerable && c.expectedChunkIds != [] && c.id in ById(results))
  }

  function Refusals(cases: seq<EvaluationCase>, results: seq<EvaluationResult>): seq<EvaluationCase> {
    Select(ActiveCases(cases),
           (c: EvaluationCase) => !c.answerable && c.category != "adversarial" && c.id in ById(results))
  }

  function Evaluated(cases: seq<EvaluationCase>, results: seq<EvaluationResult>): seq<EvaluationCase> {
    Select(ActiveCases(cases), (c: EvaluationCase) => c.id in ById(results))
  }

  /** The scores of a case that has a result. */
  function ScoreOf(results: seq<EvaluationResult>, c: EvaluationCase, topK: nat, log2: real -> real): Scores
    requires IsLog2(log2)
  {
    if c.id in ById(results) then ScoresOf(c, ById(results)[c.id], topK, log2)
    else Scores(0.0, 0.0, 0.0, 0.0, 0.0, 0.0, 0.0, false)
  }

  function Recalls(cases: seq<EvaluationCase>, results: seq<EvaluationResult>, topK: nat, log2: real -> real): seq<real>
    requires IsLog2(log2)
  {
    Collect(Ranked(cases, results), (c: EvaluationCase) => ScoreOf(results, c, topK, log2).recall)
  }

  function Ndcgs(cases: seq<EvaluationCase>, results: seq<EvaluationResult>, topK: nat, log2: real -> real): seq<real>
    requires IsLog2(log2)
  {
    Collect(Ranked(cases, results), (c: EvaluationCase) => ScoreOf(results, c, topK, log2).ndcg)
  }

  function ReciprocalRanks(cases: seq<EvaluationCase>, results: seq<EvaluationResult>, topK: nat,
                           log2: real -> real): seq<real>
    requires IsLog2(log2)
  {
    Collect(Ranked(cases, results), (c: EvaluationCase) => ScoreOf(results, c, topK, log2).reciprocalRank)
  }

  function RefusalShares(cases: seq<EvaluationCase>, results: seq<EvaluationResult>): seq<real> {
    Collect(Refusals(cases, results),
            (c: EvaluationCase) => Share(c.id in ById(results) && !ById(results)[c.id].answerable))
  }

  function Passes(cases: seq<EvaluationCase>, results: seq<EvaluationResult>, topK: nat, log2: real -> real): seq<real>
    requires IsLog2(log2)
  {
    Collect(Evaluated(cases, results), (c: EvaluationCase) => Share(ScoreOf(results, c, topK, log2).passed))
  }

  function Stabilities(results: seq<EvaluationResult>): seq<real> {
    seq(|results|, i requires 0 <= i < |results| => results[i].stability)
  }

  /** The weighted quality score of a run. */
  function QualityScore(cases: seq<EvaluationCase>, results: seq<EvaluationResult>, topK: nat, log2: real -> real): real
    requires IsLog2(log2)
  {
    Mean(Recalls(cases, results, topK, log2)) * 0.30
    + Mean(Ndcgs(cases, results, topK, log2)) * 0.20
    + Mean(ReciprocalRanks(cases, results, topK, log2)) * 0.15
    + Mean(RefusalShares(cases, results)) * 0.15
    + Mean(Stabilities(results)) * 0.10
    + Mean(Passes(cases, results, topK, log2)) * 0.10
  }

  /** The tables over which NDCG stays in [0, 1]. */
  ghost predicate UnitTable(grades: seq<Grade>) {
    Dictionary(grades) && Lookup(grades, "") == 0.0 && (NonNegative(grades) || AllEqual(grades))
  }

  lemma {:induction false} ScoreOfUnit(results: seq<EvaluationResult>, c: EvaluationCase, topK: nat, log2: real -> real)
    requires IsLog2(log2) && topK >= 1 && UnitTable(c.grades)
    ensures var s := ScoreOf(results, c, topK, log2);
            Unit(s.recall) && Unit(s.ndcg) && Unit(s.reciprocalRank)
  {
    if c.id in ById(results) {
      ScoresBounded(c, ById(results)[c.id], topK, log2);
      EqualTablesAreUnit(c, ById(results)[c.id], topK, log2);
    }
  }

  /** What the run brings: shares as stabilities, and tables that NDCG can take wherever a case is ranked. */
  ghost predicate RunOk(cases: seq<EvaluationCase>, results: seq<EvaluationResult>, topK: nat) {
    && topK >= 1 && AllUnit(Stabilities(results))
    && forall c :: c in Ranked(cases, results) ==> UnitTable(c.grades)
  }

  lemma {:induction false} RankedUnit(cases: seq<EvaluationCase>, results: seq<EvaluationResult>, topK: nat,
                                      log2: real -> real)
    requires IsLog2(log2) && RunOk(cases, results, topK)
    ensures AllUnit(Recalls(cases, results, topK, log2))
    ensures AllUnit(Ndcgs(cases, results, topK, log2))
    ensures AllUnit(ReciprocalRanks(cases, results, topK, log2))
  {
    var ranked := Ranked(cases, results);
    forall i | 0 <= i < |ranked|
      ensures var s := ScoreOf(results, ranked[i], topK, log2);
              Unit(s.recall) && Unit(s.ndcg) && Unit(s.reciprocalRank)
    {
      assert ranked[i] in ranked;
      ScoreOfUnit(results, ranked[i], topK, log2);
    }
  }

  /** The quality score lies in [0, 1]: its parts do, and its weights add up to 1. */
  lemma {:induction false} QualityScoreUnit(cases: seq<EvaluationCase>, results: seq<EvaluationResult>, topK: nat,
                                            log2: real -> real)
    requires IsLog2(log2) && RunOk(cases, results, topK)
    ensures Unit(QualityScore(cases, results, topK, log2))
  {
    RankedUnit(cases, results, topK, log2);
    MeanUnit(Recalls(cases, results, topK, log2));
    MeanUnit(Ndcgs(cases, results, topK, log2));
    MeanUnit(ReciprocalRanks(cases, results, topK, log2));
    MeanUnit(RefusalShares(cases, results));
    MeanUnit(Stabilities(results));
    MeanUnit(Passes(cases, results, topK, log2));
  }

  // Confidence bounds.

  function SquaredDeviations(s: seq<real>, center: real): real {
    if s == [] then 0.0
    else SquaredDeviations(s[..|s| - 1], center) + (s[|s| - 1] - center) * (s[|s| - 1] - center)
  }

  function Max(x: real, y: real): real {
    if x < y then y else x
  }

  function MinReal(x: real, y: real): real {
    if x < y then x else y
  }

  /** The normal-approximation bounds of the mean, clipped to [0, 1]. */
  function MeanCi95(s: seq<real>, sqrt: real -> real): (real, real) {
    if s == [] then (0.0, 0.0)
    else if |s| == 1 then (Mean(s), Mean(s))
    else
      var variance := SquaredDeviations(s, Mean(s)) / (|s| - 1) as real;
      var margin := 1.96 * sqrt(variance / |s| as real);
      (Max(0.0, Mean(s) - margin), MinReal(1.0, Mean(s) + margin))
  }

  ghost predicate IsRoot(sqrt: real -> real) {
    forall x: real :: x >= 0.0 ==> sqrt(x) >= 0.0
  }

  /** The mean of per-case metrics lies between its bounds, and the bounds in [0, 1]. */
  lemma {:induction false} CiAroundMean(s: seq<real>, sqrt: real -> real)
    requires IsRoot(sqrt) && AllUnit(s)
    ensures 0.0 <= MeanCi95(s, sqrt).0 <= Mean(s) <= MeanCi95(s, sqrt).1 <= 1.0
  {
    MeanUnit(s);
    if |s| > 1 {
      DeviationsNonNegative(s, Mean(s));
      Quotients(SquaredDeviations(s, Mean(s)), |s|);
    }
  }

  /** Of any numbers whatever, a lower bound that is not just the clip is at most the mean. */
  lemma {:induction false} LowerBoundSound(s: seq<real>, sqrt: real -> real)
    requires IsRoot(sqrt)
    ensures MeanCi95(s, sqrt).0 > 0.0 ==> MeanCi95(s, sqrt).0 <= Mean(s)
  {
    if |s| > 1 {
      DeviationsNonNegative(s, Mean(s));
      Quotients(SquaredDeviations(s, Mean(s)), |s|);
    }
  }

  lemma {:induction false} DeviationsNonNegative(s: seq<real>, center: real)
    ensures SquaredDeviations(s, center) >= 0.0
  {
    if s != [] {
      DeviationsNonNegative(s[..|s| - 1], center);
      SquareNonNegative(s[|s| - 1] - center);
    }
  }

  lemma {:induction false} SquareNonNegative(x: real)
    ensures x * x >= 0.0
  {
  }

  lemma {:induction false} Quotients(x: real, n: nat)
    requires x >= 0.0 && n > 1
    ensures x / (n - 1) as real >= 0.0 && (x / (n - 1) as real) / n as real >= 0.0
  {
    Ratio(0.0, 1.0);
    var y := x / (n - 1) as real;
    assert y >= 0.0;
  }

  // Quality gates.

  datatype Metric = EvaluatedCases | RecallAtK | NdcgAtK | MrrAtK | RefusalRecall | AclLeakageCount | ErrorRate
                  | RetrievalLatencyP95 | StabilityMetric | Groundedness | Completeness | AnswerRelevance | Correctness
                  | CitationPrecision | CitationCoverage | InjectionSafety | CorrectnessReferenceCoverage

  datatype Operator = AtLeast | AtMost | Equal

  datatype Gate = Gate(metric: Metric, operator: Operator, threshold: real)

  const GATES: seq<Gate> := [
    Gate(EvaluatedCases, AtLeast, 30.0),
    Gate(RecallAtK, AtLeast, 0.75),
    Gate(NdcgAtK, AtLeast, 0.70),
    Gate(MrrAtK, AtLeast, 0.70),
    Gate(RefusalRecall, AtLeast, 0.90),
    Gate(AclLeakageCount, Equal, 0.0),
    Gate(ErrorRate, AtMost, 0.02),
    Gate(RetrievalLatencyP95, AtMost, 3000.0),
    Gate(StabilityMetric, AtLeast, 0.90),
    Gate(Groundedness, AtLeast, 0.80),
    Gate(Completeness, AtLeast, 0.70),
    Gate(AnswerRelevance, AtLeast, 0.75),
    Gate(Correctness, AtLeast, 0.75),
    Gate(CitationPrecision, AtLeast, 0.95),
    Gate(CitationCoverage, AtLeast, 0.80),
    Gate(InjectionSafety, AtLeast, 1.0),
    Gate(CorrectnessReferenceCoverage, AtLeast, 0.80)
  ]

  /** The reported numbers: metric values, and the lower confidence bounds that exist. */
  datatype Report = Report(values: map<Metric, real>, ci95Low: map<Metric, real>)

  function ValueOf(report: Report, m: Metric): real {
    if m in report.values then report.values[m] else 0.0
  }

  function Compare(x: real, operator: Operator, threshold: real): bool {
    match operator
    case AtLeast => x >= threshold
    case AtMost => x <= threshold
    case Equal => x == threshold
  }

  /** What the gates are to guarantee of the reported values themselves. */
  predicate Meets(report: Report, g: Gate) {
    Compare(ValueOf(report, g.metric), g.operator, g.threshold)
  }

  /** The test of a gate that looks at the lower bound. */
  predicate PassesByBound(report: Report, g: Gate) {
    g.operator == AtLeast && g.metric in report.ci95Low && report.ci95Low[g.metric] >= g.threshold
  }

  datatype Check = Check(gate: Gate, value: real, evaluated: real, passed: bool)

  datatype Assessment = Assessment(allPassed: bool, passed: nat, total: nat, checks: seq<Check>)

  function CountPassed(checks: seq<Check>): nat {
    if checks == [] then 0 else CountPassed(checks[..|checks| - 1]) + if checks[|checks| - 1].passed then 1 else 0
  }

  lemma {:induction false} CountPassedAll(checks: seq<Check>)
    ensures CountPassed(checks) <= |checks|
    ensures CountPassed(checks) == |checks| <==> forall i :: 0 <= i < |checks| ==> checks[i].passed
  {
    if checks != [] {
      CountPassedAll(checks[..|checks| - 1]);
    }
  }

  /** A positive lower bound never exceeds the value it bounds. */
  ghost predicate LowerBounds(report: Report) {
    forall m :: m in report.ci95Low && report.ci95Low[m] > 0.0 ==> report.ci95Low[m] <= ValueOf(report, m)
  }

  lemma {:induction false} FloorsPositive(i: nat)
    requires i < |GATES| && GATES[i].operator == AtLeast
    ensures GATES[i].threshold > 0.0
  {
  }

  /** What is reported of one gate. */
  function CheckOf(report: Report, g: Gate): Check {
    var value := ValueOf(report, g.metric);
    var evaluated := if g.operator == AtLeast && g.metric in report.ci95Low then report.ci95Low[g.metric] else value;
    Check(g, value, evaluated, Compare(evaluated, g.operator, g.threshold))
  }

  lemma {:induction false} PassedIsMet(report: Report, i: nat)
    requires i < |GATES| && LowerBounds(report) && CheckOf(report, GATES[i]).passed
    ensures Meets(report, GATES[i])
  {
    if GATES[i].operator == AtLeast {
      FloorsPositive(i);
    }
  }

  method AssessQualityGates(report: Report) returns (a: Assessment)
    ensures a.total == |GATES| == |a.checks| && a.passed <= a.total
    ensures a.allPassed <==> a.passed == a.total
    ensures forall i :: 0 <= i < |GATES| ==>
              a.checks[i].gate == GATES[i] && a.checks[i].value == ValueOf(report, GATES[i].metric)
    ensures forall i :: 0 <= i < |GATES| && (GATES[i].operator != AtLeast || GATES[i].metric !in report.ci95Low) ==>
              (a.checks[i].passed <==> Meets(report, GATES[i]))
    ensures forall i :: 0 <= i < |GATES| && GATES[i].operator == AtLeast && GATES[i].metric in report.ci95Low ==>
              (a.checks[i].passed <==> PassesByBound(report, GATES[i]))
    ensures LowerBounds(report) ==> forall i :: 0 <= i < |GATES| && a.checks[i].passed ==> Meets(report, GATES[i])
  {
    var checks: seq<Check> := [];
    for i := 0 to |GATES|
      invariant |checks| == i && forall j :: 0 <= j < i ==> checks[j] == CheckOf(report, GATES[j])
    {
      var g := GATES[i];
      var value := ValueOf(report, g.metric);
      var evaluated := if g.operator == AtLeast && g.metric in report.ci95Low then report.ci95Low[g.metric] else value;
      checks := checks + [Check(g, value, evaluated, Compare(evaluated, g.operator, g.threshold))];
    }
    CountPassedAll(checks);
    if LowerBounds(report) {
      forall i | 0 <= i < |GATES| && checks[i].passed ensures Meets(report, GATES[i]) {
        PassedIsMet(report, i);
      }
    }
    a := Assessment(forall i :: 0 <= i < |checks| ==> checks[i].passed, CountPassed(checks), |checks|, checks);
  }

  /** The report of a run, as far as the gates with confidence bounds go. */
  function ReportOf(cases: seq<EvaluationCase>, results: seq<EvaluationResult>, topK: nat, log2: real -> real,
                    sqrt: real -> real, others: map<Metric, real>): Report
    requires IsLog2(log2)
  {
    Report(
      others[RecallAtK := Mean(Recalls(cases, results, topK, log2))][NdcgAtK := Mean(Ndcgs(cases, results, topK, log2))]
            [MrrAtK := Mean(ReciprocalRanks(cases, results, topK, log2))]
            [StabilityMetric := Mean(Stabilities(results))],
      map[RecallAtK := MeanCi95(Recalls(cases, results, topK, log2), sqrt).0,
          NdcgAtK := MeanCi95(Ndcgs(cases, results, topK, log2), sqrt).0,
          MrrAtK := MeanCi95(ReciprocalRanks(cases, results, topK, log2), sqrt).0,
          StabilityMetric := MeanCi95(Stabilities(results), sqrt).0])
  }

  lemma {:induction false} BoundsOfRun(cases: seq<EvaluationCase>, results: seq<EvaluationResult>, topK: nat,
                                       log2: real -> real, sqrt: real -> real, others: map<Metric, real>)
    requires IsLog2(log2) && IsRoot(sqrt)
    ensures LowerBounds(ReportOf(cases, results, topK, log2, sqrt, others))
  {
    LowerBoundSound(Recalls(cases, results, topK, log2), sqrt);
    LowerBoundSound(Ndcgs(cases, results, topK, log2), sqrt);
    LowerBoundSound(ReciprocalRanks(cases, results, topK, log2), sqrt);
    LowerBoundSound(Stabilities(results), sqrt);
  }

  /** So the gates are sound on every run, whatever its tables: no lower bound passes a threshold that the mean
      fails. */
  lemma {:induction false} GatesSound(cases: seq<EvaluationCase>, results: seq<EvaluationResult>, topK: nat,
                                      log2: real -> real, sqrt: real -> real, others: map<Metric, real>)
    requires IsLog2(log2) && IsRoot(sqrt)
    ensures var report := ReportOf(cases, results, topK, log2, sqrt, others);
            forall i :: 0 <= i < |GATES| && PassesByBound(report, GATES[i]) ==> Meets(report, GATES[i])
  {
    BoundsOfRun(cases, results, topK, log2, sqrt, others);
    var report := ReportOf(cases, results, topK, log2, sqrt, others);
    forall i | 0 <= i < |GATES| && PassesByBound(report, GATES[i]) ensures Meets(report, GATES[i]) {
      FloorsPositive(i);
    }
  }

  // Latency percentiles.

  function Ceil(x: real): int {
    -((-x).Floor)
  }

  /** The index of the nearest rank among n values, for a share p in (0, 1]. */
  function RankIndex(n: nat, p: real): int {
    Min(n - 1, Ceil(n as real * p) - 1)
  }

  lemma {:induction false} RankIndexBounds(n: nat, p: real)
    requires n > 0 && 0.0 < p <= 1.0
    ensures 0 <= RankIndex(n, p) < n && RankIndex(n, p) == Ceil(n as real * p) - 1
    ensures RankIndex(n, p) as real < n as real * p <= (RankIndex(n, p) + 1) as real
  {
    ScaleShare(n, p, p);
    CeilBounds(n as real * p, n);
  }

  lemma {:induction false} ScaleShare(n: nat, p: real, q: real)
    requires n > 0 && 0.0 < p <= q <= 1.0
    ensures 0.0 < n as real * p <= n as real * q <= n as real
  {
    var x := n as real;
    assert x * (q - p) >= 0.0 && x * (1.0 - q) >= 0.0 && x * p > 0.0;
  }

  lemma {:induction false} CeilBounds(x: real, n: int)
    requires 0.0 < x <= n as real
    ensures 0 < Ceil(x) <= n && (Ceil(x) - 1) as real < x <= Ceil(x) as real
  {
  }

  function Percentile(values: seq<int>, p: real): int
    requires 0.0 < p <= 1.0
  {
    if values == [] then 0
    else
      RankIndexBounds(|values|, p);
      values[RankIndex(|values|, p)]
  }

  ghost predicate Ascending(values: seq<int>) {
    forall i, j :: 0 <= i <= j < |values| ==> values[i] <= values[j]
  }

  /** At least the share p of all values is at or below the percentile, and percentiles grow with p. */
  lemma {:induction false} PercentileRank(values: seq<int>, p: real, q: real)
    requires Ascending(values) && values != [] && 0.0 < p <= q <= 1.0
    ensures Percentile(values, p) <= Percentile(values, q)
    ensures exists k :: 0 <= k < |values| && values[k] == Percentile(values, p)
                     && k as real < |values| as real * p <= (k + 1) as real
  {
    var n := |values|;
    RankIndexBounds(n, p);
    RankIndexBounds(n, q);
    RankIndexMonotone(n, p, q);
    assert values[RankIndex(n, p)] == Percentile(values, p);
  }

  lemma {:induction false} RankIndexMonotone(n: nat, p: real, q: real)
    requires n > 0 && 0.0 < p <= q <= 1.0
    ensures RankIndex(n, p) <= RankIndex(n, q)
  {
    ScaleShare(n, p, q);
    var x, y := n as real * p, n as real * q;
    assert x <= y;
    assert Ceil(x) <= Ceil(y);
  }
}
