/** What the numbers in the report of a run say about its cases and results. */
module RunMetrics {
  import opened Finite
  import opened Cosine
  import opened CaseMetrics
  import opened CaseHits
  import opened QualityReport

  // ---- Means and spread ------------------------------------------------------------------------

  /** A sum over two lists is the sum of their sums. */
  lemma {:induction false} SumSplits(a: seq<real>, b: seq<real>)
    ensures Total(a + b) == Total(a) + Total(b)
  {
    if b == [] {
      assert a + b == a;
    } else {
      var front, last := b[..|b| - 1], b[|b| - 1];
      SumSplits(a, front);
      assert (a + b)[..|a + b| - 1] == a + front;
    }
  }

  lemma {:induction false} SumOfOne(x: real)
    ensures Total([x]) == x
  {
    assert [x][..0] == [];
  }

  lemma {:induction false} MeanExactly(s: seq<real>)
    requires s != []
    ensures Mean(s) * |s| as real == Total(s)
  {
  }

  function Squares(s: seq<real>): seq<real> {
    if s == [] then [] else Squares(s[..|s| - 1]) + [s[|s| - 1] * s[|s| - 1]]
  }

  /** The squared deviations from c of n values, by the sum of their squares and their sum. */
  function Spread(squares: real, sum: real, n: real, c: real): real {
    squares - 2.0 * c * sum + n * (c * c)
  }

  lemma {:induction false} SpreadStep(d: real, squares: real, sum: real, n: real, c: real, x: real)
    requires d == Spread(squares, sum, n, c)
    ensures d + (x - c) * (x - c) == Spread(squares + x * x, sum + x, n + 1.0, c)
  {
    var xx, xc, cc := x * x, c * x, c * c;
    assert (x - c) * (x - c) == xx - 2.0 * xc + cc;
    assert 2.0 * c * (sum + x) == 2.0 * c * sum + 2.0 * xc;
    assert (n + 1.0) * cc == n * cc + cc;
  }

  lemma {:induction false} SquaresLast(s: seq<real>)
    requires s != []
    ensures Total(Squares(s)) == Total(Squares(s[..|s| - 1])) + s[|s| - 1] * s[|s| - 1]
  {
    SumSplits(Squares(s[..|s| - 1]), [s[|s| - 1] * s[|s| - 1]]);
    SumOfOne(s[|s| - 1] * s[|s| - 1]);
  }

  predicate HasSpread(s: seq<real>, c: real) {
    SquaredDeviations(s, c) == Spread(Total(Squares(s)), Total(s), |s| as real, c)
  }

  lemma {:induction false} SpreadOn(s: seq<real>, c: real)
    requires s != [] && HasSpread(s[..|s| - 1], c)
    ensures HasSpread(s, c)
  {
    var front, x := s[..|s| - 1], s[|s| - 1];
    SquaresLast(s);
    SpreadStep(SquaredDeviations(front, c), Total(Squares(front)), Total(front), |front| as real, c, x);
  }

  /** The squared deviations from c, by the sum of the squares and the sum of the values. */
  lemma {:induction false} DeviationsExactly(s: seq<real>, c: real)
    ensures HasSpread(s, c)
  {
    if s != [] {
      DeviationsExactly(s[..|s| - 1], c);
      SpreadOn(s, c);
    }
  }

  /** The half width of the interval: its square is 1.96 squared times the sample variance over the number of values. */
  ghost predicate IsMargin(s: seq<real>, margin: real)
    requires |s| > 1
  {
    && margin >= 0.0
    && margin * margin == 1.96 * 1.96 * (SquaredDeviations(s, Mean(s)) / (|s| - 1) as real / |s| as real)
  }

  lemma {:induction false} MarginSquared(root: real, x: real, margin: real)
    requires root * root == x && margin == 1.96 * root
    ensures margin * margin == 1.96 * 1.96 * x
  {
  }

  /** The interval lies around the mean by the margin of the normal approximation, clipped to [0, 1]; a single value is
      taken for exact. */
  lemma {:induction false} CiExactly(s: seq<real>, sqrt: real -> real) returns (margin: real)
    requires IsSquareRoot(sqrt) && s != []
    ensures |s| == 1 ==> MeanCi95(s, sqrt) == (s[0], s[0])
    ensures |s| > 1 ==>
              var (low, high) := MeanCi95(s, sqrt);
              && IsMargin(s, margin)
              && low == (if Mean(s) - margin > 0.0 then Mean(s) - margin else 0.0)
              && high == (if Mean(s) + margin < 1.0 then Mean(s) + margin else 1.0)
  {
    margin := 0.0;
    if |s| == 1 {
      assert s == [s[0]];
      SumOfOne(s[0]);
    } else {
      var x := SquaredDeviations(s, Mean(s)) / (|s| - 1) as real / |s| as real;
      DeviationsNonNegative(s, Mean(s));
      Quotients(SquaredDeviations(s, Mean(s)), |s|);
      margin := 1.96 * sqrt(x);
      MarginSquared(sqrt(x), x, margin);
    }
  }

  // ---- Overlap ---------------------------------------------------------------------------------

  /** The overlap is the share of common elements among all. */
  lemma {:induction false} JaccardExactly(left: seq<string>, right: seq<string>, common: set<string>, all: set<string>)
    requires forall x :: x in common <==> x in left && x in right
    requires forall x :: x in all <==> x in left || x in right
    ensures if all == {} then Jaccard(left, right) == 1.0 else IsShare(Jaccard(left, right), |common|, |all|)
  {
    assert all == Elements(left) + Elements(right) && common == Elements(left) * Elements(right);
    if all != {} {
      FractionTimes(Jaccard(left, right), |common|, |all|);
    }
  }

  // ---- Which cases count -----------------------------------------------------------------------

  lemma {:induction false} PutExactly(s: seq<EvaluationCase>, c: EvaluationCase, x: EvaluationCase)
    requires forall i, j :: 0 <= i < j < |s| ==> s[i].id != s[j].id
    ensures x in Put(s, c) <==> x == c || (x in s && x.id != c.id)
    ensures forall i, j :: 0 <= i < j < |Put(s, c)| ==> Put(s, c)[i].id != Put(s, c)[j].id
  {
    if s != [] {
      assert s == [s[0]] + s[1..];
      if s[0].id == c.id {
        assert forall y :: y in s[1..] ==> y.id != c.id;
      } else {
        PutExactly(s[1..], c, x);
        PutIds(s[1..], c, s[0].id);
      }
    }
  }

  lemma {:induction false} PutIds(s: seq<EvaluationCase>, c: EvaluationCase, id: string)
    requires id != c.id && forall y :: y in s ==> y.id != id
    ensures forall y :: y in Put(s, c) ==> y.id != id
  {
    if s != [] && s[0].id != c.id {
      PutIds(s[1..], c, id);
    }
  }

  /** Case i is active, and none after it with its id is. */
  predicate LastActive(cases: seq<EvaluationCase>, i: nat) {
    i < |cases| && cases[i].active && forall j :: i < j < |cases| && cases[j].active ==> cases[j].id != cases[i].id
  }

  ghost predicate Counts(cases: seq<EvaluationCase>, c: EvaluationCase) {
    exists i: nat :: LastActive(cases, i) && cases[i] == c
  }

  lemma {:induction false} CountsOn(front: seq<EvaluationCase>, last: EvaluationCase, c: EvaluationCase)
    requires Counts(front, c) && (last.active ==> c.id != last.id)
    ensures Counts(front + [last], c)
  {
    var i: nat :| LastActive(front, i) && front[i] == c;
    assert LastActive(front + [last], i);
  }

  lemma {:induction false} CountsBack(front: seq<EvaluationCase>, last: EvaluationCase, c: EvaluationCase)
    requires Counts(front + [last], c) && !(last.active && c == last)
    ensures Counts(front, c) && (last.active ==> c.id != last.id)
  {
    var cases := front + [last];
    var i: nat :| LastActive(cases, i) && cases[i] == c;
    assert cases[|front|] == last && i != |front|;
    assert LastActive(front, i) && front[i] == c by {
      assert forall j :: i < j < |front| ==> cases[j] == front[j];
    }
  }

  lemma {:induction false} CountsStep(front: seq<EvaluationCase>, last: EvaluationCase, c: EvaluationCase)
    ensures Counts(front + [last], c)
            <==> if last.active then c == last || (Counts(front, c) && c.id != last.id) else Counts(front, c)
  {
    if Counts(front, c) && (last.active ==> c.id != last.id) {
      CountsOn(front, last, c);
    }
    if Counts(front + [last], c) && !(last.active && c == last) {
      CountsBack(front, last, c);
    }
    assert (front + [last])[|front|] == last;
    assert last.active ==> LastActive(front + [last], |front|);
  }

  /** Of the active cases with one id the last one counts, once. */
  lemma {:induction false} ActiveExactly(cases: seq<EvaluationCase>, c: EvaluationCase)
    ensures c in ActiveCases(cases) <==> Counts(cases, c)
    ensures forall i, j :: 0 <= i < j < |ActiveCases(cases)| ==> ActiveCases(cases)[i].id != ActiveCases(cases)[j].id
  {
    if cases != [] {
      var front, last := cases[..|cases| - 1], cases[|cases| - 1];
      ActiveExactly(front, c);
      CountsStep(front, last, c);
      assert cases == front + [last];
      if last.active {
        PutExactly(ActiveCases(front), last, c);
      }
    }
  }

  /** Result i is the last one of its case. */
  predicate LastResult(results: seq<EvaluationResult>, i: nat) {
    i < |results| && forall j :: i < j < |results| ==> results[j].caseId != results[i].caseId
  }

  /** The last result of a case is the one that is looked at. */
  lemma {:induction false} ByIdExactly(results: seq<EvaluationResult>, i: nat)
    requires LastResult(results, i)
    ensures results[i].caseId in ById(results) && ById(results)[results[i].caseId] == results[i]
  {
    if i < |results| - 1 {
      ByIdExactly(results[..|results| - 1], i);
    }
  }

  lemma {:induction false} ByIdKeys(results: seq<EvaluationResult>, id: string)
    ensures id in ById(results) <==> exists i :: 0 <= i < |results| && results[i].caseId == id
  {
    if results != [] {
      ByIdKeys(results[..|results| - 1], id);
    }
  }

  lemma {:induction false} SelectExactly(cases: seq<EvaluationCase>, p: EvaluationCase -> bool, c: EvaluationCase)
    ensures c in Select(cases, p) <==> c in cases && p(c)
  {
    if cases != [] {
      assert cases == [cases[0]] + cases[1..];
      SelectExactly(cases[1..], p, c);
    }
  }

  /** Some result is of this case. */
  predicate HasResult(results: seq<EvaluationResult>, c: EvaluationCase) {
    exists i :: 0 <= i < |results| && results[i].caseId == c.id
  }

  /** Which cases the means of a run are over: ranked ones for retrieval, refusals outside the adversarial category, and
      all that have a result for the pass rate. */
  lemma {:induction false} SelectionsExactly(cases: seq<EvaluationCase>, results: seq<EvaluationResult>,
                                             c: EvaluationCase)
    ensures c in Ranked(cases, results)
            <==> Counts(cases, c) && HasResult(results, c) && c.answerable && c.expectedChunkIds != []
    ensures c in Refusals(cases, results)
            <==> Counts(cases, c) && HasResult(results, c) && !c.answerable && c.category != "adversarial"
    ensures c in Evaluated(cases, results) <==> Counts(cases, c) && HasResult(results, c)
  {
    ActiveExactly(cases, c);
    ByIdKeys(results, c.id);
    var active := ActiveCases(cases);
    SelectExactly(active, (x: EvaluationCase) => x.answerable && x.expectedChunkIds != [] && x.id in ById(results), c);
    SelectExactly(active,
                  (x: EvaluationCase) => !x.answerable && x.category != "adversarial" && x.id in ById(results), c);
    SelectExactly(active, (x: EvaluationCase) => x.id in ById(results), c);
  }

  /** Of a hundred points recall gives 30, NDCG 20, reciprocal rank and refusals 15 each, stability and passes 10
      each. */
  lemma {:induction false} QualityPoints(cases: seq<EvaluationCase>, results: seq<EvaluationResult>, topK: nat,
                                         log2: real -> real)
    requires IsLog2(log2)
    ensures 100.0 * QualityScore(cases, results, topK, log2)
         == 30.0 * Mean(Recalls(cases, results, topK, log2)) + 20.0 * Mean(Ndcgs(cases, results, topK, log2))
            + 15.0 * (Mean(ReciprocalRanks(cases, results, topK, log2)) + Mean(RefusalShares(cases, results)))
            + 10.0 * (Mean(Stabilities(results)) + Mean(Passes(cases, results, topK, log2)))
  {
  }
}
