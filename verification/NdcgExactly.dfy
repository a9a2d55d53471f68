/** For which relevance tables NDCG stays in [0, 1], whatever is expected and returned. */
module NdcgExactly {
  import opened Finite
  import opened Fractions
  import opened CaseMetrics

  ghost predicate AllEqual(grades: seq<Grade>) {
    forall i, j :: 0 <= i < j < |grades| ==> grades[i].value == grades[j].value
  }

  ghost predicate AlwaysUnit(grades: seq<Grade>, log2: real -> real)
    requires IsLog2(log2)
  {
    forall c: EvaluationCase, r, topK: nat :: c.grades == grades && topK >= 1 ==> Unit(Ndcg(c, r, topK, log2))
  }

  // ---- All grades equal: the sign does not matter ----------------------------------------------

  function Negated(grades: seq<Grade>): seq<Grade> {
    seq(|grades|, i requires 0 <= i < |grades| => Grade(grades[i].id, -grades[i].value))
  }

  lemma {:induction false} SortEqual(grades: seq<Grade>)
    requires AllEqual(grades)
    ensures SortDescending(grades) == grades
  {
    if grades != [] {
      SortEqual(grades[1..]);
    }
  }

  lemma {:induction false} LookupNegated(grades: seq<Grade>, id: string)
    ensures Lookup(Negated(grades), id) == -Lookup(grades, id)
  {
    if grades != [] {
      assert Negated(grades)[1..] == Negated(grades[1..]);
      LookupNegated(grades[1..], id);
    }
  }

  lemma {:induction false} GainNegated(a: seq<real>, b: seq<real>, n: nat, log2: real -> real)
    requires IsLog2(log2) && |a| == |b| && forall i :: 0 <= i < |a| ==> b[i] == -a[i]
    ensures Gain(b, n, log2) == -Gain(a, n, log2)
  {
    if n > 0 {
      GainNegated(a, b, n - 1, log2);
      QuotientNegated(At(a, n - 1), Discount(log2, n - 1));
    }
  }

  lemma {:induction false} QuotientNegated(x: real, d: real)
    requires d != 0.0
    ensures -x / d == -(x / d)
  {
  }

  lemma {:induction false} RatioNegated(x: real, y: real)
    requires y != 0.0
    ensures (-x) / (-y) == x / y
  {
  }

  lemma {:induction false} SameResolved(c: EvaluationCase, grades: seq<Grade>, r: EvaluationResult, topK: nat, n: nat)
    requires n <= |Take(r.returnedChunkIds, topK)|
    ensures Resolved(c.(grades := grades), r, topK, n) == Resolved(c, r, topK, n)
  {
    if n > 0 {
      SameResolved(c, grades, r, topK, n - 1);
      assert HashToExpected(c.(grades := grades)) == HashToExpected(c);
    }
  }

  lemma {:induction false} DcgNegated(c: EvaluationCase, r: EvaluationResult, topK: nat, log2: real -> real)
    requires IsLog2(log2)
    ensures Dcg(c.(grades := Negated(c.grades)), r, topK, log2) == -Dcg(c, r, topK, log2)
  {
    var c' := c.(grades := Negated(c.grades));
    SameResolved(c, Negated(c.grades), r, topK, |Take(r.returnedChunkIds, topK)|);
    var g, g' := Gains(c, r, topK), Gains(c', r, topK);
    forall i | 0 <= i < |g| ensures g'[i] == -g[i] {
      LookupNegated(c.grades, ResolvedAll(c, r, topK)[i]);
    }
    GainNegated(g, g', |g|, log2);
  }

  lemma {:induction false} IdealNegated(c: EvaluationCase, topK: nat, log2: real -> real)
    requires IsLog2(log2) && AllEqual(c.grades)
    ensures IdealDcg(c.(grades := Negated(c.grades)), topK, log2) == -IdealDcg(c, topK, log2)
  {
    SortEqual(c.grades);
    SortEqual(Negated(c.grades));
    var c' := c.(grades := Negated(c.grades));
    GainNegated(Ideal(c, topK), Ideal(c', topK), |Ideal(c, topK)|, log2);
  }

  lemma {:induction false} NdcgNegated(c: EvaluationCase, r: EvaluationResult, topK: nat, log2: real -> real)
    requires IsLog2(log2) && AllEqual(c.grades)
    ensures Ndcg(c.(grades := Negated(c.grades)), r, topK, log2) == Ndcg(c, r, topK, log2)
  {
    DcgNegated(c, r, topK, log2);
    IdealNegated(c, topK, log2);
    if IdealDcg(c, topK, log2) != 0.0 {
      RatioNegated(Dcg(c, r, topK, log2), IdealDcg(c, topK, log2));
    }
  }

  lemma {:induction false} EqualTablesAreUnit(c: EvaluationCase, r: EvaluationResult, topK: nat, log2: real -> real)
    requires IsLog2(log2) && topK >= 1 && Dictionary(c.grades) && Lookup(c.grades, "") == 0.0
    requires NonNegative(c.grades) || AllEqual(c.grades)
    ensures Unit(Ndcg(c, r, topK, log2))
  {
    if NonNegative(c.grades) {
      NdcgBounded(c, r, topK, log2);
    } else {
      LookupNegated(c.grades, "");
      assert NonNegative(Negated(c.grades)) by {
        var i :| 0 <= i < |c.grades| && c.grades[i].value < 0.0;
        assert forall j :: 0 <= j < |c.grades| ==> c.grades[j].value == c.grades[i].value;
      }
      NdcgBounded(c.(grades := Negated(c.grades)), r, topK, log2);
      NdcgNegated(c, r, topK, log2);
    }
  }

  // ---- Rankings that get any given credit ------------------------------------------------------

  /** A case that expects the chunks `ids`, and the result that returns them; "" stands for a miss. */
  function Probe(grades: seq<Grade>, ids: seq<string>): EvaluationCase {
    EvaluationCase("q", "", true, true, NonEmpty(ids), [], [], grades)
  }

  function Returning(ids: seq<string>): EvaluationResult {
    EvaluationResult("q", ids, [], [], true, false, [], 1.0)
  }

  lemma {:induction false} NonEmptyElements(ids: seq<string>)
    ensures forall x :: x in NonEmpty(ids) <==> x in ids && x != ""
  {
    if ids != [] {
      NonEmptyElements(ids[1..]);
    }
  }

  lemma {:induction false} ProbeResolves(grades: seq<Grade>, ids: seq<string>, topK: nat, n: nat)
    requires CreditedOnce(ids) && n <= |ids| <= topK
    ensures Resolved(Probe(grades, ids), Returning(ids), topK, n) == ids[..n]
  {
    if n > 0 {
      ProbeResolves(grades, ids, topK, n - 1);
      NonEmptyElements(ids);
      var c := Probe(grades, ids);
      assert HashAt(Returning(ids), topK, n - 1) == "";
      assert MatchedId(c, ids[n - 1], "") == ids[n - 1];
      assert ids[n - 1] != "" ==> ids[n - 1] !in ids[..n - 1];
      assert ids[..n] == ids[..n - 1] + [ids[n - 1]];
    }
  }

  lemma {:induction false} ProbeGains(grades: seq<Grade>, ids: seq<string>, topK: nat)
    requires CreditedOnce(ids) && |ids| <= topK
    ensures Gains(Probe(grades, ids), Returning(ids), topK) == GradesOf(grades, ids)
    ensures Ideal(Probe(grades, ids), topK) == Take(Values(SortDescending(grades)), topK)
  {
    ProbeResolves(grades, ids, topK, |ids|);
    assert ids[..|ids|] == ids;
  }

  // ---- Tables on which some ranking leaves [0, 1] ----------------------------------------------

  lemma {:induction false} OneGain(x: real, log2: real -> real)
    requires IsLog2(log2)
    ensures Gain([x], 1, log2) == x / Discount(log2, 0)
  {
    assert Gain([x], 0, log2) == 0.0;
  }

  lemma {:induction false} LookupSorted(s: seq<Grade>, i: nat)
    requires Dictionary(s) && i < |s|
    ensures Lookup(s, s[i].id) == s[i].value
  {
    if i > 0 {
      LookupSorted(s[1..], i - 1);
    }
  }

  lemma {:induction false} LookupInTable(grades: seq<Grade>, i: nat)
    requires Dictionary(grades) && i < |grades|
    ensures |SortDescending(grades)| == |grades|
    ensures var s := SortDescending(grades); Lookup(grades, s[i].id) == s[i].value
  {
    SortDictionary(grades);
    SortSorted(grades);
    assert |multiset(SortDescending(grades))| == |multiset(grades)|;
    LookupSorted(SortDescending(grades), i);
    SortLookup(grades, SortDescending(grades)[i].id);
  }

  lemma {:induction false} ZeroGains(s: seq<real>, n: nat, log2: real -> real)
    requires IsLog2(log2) && forall i :: 0 <= i < n ==> At(s, i) == 0.0
    ensures Gain(s, n, log2) == 0.0
  {
    if n > 0 {
      ZeroGains(s, n - 1, log2);
    }
  }

  /** A single rank that is credited with the j-th grade, against the ideal ranking of j + 1 ranks. */
  lemma {:induction false} OneCredit(grades: seq<Grade>, i: nat, topK: nat, log2: real -> real)
    requires IsLog2(log2) && Dictionary(grades) && i < |grades| && 1 <= topK <= |grades|
    ensures |SortDescending(grades)| == |grades|
    ensures var s := SortDescending(grades);
            var c, r := Probe(grades, [s[i].id]), Returning([s[i].id]);
            && Dcg(c, r, topK, log2) == s[i].value / Discount(log2, 0)
            && IdealDcg(c, topK, log2) == Gain(Values(s), topK, log2)
  {
    LookupInTable(grades, i);
    var s := SortDescending(grades);
    var ids := [s[i].id];
    ProbeGains(grades, ids, topK);
    assert GradesOf(grades, ids) == [s[i].value];
    OneGain(s[i].value, log2);
    GainSame(Take(Values(s), topK), Values(s), topK, log2);
  }

  lemma {:induction false} WorstFirst(grades: seq<Grade>, log2: real -> real)
    requires IsLog2(log2) && Dictionary(grades) && !NonNegative(grades) && !AllEqual(grades)
    requires SortDescending(grades) != [] && SortDescending(grades)[0].value != 0.0
    ensures !AlwaysUnit(grades, log2)
  {
    WorstIsNegative(grades);
    var s, n := SortDescending(grades), |grades|;
    OneCredit(grades, n - 1, 1, log2);
    var c, r := Probe(grades, [s[n - 1].id]), Returning([s[n - 1].id]);
    assert Gain(Values(s), 0, log2) == 0.0;
    FirstOutside(s[n - 1].value, s[0].value, Discount(log2, 0));
    assert !Unit(Ndcg(c, r, 1, log2));
  }

  lemma {:induction false} NegativeFirst(grades: seq<Grade>, log2: real -> real)
    requires IsLog2(log2) && Dictionary(grades) && !NonNegative(grades) && !AllEqual(grades)
    requires SortDescending(grades) != [] && SortDescending(grades)[0].value == 0.0
    ensures !AlwaysUnit(grades, log2)
  {
    WorstIsNegative(grades);
    SortSorted(grades);
    var s := SortDescending(grades);
    var j := FirstNegative(s);
    CreditBefore(grades, j, log2);
  }

  /** The first negative grade at the first rank weighs more than where the ideal ranking puts it. */
  lemma {:induction false} CreditBefore(grades: seq<Grade>, j: nat, log2: real -> real)
    requires IsLog2(log2) && Dictionary(grades) && 0 < j < |grades| == |SortDescending(grades)|
    requires var s := SortDescending(grades); s[j].value < 0.0 && forall i :: 0 <= i < j ==> At(Values(s), i) == 0.0
    ensures !AlwaysUnit(grades, log2)
  {
    var s := SortDescending(grades);
    var c, r := Probe(grades, [s[j].id]), Returning([s[j].id]);
    OneCredit(grades, j, j + 1, log2);
    ZeroGains(Values(s), j, log2);
    LaterOutside(s[j].value, Discount(log2, 0), Discount(log2, j));
    assert !Unit(Ndcg(c, r, j + 1, log2));
  }

  /** A grade below another and below zero: the one credited rank outdoes the ideal ranking, or takes the wrong sign. */
  lemma {:induction false} UnequalNegative(grades: seq<Grade>, log2: real -> real)
    requires IsLog2(log2) && Dictionary(grades) && !NonNegative(grades) && !AllEqual(grades)
    ensures !AlwaysUnit(grades, log2)
  {
    WorstIsNegative(grades);
    if SortDescending(grades)[0].value != 0.0 {
      WorstFirst(grades, log2);
    } else {
      NegativeFirst(grades, log2);
    }
  }

  lemma {:induction false} WorstIsNegative(grades: seq<Grade>)
    requires Dictionary(grades) && !NonNegative(grades) && !AllEqual(grades)
    ensures |SortDescending(grades)| == |grades| >= 2
    ensures var s := SortDescending(grades); s[|s| - 1].value < 0.0 && s[|s| - 1].value < s[0].value
  {
    SortSorted(grades);
    LookupInTable(grades, 0);
    var s := SortDescending(grades);
    var low :| 0 <= low < |grades| && grades[low].value < 0.0;
    var i, j :| 0 <= i < j < |grades| && grades[i].value != grades[j].value;
    InSorted(grades, low);
    InSorted(grades, i);
    InSorted(grades, j);
  }

  lemma {:induction false} InSorted(grades: seq<Grade>, i: nat)
    requires i < |grades| && SortDescending(grades) != []
    ensures var s := SortDescending(grades); s[|s| - 1].value <= grades[i].value <= s[0].value
  {
    var s := SortDescending(grades);
    SortElements(grades, grades[i]);
    SortSorted(grades);
    var k :| 0 <= k < |s| && s[k] == grades[i];
  }

  lemma {:induction false} FirstNegative(s: seq<Grade>) returns (j: nat)
    requires Descending(s) && s != [] && s[0].value == 0.0 && s[|s| - 1].value < 0.0
    ensures 0 < j < |s| && s[j].value < 0.0 && forall i :: 0 <= i < j ==> At(Values(s), i) == 0.0
  {
    j := 1;
    while s[j].value >= 0.0
      invariant 0 < j < |s| && forall i :: 0 <= i < j ==> s[i].value == 0.0
      decreases |s| - j
    {
      j := j + 1;
    }
  }

  lemma {:induction false} FirstOutside(worst: real, best: real, d: real)
    requires worst < 0.0 && worst < best && best != 0.0 && d > 0.0
    ensures best / d != 0.0 && !Unit((worst / d) / (best / d))
  {
    var q := (worst / d) / (best / d);
    assert q == worst / best;
    assert q * best == worst;
    if best > 0.0 {
      assert q < 0.0;
    } else {
      assert q > 1.0;
    }
  }

  lemma {:induction false} LaterOutside(x: real, small: real, large: real)
    requires x < 0.0 < small < large
    ensures x / large != 0.0 && (x / small) / (x / large) > 1.0
  {
    var q := (x / small) / (x / large);
    assert q == large / small;
    assert q * small == large;
  }

  /** Where "" has a grade, a miss behind the ideal ranking is credited with it once more. */
  lemma {:induction false} GradedMiss(grades: seq<Grade>, log2: real -> real)
    requires IsLog2(log2) && Dictionary(grades) && Lookup(grades, "") != 0.0
    requires NonNegative(grades) || AllEqual(grades)
    ensures exists c: EvaluationCase, r, topK: nat ::
              c.grades == grades && topK >= 1 && Ndcg(c, r, topK, log2) > 1.0
  {
    var s, n := SortDescending(grades), |grades|;
    var ids := IdsOf(s) + [""];
    SortDictionary(grades);
    SortSorted(grades);
    assert |multiset(s)| == |multiset(grades)|;
    OnceEach(s);
    ProbeGains(grades, ids, n + 1);
    var c, r, gains := Probe(grades, ids), Returning(ids), GradesOf(grades, ids);
    forall i | 0 <= i < n ensures At(gains, i) == At(Values(s), i) {
      LookupInTable(grades, i);
    }
    GainSame(gains, Values(s), n, log2);
    var v, d := Lookup(grades, ""), Discount(log2, n);
    assert Dcg(c, r, n + 1, log2) == IdealDcg(c, n + 1, log2) + v / d;
    SameSign(grades, log2);
    SignedMore(IdealDcg(c, n + 1, log2), v, d);
    assert Ndcg(c, r, n + 1, log2) > 1.0;
  }

  function IdsOf(s: seq<Grade>): seq<string> {
    seq(|s|, i requires 0 <= i < |s| => s[i].id)
  }

  lemma {:induction false} OnceEach(s: seq<Grade>)
    requires Dictionary(s)
    ensures CreditedOnce(IdsOf(s) + [""])
  {
  }

  lemma {:induction false} SignedMore(ideal: real, v: real, d: real)
    requires d > 0.0 && ((v > 0.0 && ideal > 0.0) || (v < 0.0 && ideal < 0.0))
    ensures (ideal + v / d) / ideal > 1.0
  {
    var x := v / d;
    assert x * d == v;
    SameSignRatio(x, ideal);
    SplitRatio(x, ideal);
  }

  lemma {:induction false} SplitRatio(x: real, y: real)
    requires y != 0.0
    ensures (y + x) / y == 1.0 + x / y
  {
    if y > 0.0 {
      PositiveSplit(x, y);
    } else {
      RatioNegated(y + x, y);
      RatioNegated(x, y);
      PositiveSplit(-x, -y);
    }
  }

  lemma {:induction false} PositiveSplit(x: real, y: real)
    requires y > 0.0
    ensures (y + x) / y == 1.0 + x / y
  {
    Quotient(y + x, y, y);
  }

  lemma {:induction false} SameSignRatio(x: real, y: real)
    requires (x > 0.0 && y > 0.0) || (x < 0.0 && y < 0.0)
    ensures x / y > 0.0
  {
  }

  lemma {:induction false} NegativeIdeal(grades: seq<Grade>, e: nat, log2: real -> real)
    requires IsLog2(log2) && AllEqual(grades) && e < |grades| && grades[e].value < 0.0
    ensures Gain(Values(SortDescending(grades)), |SortDescending(grades)|, log2) < 0.0
  {
    var negated := Negated(grades);
    SortEqual(grades);
    assert forall j :: 0 <= j < |grades| ==> grades[j].value == grades[e].value;
    assert AllEqual(negated) && NonNegative(negated);
    SortEqual(negated);
    PositiveIdeal(negated, e, log2);
    GainNegated(Values(grades), Values(negated), |grades|, log2);
  }

  /** The ideal gain has the sign of the grade of "". */
  lemma {:induction false} SameSign(grades: seq<Grade>, log2: real -> real)
    requires IsLog2(log2) && Dictionary(grades) && Lookup(grades, "") != 0.0
    requires NonNegative(grades) || AllEqual(grades)
    ensures var v, g := Lookup(grades, ""), Gain(Values(SortDescending(grades)), |SortDescending(grades)|, log2);
            (v > 0.0 && g > 0.0) || (v < 0.0 && g < 0.0)
  {
    var e := LookupFound(grades, "");
    if NonNegative(grades) || grades[e].value > 0.0 {
      assert NonNegative(grades);
      PositiveIdeal(grades, e, log2);
    } else {
      NegativeIdeal(grades, e, log2);
    }
  }

  lemma {:induction false} LookupFound(grades: seq<Grade>, id: string) returns (i: nat)
    requires Lookup(grades, id) != 0.0
    ensures i < |grades| && grades[i].value == Lookup(grades, id)
  {
    if grades[0].id == id {
      i := 0;
    } else {
      i := LookupFound(grades[1..], id);
      i := i + 1;
    }
  }

  lemma {:induction false} PositiveIdeal(grades: seq<Grade>, e: nat, log2: real -> real)
    requires IsLog2(log2) && NonNegative(grades) && e < |grades| && grades[e].value > 0.0
    ensures Gain(Values(SortDescending(grades)), |SortDescending(grades)|, log2) > 0.0
  {
    var s := SortDescending(grades);
    SortElements(grades, grades[e]);
    SortNonNegative(grades);
    InSorted(grades, e);
    PositiveGain(Values(s), |s|, log2);
  }

  lemma {:induction false} PositiveGain(values: seq<real>, n: nat, log2: real -> real)
    requires IsLog2(log2) && 0 < n <= |values| && values[0] > 0.0 && forall i :: 0 <= i < |values| ==> values[i] >= 0.0
    ensures Gain(values, n, log2) > 0.0
  {
    Shrinks(values[n - 1], Discount(log2, n - 1), Discount(log2, n - 1));
    if n > 1 {
      PositiveGain(values, n - 1, log2);
    } else {
      assert Gain(values, 0, log2) == 0.0;
    }
  }

  /** NDCG lies in [0, 1] for every case and every result over a relevance table if and only if the table has no grade
      for "", and no negative grade or grades that are all the same. */
  lemma {:induction false} NdcgUnitExactly(grades: seq<Grade>, log2: real -> real)
    requires IsLog2(log2) && Dictionary(grades)
    ensures AlwaysUnit(grades, log2) <==> Lookup(grades, "") == 0.0 && (NonNegative(grades) || AllEqual(grades))
  {
    if !(NonNegative(grades) || AllEqual(grades)) {
      UnequalNegative(grades, log2);
    } else if Lookup(grades, "") != 0.0 {
      GradedMiss(grades, log2);
    } else {
      forall c: EvaluationCase, r, topK: nat | c.grades == grades && topK >= 1 ensures Unit(Ndcg(c, r, topK, log2)) {
        EqualTablesAreUnit(c, r, topK, log2);
      }
    }
  }
}
