/** What the scores of a case say about the ranks of its result. */
module CaseHits {
  import opened Finite
  import opened Fractions
  import opened CaseMetrics

  // ---- Which chunks are hit --------------------------------------------------------------------

  /** Chunk x stands with the last expected entry of hash h, among those that have an id as well as a hash. */
  ghost predicate StandsFor(c: EvaluationCase, h: string, x: string) {
    var n := Min(|c.expectedChunkHashes|, |c.expectedChunkIds|);
    exists j: nat :: LastOfHash(c.expectedChunkHashes, j, n) && c.expectedChunkHashes[j] == h
                     && c.expectedChunkIds[j] == x
  }

  /** Rank i names x: by its id, or, if that is not expected, by its hash. */
  ghost predicate Names(c: EvaluationCase, r: EvaluationResult, topK: nat, i: nat, x: string) {
    && i < topK && i < |r.returnedChunkIds| && x != ""
    && if r.returnedChunkIds[i] in c.expectedChunkIds then r.returnedChunkIds[i] == x
       else i < |r.returnedChunkHashes| && StandsFor(c, r.returnedChunkHashes[i], x)
  }

  lemma {:induction false} LastExists(hashes: seq<string>, h: string, n: nat) returns (j: nat)
    requires n <= |hashes| && h != "" && h in hashes[..n]
    ensures LastOfHash(hashes, j, n) && hashes[j] == h
  {
    if hashes[n - 1] == h {
      j := n - 1;
    } else {
      assert hashes[..n] == hashes[..n - 1] + [hashes[n - 1]];
      j := LastExists(hashes, h, n - 1);
    }
  }

  lemma {:induction false} TableExactly(c: EvaluationCase, h: string, x: string)
    ensures h in HashToExpected(c) && HashToExpected(c)[h] == x <==> StandsFor(c, h, x)
  {
    var hashes, ids, n := c.expectedChunkHashes, c.expectedChunkIds, Min(|c.expectedChunkHashes|, |c.expectedChunkIds|);
    HashTableKeys(hashes, ids, n);
    if StandsFor(c, h, x) {
      var j: nat :| LastOfHash(hashes, j, n) && hashes[j] == h && ids[j] == x;
      LastHashWins(hashes, ids, n, j);
    } else if h in HashToExpected(c) {
      var j := LastExists(hashes, h, n);
      LastHashWins(hashes, ids, n, j);
    }
  }

  lemma {:induction false} MatchedExactly(c: EvaluationCase, r: EvaluationResult, topK: nat, i: nat, x: string)
    requires i < |Take(r.returnedChunkIds, topK)| && x != ""
    ensures MatchedId(c, Take(r.returnedChunkIds, topK)[i], HashAt(r, topK, i)) == x <==> Names(c, r, topK, i, x)
  {
    var h, n := HashAt(r, topK, i), Min(|c.expectedChunkHashes|, |c.expectedChunkIds|);
    TableExactly(c, h, x);
    HashTableKeys(c.expectedChunkHashes, c.expectedChunkIds, n);
    assert h in c.expectedChunkHashes[..n] ==> h in c.expectedChunkHashes;
    assert !StandsFor(c, "", x);
  }

  /** The first n ranks are credited with what they are the first to name. */
  lemma {:induction false} CreditedUpTo(c: EvaluationCase, r: EvaluationResult, topK: nat, n: nat, i: nat, x: string)
    requires i < n <= |Take(r.returnedChunkIds, topK)| && x != ""
    ensures Resolved(c, r, topK, n)[i] == x
            <==> Names(c, r, topK, i, x) && forall j: nat :: j < i ==> !Names(c, r, topK, j, x)
    decreases n
  {
    if i < n - 1 {
      CreditedUpTo(c, r, topK, n - 1, i, x);
    } else {
      LastCredited(c, r, topK, i, x);
    }
  }

  lemma {:induction false} LastCredited(c: EvaluationCase, r: EvaluationResult, topK: nat, i: nat, x: string)
    requires i < |Take(r.returnedChunkIds, topK)| && x != ""
    ensures Resolved(c, r, topK, i + 1)[i] == x
            <==> Names(c, r, topK, i, x) && forall j: nat :: j < i ==> !Names(c, r, topK, j, x)
  {
    var before := Resolved(c, r, topK, i);
    var m := MatchedId(c, Take(r.returnedChunkIds, topK)[i], HashAt(r, topK, i));
    assert Resolved(c, r, topK, i + 1) == before + [if m in before then "" else m];
    MatchedExactly(c, r, topK, i, x);
    NamedBefore(c, r, topK, i, x);
  }

  lemma {:induction false} NamedBefore(c: EvaluationCase, r: EvaluationResult, topK: nat, n: nat, x: string)
    requires n <= |Take(r.returnedChunkIds, topK)| && x != ""
    ensures x in Resolved(c, r, topK, n) <==> exists j: nat :: j < n && Names(c, r, topK, j, x)
    decreases n
  {
    if n > 0 {
      NamedBefore(c, r, topK, n - 1, x);
      MatchedExactly(c, r, topK, n - 1, x);
    }
  }

  /** Rank i (counted from 0) is credited with chunk x if and only if it is the first to name it. */
  lemma {:induction false} CreditedExactly(c: EvaluationCase, r: EvaluationResult, topK: nat, i: nat, x: string)
    requires x != ""
    ensures i < |ResolvedAll(c, r, topK)| && ResolvedAll(c, r, topK)[i] == x
            <==> Names(c, r, topK, i, x) && forall j: nat :: j < i ==> !Names(c, r, topK, j, x)
  {
    if i < |ResolvedAll(c, r, topK)| {
      CreditedUpTo(c, r, topK, |ResolvedAll(c, r, topK)|, i, x);
    }
  }

  /** The chunks that are hit are those that some rank names. */
  lemma {:induction false} HitExactly(c: EvaluationCase, r: EvaluationResult, topK: nat, x: string)
    ensures x in Hit(ResolvedAll(c, r, topK)) <==> exists i: nat :: Names(c, r, topK, i, x)
  {
    if x != "" {
      NamedBefore(c, r, topK, |Take(r.returnedChunkIds, topK)|, x);
    }
  }

  /** Rank i (counted from 0) is the first that names an expected chunk. */
  ghost predicate FirstHit(c: EvaluationCase, r: EvaluationResult, topK: nat, i: nat) {
    (exists x :: Names(c, r, topK, i, x)) && forall j: nat, x :: j < i ==> !Names(c, r, topK, j, x)
  }

  lemma {:induction false} FirstHitRank(c: EvaluationCase, r: EvaluationResult, topK: nat, i: nat)
    requires FirstHit(c, r, topK, i)
    ensures FirstRank(HitsOf(ResolvedAll(c, r, topK))) == i + 1
  {
    var resolved := ResolvedAll(c, r, topK);
    var x :| Names(c, r, topK, i, x);
    CreditedExactly(c, r, topK, i, x);
    assert HitsOf(resolved)[i];
    forall j: nat | j < i ensures !HitsOf(resolved)[j] {
      if resolved[j] != "" {
        CreditedExactly(c, r, topK, j, resolved[j]);
      }
    }
  }

  lemma {:induction false} FractionTimes(share: real, part: nat, whole: nat)
    requires share == Fraction(part, whole) && (whole == 0 ==> part == 0)
    ensures IsShare(share, part, whole)
  {
  }

  predicate ShouldPass(c: EvaluationCase, r: EvaluationResult, hit: bool) {
    !r.hasError && r.leakedChunkIds == [] && r.answerable == c.answerable && (c.answerable ==> hit)
  }

  ghost predicate AreNamed(c: EvaluationCase, r: EvaluationResult, topK: nat, named: set<string>) {
    forall x :: x in named <==> exists i: nat :: Names(c, r, topK, i, x)
  }

  lemma {:induction false} NamedAreHit(c: EvaluationCase, r: EvaluationResult, topK: nat, named: set<string>)
    requires AreNamed(c, r, topK, named)
    ensures named == Hit(ResolvedAll(c, r, topK)) && |named| <= |Elements(c.expectedChunkIds)|
  {
    forall x ensures x in named <==> x in Hit(ResolvedAll(c, r, topK)) {
      HitExactly(c, r, topK, x);
    }
    assert named == Hit(ResolvedAll(c, r, topK));
    HitsBounded(c, r, topK);
  }

  lemma {:induction false} PrecisionTimes(c: EvaluationCase, hitCount: nat, topK: nat)
    requires topK >= 1
    ensures IsShare(Precision(c, hitCount, topK), if c.answerable then hitCount else 0, topK)
  {
    FractionTimes(Precision(c, hitCount, topK), if c.answerable then hitCount else 0, topK);
  }

  lemma {:induction false} PassedExactly(c: EvaluationCase, r: EvaluationResult, hitCount: nat)
    ensures Passed(c, r, hitCount) <==> ShouldPass(c, r, hitCount > 0)
  {
  }

  lemma {:induction false} ReciprocalRankOf(c: EvaluationCase, r: EvaluationResult, topK: nat)
    ensures forall i: nat :: FirstHit(c, r, topK, i) ==>
              ReciprocalRank(ResolvedAll(c, r, topK)) == 1.0 / (i + 1) as real
    ensures Hit(ResolvedAll(c, r, topK)) == {} ==> ReciprocalRank(ResolvedAll(c, r, topK)) == 0.0
  {
    FirstRankExactly(ResolvedAll(c, r, topK));
    forall i: nat | FirstHit(c, r, topK, i)
      ensures ReciprocalRank(ResolvedAll(c, r, topK)) == 1.0 / (i + 1) as real
    {
      FirstHitRank(c, r, topK, i);
    }
  }

  predicate IsShare(share: real, part: nat, whole: nat) {
    share * whole as real == part as real
  }

  /** What a tuple of scores says about the chunks that ranks name. */
  ghost predicate Says(s: Scores, c: EvaluationCase, r: EvaluationResult, topK: nat, named: set<string>) {
    && IsShare(s.precision, if c.answerable then |named| else 0, topK)
    && IsShare(s.recall, |named|, |Elements(c.expectedChunkIds)|)
    && s.hit == (if named != {} then 1.0 else 0.0) && (named == {} ==> s.reciprocalRank == 0.0)
    && (forall i: nat :: FirstHit(c, r, topK, i) ==> s.reciprocalRank == 1.0 / (i + 1) as real)
    && (s.passed <==> ShouldPass(c, r, named != {}))
  }

  lemma {:induction false} CountsSay(s: Scores, c: EvaluationCase, r: EvaluationResult, topK: nat, named: set<string>)
    requires topK >= 1 && AreNamed(c, r, topK, named)
    requires s.precision == Precision(c, |named|, topK)
    requires s.recall == Fraction(|named|, |Elements(c.expectedChunkIds)|)
    requires s.hit == (if |named| > 0 then 1.0 else 0.0) && s.reciprocalRank == ReciprocalRank(ResolvedAll(c, r, topK))
    requires s.passed == Passed(c, r, |named|)
    ensures Says(s, c, r, topK, named)
  {
    NamedAreHit(c, r, topK, named);
    PrecisionTimes(c, |named|, topK);
    FractionTimes(s.recall, |named|, |Elements(c.expectedChunkIds)|);
    ReciprocalRankOf(c, r, topK);
    PassedExactly(c, r, |named|);
  }

  /** What the scores of a case say about the chunks that its ranks name. */
  lemma {:induction false} ScoresByRanks(c: EvaluationCase, r: EvaluationResult, topK: nat, log2: real -> real,
                                         named: set<string>)
    requires IsLog2(log2) && topK >= 1 && AreNamed(c, r, topK, named)
    ensures Says(ScoresOf(c, r, topK, log2), c, r, topK, named)
  {
    NamedAreHit(c, r, topK, named);
    CountsSay(ScoresOf(c, r, topK, log2), c, r, topK, named);
  }

  predicate Returned(docs: seq<string>, topK: nat, d: string) {
    exists i :: 0 <= i < topK && i < |docs| && docs[i] == d
  }

  lemma {:induction false} ReturnedExactly(docs: seq<string>, topK: nat, d: string)
    ensures Returned(docs, topK, d) <==> d in Take(docs, topK)
  {
    var first := Take(docs, topK);
    if d in first {
      var i :| 0 <= i < |first| && first[i] == d;
      assert docs[i] == d;
    }
    if Returned(docs, topK, d) {
      var i :| 0 <= i < topK && i < |docs| && docs[i] == d;
      assert first[i] == d;
    }
  }

  /** The expected documents among the first topK returned ones are counted, each once. */
  lemma {:induction false} DocRecallExactly(c: EvaluationCase, r: EvaluationResult, topK: nat, found: set<string>)
    requires forall d :: d in found <==> d in c.expectedDocIds && Returned(r.returnedDocIds, topK, d)
    ensures IsShare(DocRecall(c, r, topK), |found|, |Elements(c.expectedDocIds)|)
  {
    forall d ensures d in found <==> d in DocHits(c, r, topK) {
      ReturnedExactly(r.returnedDocIds, topK, d);
    }
    assert found == DocHits(c, r, topK);
    SubsetSize(found, Elements(c.expectedDocIds));
    FractionTimes(DocRecall(c, r, topK), |found|, |Elements(c.expectedDocIds)|);
  }

  // ---- The weight of one rank ------------------------------------------------------------------

  ghost predicate IsBinary(log2: real -> real) {
    log2(2.0) == 1.0 && forall x: real :: x > 0.0 ==> log2(2.0 * x) == log2(x) + 1.0
  }

  function Power(k: nat): (p: nat)
    ensures p >= 1
  {
    if k == 0 then 1 else 2 * Power(k - 1)
  }

  lemma {:induction false} LogOfPower(log2: real -> real, k: nat)
    requires IsBinary(log2) && k >= 1
    ensures log2(Power(k) as real) == k as real
  {
    if k == 1 {
      assert Power(1) == 2 * Power(0);
    } else {
      LogOfPower(log2, k - 1);
      assert Power(k) as real == 2.0 * Power(k - 1) as real;
    }
  }

  lemma {:induction false} NothingBefore(s: seq<real>, n: nat, log2: real -> real)
    requires IsLog2(log2) && forall i :: 0 <= i < n && i < |s| ==> s[i] == 0.0
    ensures Gain(s, n, log2) == 0.0
  {
    if n > 0 {
      NothingBefore(s, n - 1, log2);
    }
  }

  /** The first rank counts in full, the third one half, the seventh a third, and so on. */
  lemma {:induction false} RankWeight(s: seq<real>, k: nat, log2: real -> real)
    requires IsLog2(log2) && IsBinary(log2) && k >= 1 && Power(k) - 2 < |s|
    requires forall i :: 0 <= i < |s| && i != Power(k) - 2 ==> s[i] == 0.0
    ensures Gain(s, |s|, log2) == s[Power(k) - 2] / k as real
  {
    LogOfPower(log2, k);
    NothingBefore(s, Power(k) - 2, log2);
    OneGain(s, Power(k) - 2, |s|, log2);
  }

  lemma {:induction false} OneGain(s: seq<real>, i: nat, n: nat, log2: real -> real)
    requires IsLog2(log2) && i < n <= |s| && Gain(s, i, log2) == 0.0
    requires forall j :: i < j < |s| ==> s[j] == 0.0
    ensures Gain(s, n, log2) == s[i] / Discount(log2, i)
    decreases n
  {
    if n > i + 1 {
      OneGain(s, i, n - 1, log2);
    }
  }

  lemma {:induction false} NoHitBefore(hits: seq<bool>)
    requires forall j :: 0 <= j < |hits| ==> !hits[j]
    ensures CountHits(hits) == 0 && ApSum(hits) == 0.0
  {
    if hits != [] {
      NoHitBefore(hits[..|hits| - 1]);
    }
  }

  /** A rank that is hit adds the share of hits up to and with it, wherever the others are. */
  lemma {:induction false} HitAdds(hits: seq<bool>, i: nat, found: set<nat>)
    requires i < |hits| && hits[i] && forall j: nat :: j in found <==> j <= i && hits[j]
    ensures ApSum(hits[..i + 1]) == ApSum(hits[..i]) + |found| as real / (i + 1) as real
  {
    assert hits[..i + 1][..i] == hits[..i];
    CountsFound(hits, i + 1, found);
  }

  lemma {:induction false} CountsFound(hits: seq<bool>, n: nat, found: set<nat>)
    requires n <= |hits| && forall j: nat :: j in found <==> j < n && hits[j]
    ensures CountHits(hits[..n]) == |found|
  {
    if n == 0 {
      assert found == {};
    } else {
      assert hits[..n][..n - 1] == hits[..n - 1];
      CountsFound(hits, n - 1, found - {n - 1});
    }
  }
}
