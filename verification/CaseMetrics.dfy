/** Retrieval metrics of one evaluation case. */
module CaseMetrics {
  import opened Finite
  import opened Fractions

  datatype Grade = Grade(id: string, value: real)

  /** The fields of a case that its metrics read. `grades` is the relevance table, one entry per chunk id. */
  datatype EvaluationCase = EvaluationCase(
    id: string,
    category: string,
    answerable: bool,
    active: bool,
    expectedChunkIds: seq<string>,
    expectedChunkHashes: seq<string>,
    expectedDocIds: seq<string>,
    grades: seq<Grade>)

  datatype EvaluationResult = EvaluationResult(
    caseId: string,
    returnedChunkIds: seq<string>,
    returnedChunkHashes: seq<string>,
    returnedDocIds: seq<string>,
    answerable: bool,
    hasError: bool,
    leakedChunkIds: seq<string>,
    stability: real)

  datatype Scores = Scores(
    precision: real,
    recall: real,
    hit: real,
    reciprocalRank: real,
    averagePrecision: real,
    ndcg: real,
    docRecall: real,
    passed: bool)

  function Take<T>(s: seq<T>, k: nat): seq<T> {
    if k < |s| then s[..k] else s
  }

  function Min(a: int, b: int): int {
    if a < b then a else b
  }

  // Which expected chunk each rank hits.

  /** The hash table of a case over its first n (hash, id) pairs; a later pair replaces an earlier one. */
  function HashTable(hashes: seq<string>, ids: seq<string>, n: nat): map<string, string>
    requires n <= |hashes| && n <= |ids|
  {
    if n == 0 then map[]
    else if hashes[n - 1] != "" then HashTable(hashes, ids, n - 1)[hashes[n - 1] := ids[n - 1]]
    else HashTable(hashes, ids, n - 1)
  }

  function HashToExpected(c: EvaluationCase): map<string, string> {
    HashTable(c.expectedChunkHashes, c.expectedChunkIds, Min(|c.expectedChunkHashes|, |c.expectedChunkIds|))
  }

  /** The expected chunk that a returned (id, hash) stands for, or "". */
  function MatchedId(c: EvaluationCase, chunkId: string, hash: string): string {
    if chunkId in c.expectedChunkIds then chunkId
    else if hash != "" && hash in c.expectedChunkHashes && hash in HashToExpected(c) then HashToExpected(c)[hash]
    else ""
  }

  function HashAt(r: EvaluationResult, topK: nat, i: nat): string {
    if i < |Take(r.returnedChunkHashes, topK)| then Take(r.returnedChunkHashes, topK)[i] else ""
  }

  /** For the first n ranks: the chunk that the rank is the first to hit, or "". */
  function Resolved(c: EvaluationCase, r: EvaluationResult, topK: nat, n: nat): (s: seq<string>)
    requires n <= |Take(r.returnedChunkIds, topK)|
    ensures |s| == n
  {
    if n == 0 then []
    else
      var before := Resolved(c, r, topK, n - 1);
      var m := MatchedId(c, Take(r.returnedChunkIds, topK)[n - 1], HashAt(r, topK, n - 1));
      before + [if m in before then "" else m]
  }

  function ResolvedAll(c: EvaluationCase, r: EvaluationResult, topK: nat): seq<string> {
    Resolved(c, r, topK, |Take(r.returnedChunkIds, topK)|)
  }

  function HitsOf(resolved: seq<string>): seq<bool> {
    seq(|resolved|, i requires 0 <= i < |resolved| => resolved[i] != "")
  }

  /** The hit ids, without the empty marker. */
  function Hit(resolved: seq<string>): set<string> {
    Elements(resolved) - {""}
  }

  /** No chunk is credited twice. */
  ghost predicate CreditedOnce(resolved: seq<string>) {
    forall i, j :: 0 <= i < j < |resolved| && resolved[i] != "" ==> resolved[i] != resolved[j]
  }

  lemma {:induction false} HashTableRange(hashes: seq<string>, ids: seq<string>, n: nat)
    requires n <= |hashes| && n <= |ids|
    ensures forall h :: h in HashTable(hashes, ids, n) ==> HashTable(hashes, ids, n)[h] in ids
  {
    if n > 0 {
      HashTableRange(hashes, ids, n - 1);
    }
  }

  /** Every credited chunk is expected, and credited at one rank only, also when a backend repeats results or
      reports the same chunk once by id and once by hash. */
  lemma {:induction false} ResolvedNew(c: EvaluationCase, r: EvaluationResult, topK: nat, n: nat)
    requires n <= |Take(r.returnedChunkIds, topK)|
    ensures CreditedOnce(Resolved(c, r, topK, n))
    ensures Hit(Resolved(c, r, topK, n)) <= Elements(c.expectedChunkIds)
  {
    if n > 0 {
      ResolvedNew(c, r, topK, n - 1);
      HashTableRange(c.expectedChunkHashes, c.expectedChunkIds, Min(|c.expectedChunkHashes|, |c.expectedChunkIds|));
    }
  }

  // Sums over ranks.

  function CountHits(hits: seq<bool>): nat {
    if hits == [] then 0 else CountHits(hits[..|hits| - 1]) + if hits[|hits| - 1] then 1 else 0
  }

  /** The sum of the precisions at the hit ranks. */
  function ApSum(hits: seq<bool>): real {
    if hits == [] then 0.0
    else ApSum(hits[..|hits| - 1]) + if hits[|hits| - 1] then CountHits(hits) as real / |hits| as real else 0.0
  }

  function FirstRank(hits: seq<bool>): (rank: nat)
    ensures rank <= |hits|
    ensures rank > 0 ==> hits[rank - 1] && forall i :: 0 <= i < rank - 1 ==> !hits[i]
    ensures rank == 0 ==> forall i :: 0 <= i < |hits| ==> !hits[i]
  {
    if hits == [] then 0
    else if hits[0] then 1
    else var rest := FirstRank(hits[1..]); if rest == 0 then 0 else rest + 1
  }

  function At(s: seq<real>, i: nat): real {
    if i < |s| then s[i] else 0.0
  }

  /** What a gain at index i (counted from 0) is divided by: the binary logarithm of i + 2. */
  function Discount(log2: real -> real, i: nat): real {
    log2((i + 2) as real)
  }

  /** The logarithm is used through two facts only: it is positive and increasing from 2 on. */
  ghost predicate IsLog2(log2: real -> real) {
    && (forall i: nat :: Discount(log2, i) > 0.0)
    && (forall i: nat, j: nat :: i < j ==> Discount(log2, i) < Discount(log2, j))
  }

  /** The first n gains, each discounted by its rank. */
  function Gain(s: seq<real>, n: nat, log2: real -> real): real
    requires IsLog2(log2)
  {
    if n == 0 then 0.0 else Gain(s, n - 1, log2) + At(s, n - 1) / Discount(log2, n - 1)
  }

  function Prefix(s: seq<real>, n: nat): real {
    if n == 0 then 0.0 else Prefix(s, n - 1) + At(s, n - 1)
  }

  // The relevance table.

  function Lookup(grades: seq<Grade>, id: string): real {
    if grades == [] then 0.0 else if grades[0].id == id then grades[0].value else Lookup(grades[1..], id)
  }

  function GradesOf(grades: seq<Grade>, ids: seq<string>): seq<real> {
    seq(|ids|, i requires 0 <= i < |ids| => Lookup(grades, ids[i]))
  }

  function Insert(g: Grade, s: seq<Grade>): seq<Grade> {
    if s == [] || g.value >= s[0].value then [g] + s else [s[0]] + Insert(g, s[1..])
  }

  /** The table by descending grade. */
  function SortDescending(s: seq<Grade>): seq<Grade> {
    if s == [] then [] else Insert(s[0], SortDescending(s[1..]))
  }

  function Values(s: seq<Grade>): seq<real> {
    seq(|s|, i requires 0 <= i < |s| => s[i].value)
  }

  function Ideal(c: EvaluationCase, topK: nat): seq<real> {
    Take(Values(SortDescending(c.grades)), topK)
  }

  /** The table has one entry for each of its ids. */
  ghost predicate Dictionary(grades: seq<Grade>) {
    forall i, j :: 0 <= i < j < |grades| ==> grades[i].id != grades[j].id
  }

  ghost predicate NonNegative(grades: seq<Grade>) {
    forall i :: 0 <= i < |grades| ==> grades[i].value >= 0.0
  }

  /** No grade is negative, and "", which stands for a rank that hits nothing, has none. */
  ghost predicate WellGraded(grades: seq<Grade>) {
    Dictionary(grades) && NonNegative(grades) && Lookup(grades, "") == 0.0
  }

  ghost predicate Descending(s: seq<Grade>) {
    forall i, j :: 0 <= i < j < |s| ==> s[i].value >= s[j].value
  }

  lemma {:induction false} InsertPermutes(g: Grade, s: seq<Grade>)
    ensures multiset(Insert(g, s)) == multiset(s) + multiset{g}
  {
    if s == [] || g.value >= s[0].value {
    } else {
      InsertPermutes(g, s[1..]);
      assert s == [s[0]] + s[1..];
    }
  }

  lemma {:induction false} InsertSorted(g: Grade, s: seq<Grade>)
    requires Descending(s)
    ensures Descending(Insert(g, s))
  {
    if s == [] || g.value >= s[0].value {
    } else {
      InsertSorted(g, s[1..]);
      InsertPermutes(g, s[1..]);
      var t := Insert(g, s[1..]);
      forall i | 0 <= i < |t| ensures s[0].value >= t[i].value {
        InsertElements(g, s[1..], t[i]);
      }
    }
  }

  /** The ideal ranking is a permutation of the table in descending order. */
  lemma {:induction false} SortSorted(s: seq<Grade>)
    ensures Descending(SortDescending(s)) && multiset(SortDescending(s)) == multiset(s)
  {
    if s != [] {
      SortSorted(s[1..]);
      InsertSorted(s[0], SortDescending(s[1..]));
      InsertPermutes(s[0], SortDescending(s[1..]));
      assert s == [s[0]] + s[1..];
    }
  }

  lemma {:induction false} InsertElements(g: Grade, s: seq<Grade>, e: Grade)
    ensures e in Insert(g, s) <==> e == g || e in s
  {
    InsertPermutes(g, s);
    assert e in Insert(g, s) <==> e in multiset(Insert(g, s));
  }

  lemma {:induction false} InsertDictionary(g: Grade, s: seq<Grade>)
    requires Dictionary(s) && forall e :: e in s ==> e.id != g.id
    ensures Dictionary(Insert(g, s))
  {
    if s == [] || g.value >= s[0].value {
    } else {
      InsertDictionary(g, s[1..]);
      var t := Insert(g, s[1..]);
      forall j | 0 <= j < |t| ensures t[j].id != s[0].id {
        InsertElements(g, s[1..], t[j]);
      }
    }
  }

  lemma {:induction false} InsertLookup(g: Grade, s: seq<Grade>, id: string)
    requires forall e :: e in s ==> e.id != g.id
    ensures Lookup(Insert(g, s), id) == if id == g.id then g.value else Lookup(s, id)
  {
    if s == [] || g.value >= s[0].value {
      assert ([g] + s)[1..] == s;
    } else {
      InsertLookup(g, s[1..], id);
      assert ([s[0]] + Insert(g, s[1..]))[1..] == Insert(g, s[1..]);
    }
  }

  lemma {:induction false} SortDictionary(s: seq<Grade>)
    requires Dictionary(s)
    ensures Dictionary(SortDescending(s))
  {
    if s != [] {
      SortDictionary(s[1..]);
      SortKeepsOut(s);
      InsertDictionary(s[0], SortDescending(s[1..]));
    }
  }

  lemma {:induction false} SortElements(s: seq<Grade>, e: Grade)
    ensures e in SortDescending(s) <==> e in s
  {
    SortSorted(s);
    assert e in SortDescending(s) <==> e in multiset(SortDescending(s));
  }

  lemma {:induction false} SortNonNegative(s: seq<Grade>)
    requires NonNegative(s)
    ensures NonNegative(SortDescending(s))
  {
    var t := SortDescending(s);
    forall i | 0 <= i < |t| ensures t[i].value >= 0.0 {
      SortElements(s, t[i]);
    }
  }

  lemma {:induction false} SortKeepsOut(s: seq<Grade>)
    requires Dictionary(s) && s != []
    ensures forall e :: e in SortDescending(s[1..]) ==> e.id != s[0].id
  {
    SortSorted(s[1..]);
    forall e | e in SortDescending(s[1..]) ensures e.id != s[0].id {
      assert e in multiset(SortDescending(s[1..]));
    }
  }

  lemma {:induction false} SortLookup(s: seq<Grade>, id: string)
    requires Dictionary(s)
    ensures Lookup(SortDescending(s), id) == Lookup(s, id)
  {
    if s != [] {
      SortLookup(s[1..], id);
      SortKeepsOut(s);
      InsertLookup(s[0], SortDescending(s[1..]), id);
    }
  }

  // The rearrangement argument: ranks of distinct chunks never beat the ideal ranking.

  function Sum(s: seq<real>): real {
    if s == [] then 0.0 else s[0] + Sum(s[1..])
  }

  lemma {:induction false} SumDrop(s: seq<real>, i: nat)
    requires i < |s|
    ensures Sum(s) == s[i] + Sum(s[..i] + s[i + 1..])
  {
    if i == 0 {
      assert s[..0] + s[1..] == s[1..];
    } else {
      SumDrop(s[1..], i - 1);
      assert s[1..][..i - 1] + s[1..][i..] == (s[..i] + s[i + 1..])[1..];
    }
  }

  function TopSum(s: seq<Grade>, n: nat): real {
    if n == 0 || s == [] then 0.0 else s[0].value + TopSum(s[1..], n - 1)
  }

  lemma {:induction false} LookupBounds(s: seq<Grade>, id: string, top: real)
    requires NonNegative(s) && top >= 0.0 && forall i :: 0 <= i < |s| ==> s[i].value <= top
    ensures 0.0 <= Lookup(s, id) <= top
  {
    if s != [] {
      LookupBounds(s[1..], id, top);
    }
  }

  lemma {:induction false} TopSumGrows(s: seq<Grade>, n: nat)
    requires NonNegative(s)
    ensures 0.0 <= TopSum(s, n) <= TopSum(s, n + 1)
  {
    if n > 0 && s != [] {
      TopSumGrows(s[1..], n - 1);
    } else if s != [] {
      TopSumGrows(s[1..], 0);
    }
  }

  lemma {:induction false} GradesWithout(s: seq<Grade>, ids: seq<string>)
    requires s != [] && s[0].id !in ids
    ensures GradesOf(s, ids) == GradesOf(s[1..], ids)
  {
  }

  /** Any n distinct chunks have together at most the n highest grades. */
  lemma {:induction false} TopSumBound(s: seq<Grade>, ids: seq<string>, n: nat)
    requires Dictionary(s) && NonNegative(s) && Descending(s) && Distinct(ids) && |ids| <= n
    ensures Sum(GradesOf(s, ids)) <= TopSum(s, n)
    decreases |s|
  {
    TopSumGrows(s, n);
    if ids == [] {
    } else if s == [] {
      AllUngraded(ids);
    } else {
      var i := if s[0].id in ids then IndexOf(ids, s[0].id) else 0;
      var rest := ids[..i] + ids[i + 1..];
      SumDrop(GradesOf(s, ids), i);
      assert GradesOf(s, ids)[..i] + GradesOf(s, ids)[i + 1..] == GradesOf(s, rest);
      assert s[0].id !in rest;
      GradesWithout(s, rest);
      LookupBounds(s, ids[i], s[0].value);
      TopSumBound(s[1..], rest, n - 1);
    }
  }

  function IndexOf(ids: seq<string>, id: string): (i: nat)
    requires id in ids
    ensures i < |ids| && ids[i] == id
  {
    if ids[0] == id then 0 else 1 + IndexOf(ids[1..], id)
  }

  lemma {:induction false} AllUngraded(ids: seq<string>)
    ensures Sum(GradesOf([], ids)) == 0.0
  {
    if ids != [] {
      AllUngraded(ids[1..]);
      assert GradesOf([], ids)[1..] == GradesOf([], ids[1..]);
    }
  }

  // From prefix sums to discounted sums.

  lemma {:induction false} PrefixSum(s: seq<real>, n: nat)
    requires n <= |s|
    ensures Prefix(s, n) == Sum(s[..n])
  {
    if n > 0 {
      PrefixSum(s, n - 1);
      SumDrop(s[..n], n - 1);
      assert s[..n][..n - 1] + s[..n][n..] == s[..n - 1];
    }
  }

  lemma {:induction false} PrefixBeyond(s: seq<real>, n: nat)
    requires n >= |s|
    ensures Prefix(s, n) == Prefix(s, |s|)
    decreases n
  {
    if n > |s| {
      PrefixBeyond(s, n - 1);
    }
  }

  lemma {:induction false} GainBeyond(s: seq<real>, n: nat, log2: real -> real)
    requires IsLog2(log2) && n >= |s|
    ensures Gain(s, n, log2) == Gain(s, |s|, log2)
    decreases n
  {
    if n > |s| {
      GainBeyond(s, n - 1, log2);
    }
  }

  /** Dominated prefix sums are dominated after discounting, by at least the last discount of the difference. */
  lemma {:induction false} Dominated(a: seq<real>, s: seq<real>, n: nat, log2: real -> real)
    requires IsLog2(log2) && n > 0
    requires forall k: nat :: k <= n ==> Prefix(a, k) <= Prefix(s, k)
    ensures Gain(s, n, log2) - Gain(a, n, log2) >= (Prefix(s, n) - Prefix(a, n)) / Discount(log2, n - 1)
    ensures Gain(a, n, log2) <= Gain(s, n, log2)
    ensures Gain(a, n, log2) == Gain(s, n, log2) ==> forall k: nat :: k <= n ==> Prefix(a, k) == Prefix(s, k)
  {
    var d := Discount(log2, n - 1);
    var before, now := Prefix(s, n - 1) - Prefix(a, n - 1), Prefix(s, n) - Prefix(a, n);
    assert d > 0.0 && before >= 0.0 && now >= 0.0;
    Quotient(At(s, n - 1), At(a, n - 1), d);
    Quotient(now, before, d);
    assert (At(s, n - 1) - At(a, n - 1)) / d == now / d - before / d;
    if n > 1 {
      Dominated(a, s, n - 1, log2);
      Shrinks(before, Discount(log2, n - 2), d);
    }
    Shrinks(now, d, d);
  }

  function NonEmpty(ids: seq<string>): seq<string> {
    if ids == [] then [] else (if ids[0] == "" then [] else [ids[0]]) + NonEmpty(ids[1..])
  }

  lemma {:induction false} NonEmptyProps(ids: seq<string>, grades: seq<Grade>)
    requires CreditedOnce(ids) && Lookup(grades, "") == 0.0
    ensures |NonEmpty(ids)| <= |ids| && forall x :: x in NonEmpty(ids) ==> x in ids && x != ""
    ensures Distinct(NonEmpty(ids))
    ensures Sum(GradesOf(grades, NonEmpty(ids))) == Sum(GradesOf(grades, ids))
  {
    if ids != [] {
      NonEmptyProps(ids[1..], grades);
      assert GradesOf(grades, ids)[1..] == GradesOf(grades, ids[1..]);
      if ids[0] != "" {
        assert GradesOf(grades, NonEmpty(ids))[1..] == GradesOf(grades, NonEmpty(ids[1..]));
        assert ids[0] !in ids[1..];
      } else {
        assert NonEmpty(ids) == NonEmpty(ids[1..]);
      }
    }
  }

  lemma {:induction false} TopSumPrefix(s: seq<Grade>, n: nat)
    ensures TopSum(s, n) == Prefix(Values(s), n)
  {
    if n > 0 {
      TopSumPrefix(s, n - 1);
      TopSumLast(s, n - 1);
    }
  }

  lemma {:induction false} TopSumLast(s: seq<Grade>, n: nat)
    ensures TopSum(s, n + 1) == TopSum(s, n) + At(Values(s), n)
  {
    if s != [] && n > 0 {
      TopSumLast(s[1..], n - 1);
    }
  }

  lemma {:induction false} PrefixTake(s: seq<real>, topK: nat, n: nat)
    requires n <= topK
    ensures Prefix(Take(s, topK), n) == Prefix(s, n)
  {
    if n > 0 {
      PrefixTake(s, topK, n - 1);
    }
  }

  function Gains(c: EvaluationCase, r: EvaluationResult, topK: nat): seq<real> {
    GradesOf(c.grades, ResolvedAll(c, r, topK))
  }

  /** At every cut-off the credited grades total at most the ideal ones. */
  lemma {:induction false} SortGrades(grades: seq<Grade>, ids: seq<string>)
    requires Dictionary(grades)
    ensures GradesOf(SortDescending(grades), ids) == GradesOf(grades, ids)
  {
    forall i | 0 <= i < |ids| ensures Lookup(grades, ids[i]) == Lookup(SortDescending(grades), ids[i]) {
      SortLookup(grades, ids[i]);
    }
  }

  /** No n ranks carry more than the first n ranks of the ideal ranking. */
  lemma {:induction false} CreditBound(c: EvaluationCase, ids: seq<string>, topK: nat, n: nat)
    requires WellGraded(c.grades) && CreditedOnce(ids) && |ids| <= n <= topK
    ensures Sum(GradesOf(c.grades, ids)) <= Prefix(Ideal(c, topK), n)
  {
    var sorted, found := SortDescending(c.grades), NonEmpty(ids);
    NonEmptyProps(ids, c.grades);
    SortSorted(c.grades);
    SortDictionary(c.grades);
    SortNonNegative(c.grades);
    SortGrades(c.grades, found);
    TopSumBound(sorted, found, n);
    TopSumPrefix(sorted, n);
    PrefixTake(Values(sorted), topK, n);
  }

  lemma {:induction false} GainsDominated(c: EvaluationCase, r: EvaluationResult, topK: nat, n: nat)
    requires WellGraded(c.grades) && n <= topK
    ensures Prefix(Gains(c, r, topK), n) <= Prefix(Ideal(c, topK), n)
  {
    var resolved := ResolvedAll(c, r, topK);
    var k := Min(n, |resolved|);
    var ids := resolved[..k];
    ResolvedNew(c, r, topK, |resolved|);
    CreditBound(c, ids, topK, n);
    PrefixSum(Gains(c, r, topK), k);
    assert Gains(c, r, topK)[..k] == GradesOf(c.grades, ids);
    if n > |resolved| {
      PrefixBeyond(Gains(c, r, topK), n);
    }
  }

  function Dcg(c: EvaluationCase, r: EvaluationResult, topK: nat, log2: real -> real): real
    requires IsLog2(log2)
  {
    Gain(Gains(c, r, topK), |Gains(c, r, topK)|, log2)
  }

  function IdealDcg(c: EvaluationCase, topK: nat, log2: real -> real): real
    requires IsLog2(log2)
  {
    Gain(Ideal(c, topK), |Ideal(c, topK)|, log2)
  }

  function Ndcg(c: EvaluationCase, r: EvaluationResult, topK: nat, log2: real -> real): real
    requires IsLog2(log2)
  {
    if IdealDcg(c, topK, log2) == 0.0 then 0.0 else Dcg(c, r, topK, log2) / IdealDcg(c, topK, log2)
  }

  lemma {:induction false} GainNonNegative(s: seq<real>, n: nat, log2: real -> real)
    requires IsLog2(log2) && forall i :: 0 <= i < |s| ==> s[i] >= 0.0
    ensures Gain(s, n, log2) >= 0.0
  {
    if n > 0 {
      GainNonNegative(s, n - 1, log2);
      Shrinks(At(s, n - 1), Discount(log2, n - 1), Discount(log2, n - 1));
    }
  }

  lemma {:induction false} GainsNonNegative(c: EvaluationCase, r: EvaluationResult, topK: nat)
    requires WellGraded(c.grades)
    ensures forall i :: 0 <= i < |Gains(c, r, topK)| ==> Gains(c, r, topK)[i] >= 0.0
  {
    forall i | 0 <= i < |Gains(c, r, topK)| ensures Gains(c, r, topK)[i] >= 0.0 {
      LookupNonNegative(c.grades, ResolvedAll(c, r, topK)[i]);
    }
  }

  lemma {:induction false} LookupNonNegative(s: seq<Grade>, id: string)
    requires forall i :: 0 <= i < |s| ==> s[i].value >= 0.0
    ensures Lookup(s, id) >= 0.0
  {
    if s != [] {
      LookupNonNegative(s[1..], id);
    }
  }

  /** Whatever a backend returns, NDCG lies in [0, 1]. It is 1 exactly when there is something to gain and the
      ranks carry, one by one, the grades of the ideal ranking. */
  lemma {:induction false} NdcgBounded(c: EvaluationCase, r: EvaluationResult, topK: nat, log2: real -> real)
    requires IsLog2(log2) && WellGraded(c.grades) && topK >= 1
    ensures 0.0 <= Ndcg(c, r, topK, log2) <= 1.0
    ensures Ndcg(c, r, topK, log2) == 1.0 <==>
              IdealDcg(c, topK, log2) > 0.0
              && forall i: nat :: i < topK ==> At(Gains(c, r, topK), i) == At(Ideal(c, topK), i)
  {
    var g, ideal := Gains(c, r, topK), Ideal(c, topK);
    GainsNonNegative(c, r, topK);
    GainNonNegative(g, |g|, log2);
    forall k: nat | k <= topK ensures Prefix(g, k) <= Prefix(ideal, k) {
      GainsDominated(c, r, topK, k);
    }
    Dominated(g, ideal, topK, log2);
    GainBeyond(g, topK, log2);
    GainBeyond(ideal, topK, log2);
    var dcg, idcg := Dcg(c, r, topK, log2), IdealDcg(c, topK, log2);
    assert 0.0 <= dcg <= idcg;
    if idcg > 0.0 {
      Ratio(dcg, idcg);
      if dcg == idcg {
        forall i: nat | i < topK ensures At(g, i) == At(ideal, i) {
          assert Prefix(g, i) == Prefix(ideal, i) && Prefix(g, i + 1) == Prefix(ideal, i + 1);
        }
      }
      if forall i: nat :: i < topK ==> At(g, i) == At(ideal, i) {
        GainSame(g, ideal, topK, log2);
      }
    }
  }

  lemma {:induction false} GainSame(a: seq<real>, b: seq<real>, n: nat, log2: real -> real)
    requires IsLog2(log2) && forall i: nat :: i < n ==> At(a, i) == At(b, i)
    ensures Gain(a, n, log2) == Gain(b, n, log2)
  {
    if n > 0 {
      GainSame(a, b, n - 1, log2);
    }
  }

  // Precision, recall, average precision.

  lemma {:induction false} CountBounds(hits: seq<bool>)
    ensures CountHits(hits) <= |hits|
  {
    if hits != [] {
      CountBounds(hits[..|hits| - 1]);
    }
  }

  /** One more rank credits its chunk, or nothing. */
  lemma {:induction false} HitStep(resolved: seq<string>, last: string)
    ensures Hit(resolved + [last]) == if last == "" then Hit(resolved) else Hit(resolved) + {last}
    ensures HitsOf(resolved + [last]) == HitsOf(resolved) + [last != ""]
  {
    assert Elements(resolved + [last]) == Elements(resolved) + {last};
  }

  lemma {:induction false} CountIsSize(resolved: seq<string>)
    requires CreditedOnce(resolved)
    ensures CountHits(HitsOf(resolved)) == |Hit(resolved)|
  {
    if resolved != [] {
      var rest, last := resolved[..|resolved| - 1], resolved[|resolved| - 1];
      assert resolved == rest + [last];
      CountIsSize(rest);
      HitStep(rest, last);
      CountLast(HitsOf(rest), last != "");
      if last != "" {
        CreditedLast(rest, last);
      }
    }
  }

  lemma {:induction false} CreditedLast(rest: seq<string>, last: string)
    requires CreditedOnce(rest + [last]) && last != ""
    ensures last !in Hit(rest)
  {
    var all := rest + [last];
    forall i | 0 <= i < |rest| ensures rest[i] != last {
      assert all[i] == rest[i] && all[|rest|] == last;
    }
  }

  lemma {:induction false} CountLast(hits: seq<bool>, last: bool)
    ensures CountHits(hits + [last]) == CountHits(hits) + if last then 1 else 0
  {
    assert (hits + [last])[..|hits|] == hits;
  }

  ghost predicate FrontHits(hits: seq<bool>, n: nat) {
    n <= |hits| && forall i :: 0 <= i < n ==> hits[i]
  }

  /** The precisions at the hit ranks add up to at most the number of hits, and to all of it exactly when the
      hits come first. */
  lemma {:induction false} ApSumBounds(hits: seq<bool>)
    ensures 0.0 <= ApSum(hits) <= CountHits(hits) as real
    ensures ApSum(hits) == CountHits(hits) as real <==> FrontHits(hits, CountHits(hits))
  {
    CountBounds(hits);
    if hits != [] {
      var rest, n := hits[..|hits| - 1], CountHits(hits);
      ApSumBounds(rest);
      CountBounds(rest);
      FrontOfRest(hits, n);
      if hits[|hits| - 1] {
        Ratio(n as real, |hits| as real);
        FrontOfRest(hits, n - 1);
      }
    }
  }

  /** How a prefix of hits shows in the list without its last rank. */
  lemma {:induction false} FrontOfRest(hits: seq<bool>, n: nat)
    requires hits != []
    ensures n < |hits| ==> (FrontHits(hits, n) <==> FrontHits(hits[..|hits| - 1], n))
    ensures n == CountHits(hits) && hits[|hits| - 1] ==> (FrontHits(hits, n) <==> n == |hits|)
    ensures n == |hits| - 1 == CountHits(hits[..|hits| - 1]) ==> FrontHits(hits, n)
  {
    var rest := hits[..|hits| - 1];
    assert forall i :: 0 <= i < |rest| ==> rest[i] == hits[i];
    if FrontHits(hits, n) {
      FrontCount(hits, n);
    }
    AllCounted(hits);
    AllCounted(rest);
  }

  lemma {:induction false} AllCounted(hits: seq<bool>)
    ensures CountHits(hits) == |hits| ==> FrontHits(hits, |hits|)
  {
    if hits != [] {
      AllCounted(hits[..|hits| - 1]);
      CountBounds(hits[..|hits| - 1]);
    }
  }

  /** A prefix of hits is counted in full. */
  lemma {:induction false} FrontCount(hits: seq<bool>, n: nat)
    requires FrontHits(hits, n)
    ensures CountHits(hits) >= n
    ensures n < |hits| && hits[|hits| - 1] ==> CountHits(hits) > n
    decreases |hits|
  {
    if hits != [] {
      var rest := hits[..|hits| - 1];
      if n <= |rest| {
        FrontCount(rest, n);
      } else {
        FrontCount(rest, n - 1);
      }
    }
  }

  function AveragePrecision(c: EvaluationCase, r: EvaluationResult, topK: nat): real {
    var expected := Elements(c.expectedChunkIds);
    if expected == {} || topK == 0 then 0.0
    else ApSum(HitsOf(ResolvedAll(c, r, topK))) / Min(|expected|, topK) as real
  }

  /** No more hits than expected chunks, nor than ranks. */
  lemma {:induction false} HitsBounded(c: EvaluationCase, r: EvaluationResult, topK: nat)
    ensures var resolved := ResolvedAll(c, r, topK);
            CountHits(HitsOf(resolved)) == |Hit(resolved)| <= Min(|Elements(c.expectedChunkIds)|, topK)
  {
    var resolved := ResolvedAll(c, r, topK);
    ResolvedNew(c, r, topK, |resolved|);
    CountIsSize(resolved);
    CountBounds(HitsOf(resolved));
    SubsetSize(Hit(resolved), Elements(c.expectedChunkIds));
  }

  /** Average precision lies in [0, 1], and is 1 exactly when the first min(|expected|, k) ranks are all new hits. */
  lemma {:induction false} AveragePrecisionBounded(c: EvaluationCase, r: EvaluationResult, topK: nat)
    requires topK >= 1
    ensures 0.0 <= AveragePrecision(c, r, topK) <= 1.0
    ensures AveragePrecision(c, r, topK) == 1.0 <==>
              c.expectedChunkIds != []
              && FrontHits(HitsOf(ResolvedAll(c, r, topK)), Min(|Elements(c.expectedChunkIds)|, topK))
  {
    var hits, expected := HitsOf(ResolvedAll(c, r, topK)), Elements(c.expectedChunkIds);
    if c.expectedChunkIds == [] {
      assert expected == {};
    } else {
      assert c.expectedChunkIds[0] in expected;
      var m := Min(|expected|, topK);
      HitsBounded(c, r, topK);
      ApSumBounds(hits);
      Ratio(ApSum(hits), m as real);
      if FrontHits(hits, m) {
        FrontCount(hits, m);
      }
    }
  }

  /** part / whole, and 0 for an empty whole. */
  function Fraction(part: nat, whole: nat): real {
    if whole == 0 then 0.0 else part as real / whole as real
  }

  function DocHits(c: EvaluationCase, r: EvaluationResult, topK: nat): set<string> {
    Elements(Take(r.returnedDocIds, topK)) * Elements(c.expectedDocIds)
  }

  /** All scores of a case, by definition. */
  function ScoresOf(c: EvaluationCase, r: EvaluationResult, topK: nat, log2: real -> real): Scores
    requires IsLog2(log2)
  {
    var hitCount := |Hit(ResolvedAll(c, r, topK))|;
    Scores(
      Precision(c, hitCount, topK),
      Fraction(hitCount, |Elements(c.expectedChunkIds)|),
      if hitCount > 0 then 1.0 else 0.0,
      ReciprocalRank(ResolvedAll(c, r, topK)),
      AveragePrecision(c, r, topK),
      Ndcg(c, r, topK, log2),
      DocRecall(c, r, topK),
      Passed(c, r, hitCount))
  }

  function Precision(c: EvaluationCase, hitCount: nat, topK: nat): real {
    if c.answerable then Fraction(hitCount, topK) else 0.0
  }

  function ReciprocalRank(resolved: seq<string>): real {
    Fraction(1, FirstRank(HitsOf(resolved)))
  }

  function DocRecall(c: EvaluationCase, r: EvaluationResult, topK: nat): real {
    Fraction(|DocHits(c, r, topK)|, |Elements(c.expectedDocIds)|)
  }

  predicate Passed(c: EvaluationCase, r: EvaluationResult, hitCount: nat) {
    && !r.hasError && r.leakedChunkIds == []
    && ((c.answerable && hitCount > 0 && r.answerable) || (!c.answerable && !r.answerable))
  }

  predicate Unit(x: real) {
    0.0 <= x <= 1.0
  }

  lemma {:induction false} FractionUnit(part: nat, whole: nat)
    requires part <= whole || whole == 0
    ensures Unit(Fraction(part, whole))
    ensures Fraction(part, whole) > 0.0 <==> part > 0 && whole > 0
  {
    if whole > 0 {
      Ratio(part as real, whole as real);
    }
  }

  /** Every score but NDCG is in [0, 1], for every case and every list a backend may return; a hit shows in three. */
  lemma {:induction false} ScoresBounded(c: EvaluationCase, r: EvaluationResult, topK: nat, log2: real -> real)
    requires IsLog2(log2) && topK >= 1
    ensures var s := ScoresOf(c, r, topK, log2);
            && Unit(s.precision) && Unit(s.recall) && Unit(s.hit) && Unit(s.reciprocalRank)
            && Unit(s.averagePrecision) && Unit(s.docRecall)
    ensures var s := ScoresOf(c, r, topK, log2);
            && (s.hit == 1.0 <==> s.recall > 0.0)
            && (s.hit == 1.0 <==> s.reciprocalRank > 0.0)
  {
    var hit := Hit(ResolvedAll(c, r, topK));
    HitsBounded(c, r, topK);
    FractionUnit(|hit|, topK);
    FractionUnit(|hit|, |Elements(c.expectedChunkIds)|);
    SubsetSize(DocHits(c, r, topK), Elements(c.expectedDocIds));
    FractionUnit(|DocHits(c, r, topK)|, |Elements(c.expectedDocIds)|);
    FirstRankExactly(ResolvedAll(c, r, topK));
    FractionUnit(1, FirstRank(HitsOf(ResolvedAll(c, r, topK))));
    AveragePrecisionBounded(c, r, topK);
  }

  lemma {:induction false} FirstRankExactly(resolved: seq<string>)
    ensures FirstRank(HitsOf(resolved)) > 0 <==> |Hit(resolved)| > 0
  {
    if FirstRank(HitsOf(resolved)) > 0 {
      assert resolved[FirstRank(HitsOf(resolved)) - 1] in Hit(resolved);
    }
    if x :| x in Hit(resolved) {
      var i :| 0 <= i < |resolved| && resolved[i] == x;
      assert HitsOf(resolved)[i];
    }
  }

  /** Entry j is the last one of its hash among the first n. */
  predicate LastOfHash(hashes: seq<string>, j: nat, n: nat)
    requires n <= |hashes|
  {
    j < n && hashes[j] != "" && forall k :: j < k < n ==> hashes[k] != hashes[j]
  }

  lemma {:induction false} HashTableKeys(hashes: seq<string>, ids: seq<string>, n: nat)
    requires n <= |hashes| && n <= |ids|
    ensures forall h :: h in HashTable(hashes, ids, n) <==> h != "" && h in hashes[..n]
  {
    if n > 0 {
      HashTableKeys(hashes, ids, n - 1);
      assert hashes[..n] == hashes[..n - 1] + [hashes[n - 1]];
    }
  }

  /** The last of several equal hashes wins. */
  lemma {:induction false} LastHashWins(hashes: seq<string>, ids: seq<string>, n: nat, j: nat)
    requires n <= |hashes| && n <= |ids| && LastOfHash(hashes, j, n)
    ensures hashes[j] in HashTable(hashes, ids, n) && HashTable(hashes, ids, n)[hashes[j]] == ids[j]
  {
    if j < n - 1 {
      LastHashWins(hashes, ids, n - 1, j);
    }
  }

  method BuildHashTable(c: EvaluationCase) returns (table: map<string, string>)
    ensures table == HashToExpected(c)
    ensures var hashes, n := c.expectedChunkHashes, Min(|c.expectedChunkHashes|, |c.expectedChunkIds|);
            && (forall h :: h in table <==> h != "" && h in hashes[..n])
            && (forall j: nat :: LastOfHash(hashes, j, n) ==>
                  hashes[j] in table && table[hashes[j]] == c.expectedChunkIds[j])
  {
    table := map[];
    for i := 0 to Min(|c.expectedChunkHashes|, |c.expectedChunkIds|)
      invariant table == HashTable(c.expectedChunkHashes, c.expectedChunkIds, i)
    {
      if c.expectedChunkHashes[i] != "" {
        table := table[c.expectedChunkHashes[i] := c.expectedChunkIds[i]];
      }
    }
    var hashes, ids, n := c.expectedChunkHashes, c.expectedChunkIds, Min(|c.expectedChunkHashes|, |c.expectedChunkIds|);
    HashTableKeys(hashes, ids, n);
    forall j: nat | LastOfHash(hashes, j, n) ensures hashes[j] in table && table[hashes[j]] == ids[j] {
      LastHashWins(hashes, ids, n, j);
    }
  }

  /** The hit detection loop: `matched` is the set against which repeats are recognised. */
  method ResolveHits(c: EvaluationCase, r: EvaluationResult, topK: nat)
    returns (hits: seq<bool>, resolved: seq<string>, matched: set<string>)
    ensures resolved == ResolvedAll(c, r, topK) && hits == HitsOf(resolved) && matched == Hit(resolved)
  {
    var returned, hashes := Take(r.returnedChunkIds, topK), Take(r.returnedChunkHashes, topK);
    var table := BuildHashTable(c);
    hits, resolved, matched := [], [], {};
    for i := 0 to |returned|
      invariant resolved == Resolved(c, r, topK, i) && hits == HitsOf(resolved) && matched == Hit(resolved)
    {
      var h := if i < |hashes| then hashes[i] else "";
      var matchedId := "";
      if returned[i] in c.expectedChunkIds {
        matchedId := returned[i];
      } else if h != "" && h in c.expectedChunkHashes {
        matchedId := if h in table then table[h] else "";
      }
      var isNewHit := matchedId != "" && matchedId !in matched;
      ResolvedStep(c, r, topK, i, matchedId);
      HitStep(resolved, if isNewHit then matchedId else "");
      hits := hits + [isNewHit];
      resolved := resolved + [if isNewHit then matchedId else ""];
      if isNewHit {
        matched := matched + {matchedId};
      }
    }
  }

  lemma {:induction false} ResolvedStep(c: EvaluationCase, r: EvaluationResult, topK: nat, i: nat, matchedId: string)
    requires i < |Take(r.returnedChunkIds, topK)|
    requires matchedId == MatchedId(c, Take(r.returnedChunkIds, topK)[i], HashAt(r, topK, i))
    ensures var before := Resolved(c, r, topK, i);
            Resolved(c, r, topK, i + 1)
            == before + [if matchedId != "" && matchedId !in Hit(before) then matchedId else ""]
  {
  }

  method SumPrecisions(hits: seq<bool>) returns (apSum: real)
    ensures apSum == ApSum(hits)
  {
    var hitsSoFar := 0;
    apSum := 0.0;
    for i := 0 to |hits|
      invariant hitsSoFar == CountHits(hits[..i]) && apSum == ApSum(hits[..i])
    {
      assert hits[..i + 1][..i] == hits[..i];
      if hits[i] {
        hitsSoFar := hitsSoFar + 1;
        apSum := apSum + hitsSoFar as real / (i + 1) as real;
      }
    }
    assert hits[..|hits|] == hits;
  }

  method DiscountedGain(grades: seq<Grade>, resolved: seq<string>, log2: real -> real) returns (dcg: real)
    requires IsLog2(log2)
    ensures dcg == Gain(GradesOf(grades, resolved), |resolved|, log2)
  {
    dcg := 0.0;
    for i := 0 to |resolved|
      invariant dcg == Gain(GradesOf(grades, resolved), i, log2)
    {
      dcg := dcg + Lookup(grades, resolved[i]) / Discount(log2, i);
    }
  }

  /** The loops of the source compute the scores as defined. */
  method CalculateCaseMetrics(c: EvaluationCase, r: EvaluationResult, topK: nat, log2: real -> real)
    returns (s: Scores)
    requires IsLog2(log2) && topK >= 1
    ensures s == ScoresOf(c, r, topK, log2)
  {
    var hits, resolved, matched := ResolveHits(c, r, topK);
    var expected, docs := Elements(c.expectedChunkIds), Elements(c.expectedDocIds);
    var hitCount := |matched|;
    var apSum := SumPrecisions(hits);
    var averagePrecision := if expected != {} then apSum / Min(|expected|, topK) as real else 0.0;
    var dcg := DiscountedGain(c.grades, resolved, log2);
    var ideal := Ideal(c, topK);
    var idcg := Gain(ideal, |ideal|, log2);
    var ndcg := if idcg != 0.0 then dcg / idcg else 0.0;
    s := Scores(
      if c.answerable then Fraction(hitCount, topK) else 0.0,
      Fraction(hitCount, |expected|),
      if hitCount > 0 then 1.0 else 0.0,
      Fraction(1, FirstRank(hits)),
      averagePrecision,
      ndcg,
      Fraction(|Elements(Take(r.returnedDocIds, topK)) * docs|, |docs|),
      !r.hasError && r.leakedChunkIds == []
      && ((c.answerable && hitCount > 0 && r.answerable) || (!c.answerable && !r.answerable)));
  }
}
