/** Reviewing the citations of a whole answer, line by line; code fences and tables are quoted as they are. */
module CitationReview {
  import opened Finite
  import opened Fractions
  import opened Markers
  import opened Citations

  /** A line of an answer, cut into sentences. What makes a line a fence or a row of dashes is left open. */
  datatype Line = Line(text: string, fence: bool, delimiter: bool, sentences: seq<string>, ending: string)

  function Concat(parts: seq<string>): string {
    if parts == [] then "" else Concat(parts[..|parts| - 1]) + parts[|parts| - 1]
  }

  /** Cutting a line into sentences loses nothing. */
  predicate Cut(line: Line) {
    line.text == Concat(line.sentences) + line.ending
  }

  // ---- Tables and fences -----------------------------------------------------------------------

  predicate HasPipe(line: Line) {
    '|' in line.text
  }

  predicate TableHead(lines: seq<Line>, d: nat) {
    1 <= d < |lines| && lines[d].delimiter && HasPipe(lines[d - 1])
  }

  /** A line between a delimiter and line i, both left out, or line i itself. */
  predicate PipesThrough(lines: seq<Line>, d: nat, i: int) {
    i < |lines| && forall j :: d < j <= i ==> HasPipe(lines[j])
  }

  /** Line i is the head, the delimiter or a row of a table. */
  ghost predicate InTable(lines: seq<Line>, i: nat) {
    exists d: nat {:trigger TableHead(lines, d)} :: TableHead(lines, d) && d - 1 <= i && PipesThrough(lines, d, i)
  }

  /** The lines of the tables whose delimiter stands before line n. */
  ghost predicate TableBefore(lines: seq<Line>, n: nat, i: nat) {
    exists d: nat {:trigger TableHead(lines, d)} :: d < n && TableHead(lines, d) && d - 1 <= i
      && PipesThrough(lines, d, i)
  }

  lemma {:induction false} OneMoreTable(lines: seq<Line>, n: nat, end: nat)
    requires TableHead(lines, n) && n < end <= |lines|
    requires forall j :: n < j < end ==> HasPipe(lines[j])
    requires end < |lines| ==> !HasPipe(lines[end])
    ensures forall i: nat :: TableBefore(lines, n + 1, i) <==> TableBefore(lines, n, i) || n - 1 <= i < end
  {
    forall i: nat | n - 1 <= i ensures PipesThrough(lines, n, i) <==> i < end {
      if i >= end && i < |lines| {
        assert !HasPipe(lines[end]);
      }
    }
  }

  method TableLines(lines: seq<Line>) returns (table: set<nat>)
    ensures forall i: nat :: i in table <==> InTable(lines, i)
  {
    table := {};
    for index := 0 to |lines|
      invariant forall i: nat :: i in table <==> TableBefore(lines, index, i)
    {
      if index == 0 || !lines[index].delimiter || !HasPipe(lines[index - 1]) {
        assert !TableHead(lines, index);
        continue;
      }
      ghost var before := table;
      table := table + {index - 1, index};
      var cursor := index + 1;
      while cursor < |lines|
        invariant index < cursor <= |lines|
        invariant forall j :: index < j < cursor ==> HasPipe(lines[j])
        invariant forall i: nat :: i in table <==> i in before || index - 1 <= i < cursor
      {
        if !HasPipe(lines[cursor]) {
          break;
        }
        table := table + {cursor};
        cursor := cursor + 1;
      }
      OneMoreTable(lines, index, cursor);
    }
  }

  /** An odd number of fences before line i. */
  predicate InFence(lines: seq<Line>, i: nat)
    requires i <= |lines|
  {
    i > 0 && (InFence(lines, i - 1) != lines[i - 1].fence)
  }

  ghost predicate Protected(lines: seq<Line>, i: nat)
    requires i < |lines|
  {
    InFence(lines, i) || lines[i].fence || InTable(lines, i)
  }

  /** A line lies in a fence exactly if the number of fences before it is odd. */
  lemma {:induction false} InFenceExactly(lines: seq<Line>, i: nat, before: set<nat>)
    requires i <= |lines| && forall j: nat :: j in before <==> j < i && lines[j].fence
    ensures InFence(lines, i) <==> |before| % 2 == 1
  {
    if i == 0 {
      assert before == {};
    } else {
      InFenceExactly(lines, i - 1, before - {i - 1});
    }
  }

  /** A row of dashes below a line with a pipe makes a table of both and of all lines with a pipe that follow. */
  lemma {:induction false} TableShape(lines: seq<Line>, d: nat, end: nat)
    requires TableHead(lines, d) && d < end <= |lines| && forall j :: d < j < end ==> HasPipe(lines[j])
    ensures forall i: nat :: d - 1 <= i < end ==> InTable(lines, i)
  {
    forall i: nat | d - 1 <= i < end ensures InTable(lines, i) {
      assert PipesThrough(lines, d, i);
    }
  }

  /** Every line of a table but the delimiters has a pipe, and a delimiter stands below its head or above it. */
  lemma {:induction false} TableLineExactly(lines: seq<Line>, i: nat) returns (d: nat)
    requires InTable(lines, i)
    ensures TableHead(lines, d) && (i == d || HasPipe(lines[i])) && (i < d ==> i == d - 1)
  {
    d :| TableHead(lines, d) && d - 1 <= i && PipesThrough(lines, d, i);
  }

  // ---- What the review comes to ----------------------------------------------------------------

  /** A line that is quoted: its references count, if they name a source. */
  function Quoted(text: string, n: nat): Verdict {
    var refs := Refs(text);
    Verdict(text, Tally(Naming(refs, n), |refs| - |Naming(refs, n)|, 0, 0, 0, 0))
  }

  function ThenAll(verdicts: seq<Verdict>): Verdict {
    if verdicts == [] then Nothing("") else Then(ThenAll(verdicts[..|verdicts| - 1]), verdicts[|verdicts| - 1])
  }

  function SentenceReviews(parts: seq<string>, evidence: seq<Terms>, terms: string -> Terms): seq<Verdict>
    requires evidence != []
  {
    seq(|parts|, k requires 0 <= k < |parts| => Sentence(parts[k], evidence, terms))
  }

  ghost function LineReview(lines: seq<Line>, i: nat, evidence: seq<Terms>, terms: string -> Terms): Verdict
    requires i < |lines| && evidence != []
  {
    if Protected(lines, i) then Quoted(lines[i].text, |evidence|)
    else Then(ThenAll(SentenceReviews(lines[i].sentences, evidence, terms)), Nothing(lines[i].ending))
  }

  ghost function LineReviews(lines: seq<Line>, evidence: seq<Terms>, terms: string -> Terms): seq<Verdict>
    requires evidence != []
  {
    seq(|lines|, i requires 0 <= i < |lines| => LineReview(lines, i, evidence, terms))
  }

  /** The review of a whole answer. */
  ghost function Review(lines: seq<Line>, evidence: seq<Terms>, terms: string -> Terms): Verdict
    requires evidence != []
  {
    ThenAll(LineReviews(lines, evidence, terms))
  }

  method QuoteLine(text: string, n: nat) returns (verdict: Verdict)
    ensures verdict == Quoted(text, n)
  {
    var refs := Refs(text);
    var cited, invalid := [], 0;
    for i := 0 to |refs|
      invariant cited == Naming(refs[..i], n) && invalid + |cited| == i
    {
      assert refs[..i + 1][..i] == refs[..i];
      if 1 <= refs[i] <= n {
        cited := cited + [refs[i]];
      } else {
        invalid := invalid + 1;
      }
    }
    assert refs[..|refs|] == refs;
    verdict := Verdict(text, Tally(cited, invalid, 0, 0, 0, 0));
  }

  lemma {:induction false} ThenNext(verdicts: seq<Verdict>, i: nat)
    requires i < |verdicts|
    ensures ThenAll(verdicts[..i + 1]) == Then(ThenAll(verdicts[..i]), verdicts[i])
  {
    assert verdicts[..i + 1][..i] == verdicts[..i];
  }

  method ReviewSentences(parts: seq<string>, evidence: seq<Terms>, terms: string -> Terms) returns (verdict: Verdict)
    requires evidence != []
    ensures verdict == ThenAll(SentenceReviews(parts, evidence, terms))
  {
    ghost var all := SentenceReviews(parts, evidence, terms);
    verdict := Nothing("");
    for i := 0 to |parts|
      invariant verdict == ThenAll(all[..i])
    {
      ThenNext(all, i);
      var one := ReviewSentence(parts[i], evidence, terms);
      verdict := Then(verdict, one);
    }
    assert all[..|parts|] == all;
  }

  /** What the caller learns beside the new text. */
  datatype Stats = Stats(cited: seq<nat>, total: nat, autoAppended: bool, invalidCitations: nat, unsupportedClaims: nat,
                         claimCoverage: real)

  function Coverage(covered: nat, factual: nat): real {
    if factual > 0 then covered as real / factual as real else 1.0
  }

  function StatsOf(tally: Tally, n: nat): Stats {
    Stats(Ascending(Elements(tally.cited), n), n, tally.added > 0, tally.invalid, tally.unsupported,
          Coverage(tally.covered, tally.factual))
  }

  method ValidateCitations(lines: seq<Line>, evidence: seq<Terms>, terms: string -> Terms)
    returns (text: string, stats: Stats)
    requires evidence != []
    ensures text == Review(lines, evidence, terms).text
    ensures stats == StatsOf(Review(lines, evidence, terms).tally, |evidence|)
  {
    ghost var all := LineReviews(lines, evidence, terms);
    var table := TableLines(lines);
    var inFence, sofar := false, Nothing("");
    for i := 0 to |lines|
      invariant inFence == InFence(lines, i) && sofar == ThenAll(all[..i])
    {
      ThenNext(all, i);
      var line := lines[i];
      var verdict: Verdict;
      if inFence || line.fence || i in table {
        verdict := QuoteLine(line.text, |evidence|);
        if line.fence {
          inFence := !inFence;
        }
      } else {
        var rewritten := ReviewSentences(line.sentences, evidence, terms);
        verdict := Then(rewritten, Nothing(line.ending));
      }
      assert verdict == all[i];
      sofar := Then(sofar, verdict);
    }
    assert all[..|lines|] == all;
    text, stats := sofar.text, StatsOf(sofar.tally, |evidence|);
  }

  datatype Outcome = Ensured(text: string, marked: seq<nat>, appended: bool) | Checked(text: string, stats: Stats)

  /** Only sources with some content can be checked against; without one the markers are merely made sure of. */
  method CheckAnswer(answer: string, lines: seq<Line>, contents: seq<string>, terms: string -> Terms)
    returns (outcome: Outcome)
    ensures outcome.Checked? <==> exists i :: 0 <= i < |contents| && contents[i] != ""
    ensures outcome.Ensured? ==> (outcome.text, outcome.marked, outcome.appended) == EnsureCitations(answer, |contents|)
    ensures outcome.Checked? ==>
              var review := Review(lines, seq(|contents|, i requires 0 <= i < |contents| => terms(contents[i])), terms);
              outcome.text == review.text && outcome.stats == StatsOf(review.tally, |contents|)
  {
    if forall i :: 0 <= i < |contents| ==> contents[i] == "" {
      var (text, marked, appended) := EnsureCitations(answer, |contents|);
      return Ensured(text, marked, appended);
    }
    var evidence := seq(|contents|, i requires 0 <= i < |contents| => terms(contents[i]));
    var text, stats := ValidateCitations(lines, evidence, terms);
    outcome := Checked(text, stats);
  }

  // ---- What holds of every review --------------------------------------------------------------

  /** Every claim is covered or unsupported, every citation names a source, and a claim gets at most one source it did
      not name. */
  predicate AddsUp(t: Tally, n: nat) {
    t.covered + t.unsupported == t.factual && t.added <= t.covered && forall r :: r in t.cited ==> InRange(r, n)
  }

  lemma {:induction false} SentenceAddsUp(text: string, evidence: seq<Terms>, terms: string -> Terms)
    requires evidence != []
    ensures AddsUp(Sentence(text, evidence, terms).tally, |evidence|)
  {
    SettledIsSupported(Refs(text), terms(Unbracketed(text)), evidence);
  }

  lemma {:induction false} AllAddUp(verdicts: seq<Verdict>, n: nat)
    requires forall k :: 0 <= k < |verdicts| ==> AddsUp(verdicts[k].tally, n)
    ensures AddsUp(ThenAll(verdicts).tally, n)
  {
    if verdicts != [] {
      AllAddUp(verdicts[..|verdicts| - 1], n);
    }
  }

  lemma {:induction false} LineAddsUp(lines: seq<Line>, i: nat, evidence: seq<Terms>, terms: string -> Terms)
    requires i < |lines| && evidence != []
    ensures AddsUp(LineReview(lines, i, evidence, terms).tally, |evidence|)
  {
    if Protected(lines, i) {
      NamingExactly(Refs(lines[i].text), |evidence|);
    } else {
      var parts := lines[i].sentences;
      forall k | 0 <= k < |parts| ensures AddsUp(Sentence(parts[k], evidence, terms).tally, |evidence|) {
        SentenceAddsUp(parts[k], evidence, terms);
      }
      AllAddUp(SentenceReviews(parts, evidence, terms), |evidence|);
    }
  }

  lemma {:induction false} ReviewAddsUp(lines: seq<Line>, evidence: seq<Terms>, terms: string -> Terms)
    requires evidence != []
    ensures AddsUp(Review(lines, evidence, terms).tally, |evidence|)
  {
    forall i | 0 <= i < |lines| ensures AddsUp(LineReview(lines, i, evidence, terms).tally, |evidence|) {
      LineAddsUp(lines, i, evidence, terms);
    }
    AllAddUp(LineReviews(lines, evidence, terms), |evidence|);
  }

  lemma {:induction false} CoverageBounded(covered: nat, factual: nat)
    requires covered <= factual
    ensures 0.0 <= Coverage(covered, factual) <= 1.0
    ensures Coverage(covered, factual) == 1.0 <==> covered == factual
  {
    if factual > 0 {
      Ratio(covered as real, factual as real);
    }
  }

  /** The report of any review: sources in order and once, all of them known, and full coverage only without an
      unsupported claim. */
  lemma {:induction false} StatsAreSound(lines: seq<Line>, evidence: seq<Terms>, terms: string -> Terms)
    requires evidence != []
    ensures var tally := Review(lines, evidence, terms).tally;
            var stats := StatsOf(tally, |evidence|);
            && (forall i, j :: 0 <= i < j < |stats.cited| ==> stats.cited[i] < stats.cited[j])
            && (forall r :: r in stats.cited <==> r in tally.cited)
            && (forall r :: r in stats.cited ==> 1 <= r <= stats.total)
            && 0.0 <= stats.claimCoverage <= 1.0
            && (stats.claimCoverage == 1.0 <==> stats.unsupportedClaims == 0)
  {
    ReviewAddsUp(lines, evidence, terms);
    var tally := Review(lines, evidence, terms).tally;
    AscendingIsSorted(Elements(tally.cited), |evidence|);
    CoverageBounded(tally.covered, tally.factual);
    var cited := Ascending(Elements(tally.cited), |evidence|);
    forall r: nat ensures r in cited <==> r in tally.cited {
      assert r in tally.cited ==> InRange(r, |evidence|);
    }
  }

  lemma {:induction false} TextSplits(verdicts: seq<Verdict>, i: nat)
    requires i <= |verdicts|
    ensures ThenAll(verdicts).text == ThenAll(verdicts[..i]).text + ThenAll(verdicts[i..]).text
  {
    if i == |verdicts| {
      assert verdicts[..i] == verdicts;
    } else {
      var n := |verdicts| - 1;
      var front := verdicts[..n];
      TextSplits(front, i);
      assert front[..i] == verdicts[..i] && verdicts[i..][..n - i] == front[i..];
      JoinAssociates(ThenAll(verdicts[..i]).text, ThenAll(front[i..]).text, verdicts[n].text);
    }
  }

  lemma {:induction false} TextAround(verdicts: seq<Verdict>, i: nat)
    requires i < |verdicts|
    ensures ThenAll(verdicts).text == ThenAll(verdicts[..i]).text + verdicts[i].text + ThenAll(verdicts[i + 1..]).text
  {
    TextSplits(verdicts, i + 1);
    ThenNext(verdicts, i);
  }

  /** A line that is protected, or that claims nothing, comes out as it went in, between what its neighbours become. */
  lemma {:induction false} LinesKeptVerbatim(lines: seq<Line>, i: nat, evidence: seq<Terms>, terms: string -> Terms)
    requires i < |lines| && evidence != []
    requires Protected(lines, i)
             || (Cut(lines[i]) && forall k :: 0 <= k < |lines[i].sentences| ==>
                  terms(Unbracketed(lines[i].sentences[k])) == {})
    ensures var all := LineReviews(lines, evidence, terms);
            Review(lines, evidence, terms).text == ThenAll(all[..i]).text + lines[i].text + ThenAll(all[i + 1..]).text
  {
    TextAround(LineReviews(lines, evidence, terms), i);
    if !Protected(lines, i) {
      NoClaims(lines[i].sentences, evidence, terms);
    }
  }

  lemma {:induction false} NoClaims(parts: seq<string>, evidence: seq<Terms>, terms: string -> Terms)
    requires evidence != [] && forall k :: 0 <= k < |parts| ==> terms(Unbracketed(parts[k])) == {}
    ensures ThenAll(SentenceReviews(parts, evidence, terms)).text == Concat(parts)
  {
    if parts != [] {
      var front := parts[..|parts| - 1];
      NoClaims(front, evidence, terms);
      assert SentenceReviews(parts, evidence, terms)[..|parts| - 1] == SentenceReviews(front, evidence, terms);
    }
  }

  /** A claim that is supported, but names no source that holds. */
  predicate GetsASource(sentence: string, evidence: seq<Terms>, terms: string -> Terms) {
    var claim := terms(Unbracketed(sentence));
    && claim != {} && (exists j :: 0 <= j < |evidence| && Supports(claim, evidence[j]))
    && forall r :: r in Refs(sentence) ==> !SupportedRef(r, claim, evidence)
  }

  lemma {:induction false} SentenceAdds(text: string, evidence: seq<Terms>, terms: string -> Terms)
    requires evidence != []
    ensures Sentence(text, evidence, terms).tally.added > 0 <==> GetsASource(text, evidence, terms)
  {
    var claim := terms(Unbracketed(text));
    SettledIsSupported(Refs(text), claim, evidence);
    HoldingExactly(Refs(text), claim, evidence);
    var kept := Holding(Refs(text), claim, evidence);
    assert kept != [] ==> kept[0] in kept;
  }

  lemma {:induction false} AddedSomewhere(verdicts: seq<Verdict>)
    ensures ThenAll(verdicts).tally.added > 0 <==> exists k :: 0 <= k < |verdicts| && verdicts[k].tally.added > 0
  {
    if verdicts != [] {
      AddedSomewhere(verdicts[..|verdicts| - 1]);
    }
  }

  ghost predicate LineGetsASource(lines: seq<Line>, i: nat, evidence: seq<Terms>, terms: string -> Terms) {
    && i < |lines| && !Protected(lines, i)
    && exists k :: 0 <= k < |lines[i].sentences| && GetsASource(lines[i].sentences[k], evidence, terms)
  }

  lemma {:induction false} LineAdds(lines: seq<Line>, i: nat, evidence: seq<Terms>, terms: string -> Terms)
    requires i < |lines| && evidence != []
    ensures LineReview(lines, i, evidence, terms).tally.added > 0 <==> LineGetsASource(lines, i, evidence, terms)
  {
    if !Protected(lines, i) {
      var parts := lines[i].sentences;
      AddedSomewhere(SentenceReviews(parts, evidence, terms));
      forall k | 0 <= k < |parts|
        ensures SentenceReviews(parts, evidence, terms)[k].tally.added > 0 <==> GetsASource(parts[k], evidence, terms)
      {
        SentenceAdds(parts[k], evidence, terms);
      }
    }
  }

  /** The report says that a source was added exactly if some claim got one. */
  lemma {:induction false} AppendedExactly(lines: seq<Line>, evidence: seq<Terms>, terms: string -> Terms)
    requires evidence != []
    ensures var stats := StatsOf(Review(lines, evidence, terms).tally, |evidence|);
            && stats.total == |evidence|
            && (stats.autoAppended <==> exists i: nat :: LineGetsASource(lines, i, evidence, terms))
  {
    AddedSomewhere(LineReviews(lines, evidence, terms));
    forall i: nat | i < |lines|
      ensures LineReviews(lines, evidence, terms)[i].tally.added > 0 <==> LineGetsASource(lines, i, evidence, terms)
    {
      LineAdds(lines, i, evidence, terms);
    }
  }

  // ---- Where the citations come from -----------------------------------------------------------

  predicate Supported(sentence: string, r: nat, evidence: seq<Terms>, terms: string -> Terms) {
    SupportedRef(r, terms(Unbracketed(sentence)), evidence)
  }

  /** Source r is named on a protected line, or it supports a claim of a line that is rewritten. */
  ghost predicate Justified(lines: seq<Line>, i: nat, r: nat, evidence: seq<Terms>, terms: string -> Terms) {
    && i < |lines| && InRange(r, |evidence|)
    && if Protected(lines, i) then r in Refs(lines[i].text)
       else exists k :: 0 <= k < |lines[i].sentences| && Supported(lines[i].sentences[k], r, evidence, terms)
  }

  lemma {:induction false} CitedSomewhere(verdicts: seq<Verdict>, r: nat) returns (i: nat)
    requires r in ThenAll(verdicts).tally.cited
    ensures i < |verdicts| && r in verdicts[i].tally.cited
  {
    var n := |verdicts| - 1;
    if r in verdicts[n].tally.cited {
      i := n;
    } else {
      i := CitedSomewhere(verdicts[..n], r);
    }
  }

  /** Every source that is reported as cited has a line that justifies it. */
  lemma {:induction false} CitedIsJustified(lines: seq<Line>, r: nat, evidence: seq<Terms>, terms: string -> Terms)
    returns (i: nat)
    requires evidence != [] && r in Review(lines, evidence, terms).tally.cited
    ensures Justified(lines, i, r, evidence, terms)
  {
    i := CitedSomewhere(LineReviews(lines, evidence, terms), r);
    var parts := lines[i].sentences;
    if Protected(lines, i) {
      NamingExactly(Refs(lines[i].text), |evidence|);
    } else {
      var k := CitedSomewhere(SentenceReviews(parts, evidence, terms), r);
      SettledIsSupported(Refs(parts[k]), terms(Unbracketed(parts[k])), evidence);
      assert Supported(parts[k], r, evidence, terms);
    }
  }

  function SumOf(counts: seq<nat>): nat {
    if counts == [] then 0 else SumOf(counts[..|counts| - 1]) + counts[|counts| - 1]
  }

  /** The markers of a sentence that a review judges. */
  function MarkersIn(text: string, terms: string -> Terms): nat {
    if terms(Unbracketed(text)) == {} then 0 else |Refs(text)|
  }

  function MarkersInAll(parts: seq<string>, terms: string -> Terms): seq<nat> {
    seq(|parts|, k requires 0 <= k < |parts| => MarkersIn(parts[k], terms))
  }

  /** The markers of a line that a review judges: all of a protected line, otherwise those of its claims. */
  ghost function MarkersOn(lines: seq<Line>, i: nat, terms: string -> Terms): nat
    requires i < |lines|
  {
    if Protected(lines, i) then |Refs(lines[i].text)|
    else SumOf(MarkersInAll(lines[i].sentences, terms))
  }

  /** What a tally says about the markers that were read. */
  function MarkersOf(t: Tally): int {
    |t.cited| + t.invalid - t.added
  }

  lemma {:induction false} ThenBalances(a: Verdict, b: Verdict)
    ensures MarkersOf(Then(a, b).tally) == MarkersOf(a.tally) + MarkersOf(b.tally)
  {
  }

  lemma {:induction false} AllBalance(verdicts: seq<Verdict>, counts: seq<nat>)
    requires |counts| == |verdicts| && forall k :: 0 <= k < |verdicts| ==> MarkersOf(verdicts[k].tally) == counts[k]
    ensures MarkersOf(ThenAll(verdicts).tally) == SumOf(counts)
  {
    if verdicts != [] {
      var n := |verdicts| - 1;
      AllBalance(verdicts[..n], counts[..n]);
      ThenBalances(ThenAll(verdicts[..n]), verdicts[n]);
    }
  }

  lemma {:induction false} SentenceBalances(text: string, evidence: seq<Terms>, terms: string -> Terms)
    requires evidence != []
    ensures MarkersOf(Sentence(text, evidence, terms).tally) == MarkersIn(text, terms)
  {
  }

  lemma {:induction false} SentencesBalance(parts: seq<string>, evidence: seq<Terms>, terms: string -> Terms)
    requires evidence != []
    ensures MarkersOf(ThenAll(SentenceReviews(parts, evidence, terms)).tally) == SumOf(MarkersInAll(parts, terms))
  {
    forall k | 0 <= k < |parts|
      ensures MarkersOf(Sentence(parts[k], evidence, terms).tally) == MarkersIn(parts[k], terms)
    {
      SentenceBalances(parts[k], evidence, terms);
    }
    AllBalance(SentenceReviews(parts, evidence, terms), MarkersInAll(parts, terms));
  }

  lemma {:induction false} LineBalances(lines: seq<Line>, i: nat, evidence: seq<Terms>, terms: string -> Terms)
    requires i < |lines| && evidence != []
    ensures MarkersOf(LineReview(lines, i, evidence, terms).tally) == MarkersOn(lines, i, terms)
  {
    if !Protected(lines, i) {
      SentencesBalance(lines[i].sentences, evidence, terms);
    }
  }

  /** Every marker that is judged is cited or invalid, and every other citation is one that was added. */
  lemma {:induction false} MarkersBalance(lines: seq<Line>, evidence: seq<Terms>, terms: string -> Terms)
    requires evidence != []
    ensures var t := Review(lines, evidence, terms).tally;
            var judged := SumOf(seq(|lines|, i requires 0 <= i < |lines| => MarkersOn(lines, i, terms)));
            |t.cited| + t.invalid == judged + t.added
  {
    forall i | 0 <= i < |lines|
      ensures MarkersOf(LineReview(lines, i, evidence, terms).tally) == MarkersOn(lines, i, terms)
    {
      LineBalances(lines, i, evidence, terms);
    }
    AllBalance(LineReviews(lines, evidence, terms),
               seq(|lines|, i requires 0 <= i < |lines| => MarkersOn(lines, i, terms)));
  }
}
