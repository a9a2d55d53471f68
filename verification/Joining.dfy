/** Which markers a reader finds in a rewritten answer, once its sentences stand side by side again. */
module Joining {
  import opened Finite
  import opened Markers
  import opened Nesting
  import opened Citations
  import opened CitationReview

  // ---- Cutting a line into sentences -----------------------------------------------------------

  predicate EndsSentence(c: char) {
    c == '。' || c == '！' || c == '？' || c == '.' || c == '!' || c == '?'
  }

  /** A cut behind the end of a sentence, unless a number in brackets follows. */
  predicate CutAt(t: string, i: nat) {
    0 < i <= |t| && EndsSentence(t[i - 1]) && BracketLength(t[i..]) == 0
  }

  /** The first cut from i on; there is none if it lies past the end. */
  function NextCut(t: string, i: nat): (cut: nat)
    requires i <= |t| + 1
    ensures i <= cut <= |t| + 1 && (cut <= |t| ==> CutAt(t, cut)) && forall j :: i <= j < cut ==> !CutAt(t, j)
    decreases |t| + 1 - i
  {
    if i == |t| + 1 || CutAt(t, i) then i else NextCut(t, i + 1)
  }

  function Sentences(t: string): (parts: seq<string>)
    ensures parts != []
    decreases |t|
  {
    var cut := NextCut(t, 1);
    if cut > |t| then [t] else [t[..cut]] + Sentences(t[cut..])
  }

  predicate EndsIn(t: string, p: char -> bool) {
    t != "" && p(t[|t| - 1])
  }

  predicate StartsIn(t: string, c: char) {
    t != "" && t[0] == c
  }

  /** Only the last sentence may end without punctuation, and only the first may start with a number in brackets. */
  predicate Punctuated(parts: seq<string>) {
    && (forall k :: 0 <= k < |parts| - 1 ==> EndsIn(parts[k], EndsSentence))
    && (forall k :: 1 <= k < |parts| ==> BracketLength(parts[k]) == 0)
  }

  function Joined(parts: seq<string>): string {
    if parts == [] then "" else parts[0] + Joined(parts[1..])
  }

  lemma {:induction false} BracketGrows(a: string, b: string)
    requires BracketLength(a) > 0
    ensures BracketLength(a + b) == BracketLength(a)
  {
    LinkLength(a, BracketLength(a), a[BracketLength(a)..] + b);
    assert a[..BracketLength(a)] + (a[BracketLength(a)..] + b) == a + b;
  }

  lemma {:induction false} FirstSentence(t: string)
    ensures Sentences(t)[0] <= t
    ensures BracketLength(t) == 0 ==> BracketLength(Sentences(t)[0]) == 0
  {
    var first := Sentences(t)[0];
    if BracketLength(first) > 0 {
      BracketGrows(first, t[|first|..]);
      assert first + t[|first|..] == t;
    }
  }

  /** Cutting loses nothing, and cuts where it should. */
  lemma {:induction false} SentencesAreCut(t: string)
    ensures Joined(Sentences(t)) == t && Punctuated(Sentences(t))
    decreases |t|
  {
    var cut := NextCut(t, 1);
    if cut <= |t| {
      var rest := Sentences(t[cut..]);
      SentencesAreCut(t[cut..]);
      FirstSentence(t[cut..]);
      assert Sentences(t) == [t[..cut]] + rest;
      assert Sentences(t)[1..] == rest;
    } else {
      assert Sentences(t) == [t] && Joined([t]) == t + Joined([]) == t;
    }
  }

  // ---- Two texts side by side ------------------------------------------------------------------

  predicate Opens(c: char) {
    c == '[' || IsDigit(c)
  }

  /** No number in brackets can begin in this text and end behind it. */
  predicate Closed(t: string) {
    !EndsIn(t, Opens)
  }

  predicate EndsInMarker(t: string) {
    Tokens(t) != [] && Tokens(t)[|Tokens(t)| - 1].Marker?
  }

  lemma {:induction false} RunInside(a: string, b: string)
    requires DigitRun(a) < |a|
    ensures DigitRun(a + b) == DigitRun(a)
  {
    assert (a + b)[1..] == a[1..] + b;
    if IsDigit(a[0]) {
      RunInside(a[1..], b);
    }
  }

  lemma {:induction false} ClosedBracket(a: string, b: string)
    requires a != "" && Closed(a)
    ensures BracketLength(a + b) == BracketLength(a)
  {
    assert (a + b)[1..] == a[1..] + b;
    if a[0] == '[' {
      var d := DigitRun(a[1..]);
      if d == |a| - 1 && d > 0 {
        DigitsInRun(a[1..], d - 1);
      }
      RunInside(a[1..], b);
    }
  }

  lemma {:induction false} FirstOfTwo(a: string, b: string)
    requires a != "" && Closed(a) && !(MarkLength(a) == |a| && StartsIn(b, '('))
    ensures First(a + b) == First(a) && Rest(a + b) == Rest(a) + b && Closed(Rest(a))
  {
    ClosedBracket(a, b);
    var n := BracketLength(a);
    assert n < |a| ==> (a + b)[n] == a[n];
    assert n == |a| && b != "" ==> (a + b)[n] == b[0];
    assert MarkLength(a + b) == MarkLength(a);
    var k := MarkLength(a);
    Slices(a, b, if k == 0 then 1 else k);
  }

  lemma {:induction false} Slices(a: string, b: string, k: nat)
    requires k <= |a|
    ensures (a + b)[k..] == a[k..] + b && (a + b)[..k] == a[..k]
  {
  }

  lemma {:induction false} OneMarker(a: string)
    requires a != "" && MarkLength(a) == |a|
    ensures Tokens(a) == [Marker(NumberIn(a))] && Refs(a) == [NumberIn(a)]
  {
    assert a[..|a|] == a && Rest(a) == "";
    HeadNumbers(First(a), []);
    assert [First(a)] + [] == [First(a)];
  }

  /** A parenthesis behind it turns a marker into a link. */
  lemma {:induction false} Hidden(a: string, b: string)
    requires a != "" && MarkLength(a) == |a| && StartsIn(b, '(')
    ensures Refs(a + b) == Refs(b)
  {
    var t, n := a + b, |a|;
    BracketGrows(a, b);
    LinkStays(t, n);
    LinkNumbers(t, n);
    assert t[n..] == b;
  }

  lemma {:induction false} LinkNumbers(t: string, n: nat)
    requires n == BracketLength(t) > 0 && MarkLength(t) == 0
    ensures Refs(t) == Refs(t[n..])
  {
    LinkStays(t, n);
    LinkPlain(t, n);
    PlainFront(Tokens(t), n);
  }

  lemma {:induction false} PlainFront(tokens: seq<Token>, n: nat)
    requires n <= |tokens| && forall i :: 0 <= i < n ==> tokens[i].Plain?
    ensures Numbers(tokens) == Numbers(tokens[n..])
  {
    NoNumbers(tokens[..n]);
    NumbersAppend(tokens[..n], tokens[n..]);
    assert tokens == tokens[..n] + tokens[n..];
    assert [] + Numbers(tokens[n..]) == Numbers(tokens[n..]);
  }

  lemma {:induction false} LinkPlain(t: string, n: nat)
    requires n == BracketLength(t) > 0 && MarkLength(t) == 0 && n <= |Tokens(t)|
    ensures forall i :: 0 <= i < n ==> Tokens(t)[i].Plain?
  {
    OneBracket(t, n);
    assert t[1..][..n - 1] == t[1..n];
    RunTokens(t[1..], n - 1);
    FirstAndRest(t);
    forall i | 0 < i < n ensures Tokens(t)[i].Plain? {
      assert Tokens(t)[1..][i - 1] == Tokens(t)[i];
    }
  }

  lemma {:induction false} LastOf(first: Token, rest: seq<Token>)
    requires rest != []
    ensures ([first] + rest)[|[first] + rest| - 1] == rest[|rest| - 1]
  {
  }

  lemma {:induction false} EndsLater(a: string)
    requires a != "" && Rest(a) != ""
    ensures EndsInMarker(a) == EndsInMarker(Rest(a))
  {
    FirstAndRest(a);
    FirstAndRest(Rest(a));
    LastOf(First(a), Tokens(Rest(a)));
  }

  /** The markers of two texts side by side are those of the one and then of the other; but the last one of the first
      text is gone if a `(` follows it. */
  lemma {:induction false} SideBySide(a: string, b: string)
    requires Closed(a)
    ensures !(EndsInMarker(a) && StartsIn(b, '(')) ==> Refs(a + b) == Refs(a) + Refs(b)
    ensures EndsInMarker(a) && StartsIn(b, '(') ==> |Refs(a + b)| + 1 == |Refs(a)| + |Refs(b)|
    decreases |a|
  {
    if a == "" {
      assert a + b == b;
    } else if MarkLength(a) == |a| && StartsIn(b, '(') {
      OneMarker(a);
      Hidden(a, b);
    } else {
      FirstOfTwo(a, b);
      FirstAndRest(a);
      FirstAndRest(a + b);
      HeadNumbers(First(a), Tokens(Rest(a)));
      HeadNumbers(First(a), Tokens(Rest(a) + b));
      var number := if First(a).Marker? then [First(a).number] else [];
      if Rest(a) != "" {
        EndsLater(a);
      }
      SideBySide(Rest(a), b);
      JoinAssociates(number, Refs(Rest(a)), Refs(b));
    }
  }

  // ---- Many texts side by side -----------------------------------------------------------------

  function AllRefs(texts: seq<string>): seq<nat> {
    if texts == [] then [] else Refs(texts[0]) + AllRefs(texts[1..])
  }

  /** Text k ends in a marker that becomes a link by what follows it. */
  predicate Hides(texts: seq<string>, k: nat) {
    k < |texts| && EndsInMarker(texts[k]) && StartsIn(Joined(texts[k + 1..]), '(')
  }

  ghost predicate HidesOne(texts: seq<string>) {
    exists k: nat :: Hides(texts, k)
  }

  lemma {:induction false} HidesFirst(texts: seq<string>)
    requires texts != []
    ensures HidesOne(texts) <==> (EndsInMarker(texts[0]) && StartsIn(Joined(texts[1..]), '(')) || HidesOne(texts[1..])
  {
    forall k: nat | 0 < k < |texts| ensures Hides(texts, k) <==> Hides(texts[1..], k - 1) {
      assert texts[1..][k..] == texts[k + 1..];
    }
    assert Hides(texts, 0) <==> EndsInMarker(texts[0]) && StartsIn(Joined(texts[1..]), '(');
    if HidesOne(texts[1..]) {
      var k: nat :| Hides(texts[1..], k);
      assert Hides(texts, k + 1);
    }
  }

  /** The markers of many texts side by side. */
  lemma {:induction false} AllSideBySide(texts: seq<string>)
    requires forall k :: 0 <= k < |texts| - 1 ==> Closed(texts[k])
    ensures |Refs(Joined(texts))| <= |AllRefs(texts)|
    ensures Refs(Joined(texts)) == AllRefs(texts) <==> !HidesOne(texts)
    ensures HidesOne(texts) ==> |Refs(Joined(texts))| < |AllRefs(texts)|
  {
    if |texts| == 1 {
      assert texts[1..] == [] && Joined(texts) == texts[0] + "" == texts[0];
      assert AllRefs(texts) == Refs(texts[0]) + [] == Refs(texts[0]);
    } else if texts != [] {
      HidesFirst(texts);
      AllSideBySide(texts[1..]);
      SideBySide(texts[0], Joined(texts[1..]));
    }
  }

  // ---- The sentences of a line -----------------------------------------------------------------

  predicate SomeSupports(claim: Terms, evidence: seq<Terms>) {
    exists j :: 0 <= j < |evidence| && Supports(claim, evidence[j])
  }

  /** A claim that some source supports. */
  predicate Covered(sentence: string, evidence: seq<Terms>, terms: string -> Terms) {
    terms(Unbracketed(sentence)) != {} && SomeSupports(terms(Unbracketed(sentence)), evidence)
  }

  lemma {:induction false} LastToken(t: string)
    requires t != "" && t[|t| - 1] != ']'
    ensures !EndsInMarker(t) && Tokens(t)[|Tokens(t)| - 1] == Plain(t[|t| - 1])
    decreases |t|
  {
    FirstAndRest(t);
    LastOfRest(t);
    if Rest(t) != "" {
      LastToken(Rest(t));
      LastOf(First(t), Tokens(Rest(t)));
    } else {
      assert Tokens(t) == [First(t)] + [] == [First(t)];
    }
  }

  lemma {:induction false} LastOfRest(t: string)
    requires t != "" && t[|t| - 1] != ']'
    ensures Rest(t) != "" ==> Rest(t)[|Rest(t)| - 1] == t[|t| - 1]
    ensures Rest(t) == "" ==> First(t) == Plain(t[|t| - 1])
  {
    if MarkLength(t) > 0 {
      BracketShape(t);
    }
  }

  lemma {:induction false} PunctuationStays(t: string)
    requires EndsIn(t, EndsSentence)
    ensures RStrip(t) == t && Closed(t) && t[|t| - 1] != ']'
  {
  }

  lemma {:induction false} LastOfPlains(tokens: seq<Token>)
    requires tokens != [] && tokens[|tokens| - 1].Plain?
    ensures Plains(tokens) != "" && Plains(tokens)[|Plains(tokens)| - 1] == tokens[|tokens| - 1].c
  {
    var n := |tokens| - 1;
    NumbersAppend(tokens[..n], tokens[n..]);
    HeadNumbers(tokens[n], []);
    assert tokens == tokens[..n] + tokens[n..] && tokens[n..] == [tokens[n]] + [];
  }

  /** A sentence keeps its punctuation when its markers go. */
  lemma {:induction false} CleanedEnds(t: string)
    requires EndsIn(t, EndsSentence)
    ensures EndsIn(Cleaned(t), EndsSentence)
  {
    PunctuationStays(t);
    LastToken(t);
    LastOfPlains(Tokens(t));
    assert EndsIn(Bare(t), EndsSentence);
    PunctuationStays(Bare(t));
  }

  lemma {:induction false} MarksEnd(refs: seq<nat>)
    requires refs != []
    ensures Marks(refs) != "" && Marks(refs)[|Marks(refs)| - 1] == ']'
  {
    if |refs| > 1 {
      MarksEnd(refs[1..]);
    } else {
      assert refs[1..] == [];
    }
  }

  lemma {:induction false} TokensOfMarks(refs: seq<nat>)
    requires refs != []
    ensures EndsInMarker(Marks(refs))
  {
    MarksStandApart(refs[1..]);
    TokensAppend(Mark(refs[0]), Marks(refs[1..]));
    MarkIsOneToken(refs[0]);
    if |refs| > 1 {
      TokensOfMarks(refs[1..]);
      LastOf(Marker(refs[0]), Tokens(Marks(refs[1..])));
    } else {
      assert refs[1..] == [];
    }
  }

  lemma {:induction false} EndsWithMarks(t: string, refs: seq<nat>)
    requires refs != []
    ensures EndsInMarker(t + Marks(refs)) && Closed(t + Marks(refs))
  {
    MarksStandApart(refs);
    TokensAppend(t, Marks(refs));
    TokensOfMarks(refs);
    MarksEnd(refs);
  }

  lemma {:induction false} UncoveredEnds(t: string, claim: Terms, evidence: seq<Terms>)
    requires evidence != [] && EndsIn(t, EndsSentence) && Settled(Refs(t), claim, evidence) == []
    ensures var text := Claim(t, claim, evidence).text; text != "" && Closed(text) && !EndsInMarker(text)
  {
    CleanedAlone(t, claim, evidence);
    CleanedEnds(t);
    NoMarkerAtEnd(Cleaned(t));
  }

  lemma {:induction false} NoMarkerAtEnd(t: string)
    requires EndsIn(t, EndsSentence)
    ensures t != "" && Closed(t) && !EndsInMarker(t)
  {
    PunctuationStays(t);
    LastToken(t);
  }

  lemma {:induction false} CleanedAlone(t: string, claim: Terms, evidence: seq<Terms>)
    requires evidence != [] && Settled(Refs(t), claim, evidence) == []
    ensures Claim(t, claim, evidence).text == Cleaned(t)
  {
    NoMarks(|evidence|);
    assert Cleaned(t) + "" == Cleaned(t);
  }

  lemma {:induction false} CoveredEnds(t: string, claim: Terms, evidence: seq<Terms>)
    requires evidence != [] && Settled(Refs(t), claim, evidence) != []
    ensures var text := Claim(t, claim, evidence).text; text != "" && Closed(text) && EndsInMarker(text)
  {
    var settled := Settled(Refs(t), claim, evidence);
    var listed := Ascending(Elements(settled), |evidence|);
    SettledIsSupported(Refs(t), claim, evidence);
    AscendingIsSorted(Elements(settled), |evidence|);
    assert settled[0] in Elements(settled) && settled[0] in listed;
    EndsWithMarks(Cleaned(t), listed);
  }

  lemma {:induction false} SettledExactly(refs: seq<nat>, claim: Terms, evidence: seq<Terms>)
    requires evidence != []
    ensures Settled(refs, claim, evidence) != [] <==> SomeSupports(claim, evidence)
  {
    SettledIsSupported(refs, claim, evidence);
  }

  lemma {:induction false} ClaimEnds(t: string, claim: Terms, evidence: seq<Terms>)
    requires evidence != [] && EndsIn(t, EndsSentence)
    ensures var text := Claim(t, claim, evidence).text;
            text != "" && Closed(text) && (EndsInMarker(text) <==> SomeSupports(claim, evidence))
  {
    SettledExactly(Refs(t), claim, evidence);
    if Settled(Refs(t), claim, evidence) == [] {
      UncoveredEnds(t, claim, evidence);
    } else {
      CoveredEnds(t, claim, evidence);
    }
  }

  /** A punctuated sentence comes out closed, and with a marker at its end exactly if it is covered. */
  lemma {:induction false} SentenceEnds(t: string, evidence: seq<Terms>, terms: string -> Terms)
    requires evidence != [] && EndsIn(t, EndsSentence)
    ensures var text := Sentence(t, evidence, terms).text;
            text != "" && Closed(text) && (EndsInMarker(text) <==> Covered(t, evidence, terms))
  {
    if terms(Unbracketed(t)) == {} {
      NoMarkerAtEnd(t);
    } else {
      ClaimEnds(t, terms(Unbracketed(t)), evidence);
    }
  }

  lemma {:induction false} RStripStarts(t: string, c: char)
    requires !IsSpace(c)
    ensures StartsIn(RStrip(t), c) <==> StartsIn(t, c)
  {
    if t != "" && IsSpace(t[|t| - 1]) {
      RStripStarts(t[..|t| - 1], c);
    }
  }

  /** A sentence that starts with no number in brackets comes out with the `(` it starts with, or with none. */
  lemma {:induction false} SentenceStarts(t: string, evidence: seq<Terms>, terms: string -> Terms)
    requires evidence != [] && BracketLength(t) == 0
    ensures StartsIn(Sentence(t, evidence, terms).text, '(') <==> StartsIn(t, '(')
  {
    var claim := terms(Unbracketed(t));
    if claim != {} {
      if t != "" {
        CharacterStays(t);
      }
      RStripStarts(Bare(t), '(');
      MarksStandApart(Ascending(Elements(Settled(Refs(t), claim, evidence)), |evidence|));
    }
  }

  function Texts(verdicts: seq<Verdict>): seq<string> {
    seq(|verdicts|, k requires 0 <= k < |verdicts| => verdicts[k].text)
  }

  lemma {:induction false} TextIsJoined(verdicts: seq<Verdict>)
    ensures ThenAll(verdicts).text == Joined(Texts(verdicts))
    decreases |verdicts|
  {
    if verdicts != [] {
      TextSplits(verdicts, 1);
      TextIsJoined(verdicts[1..]);
      assert Texts(verdicts)[1..] == Texts(verdicts[1..]);
      assert verdicts[..1] == [verdicts[0]] && verdicts[..1][..0] == [];
      assert ThenAll(verdicts[..1]).text == "" + verdicts[0].text == verdicts[0].text;
    }
  }

  function Rewritten(parts: seq<string>, evidence: seq<Terms>, terms: string -> Terms): seq<string>
    requires evidence != []
  {
    Texts(SentenceReviews(parts, evidence, terms))
  }

  /** A covered sentence, to which a marker is appended, in front of one that starts with `(`. */
  ghost predicate LinksOn(parts: seq<string>, k: nat, evidence: seq<Terms>, terms: string -> Terms) {
    k + 1 < |parts| && Covered(parts[k], evidence, terms) && StartsIn(parts[k + 1], '(')
  }

  ghost predicate LinksSomewhere(parts: seq<string>, evidence: seq<Terms>, terms: string -> Terms) {
    exists k: nat :: LinksOn(parts, k, evidence, terms)
  }

  lemma {:induction false} JoinedStarts(texts: seq<string>)
    requires texts != [] && (texts[0] == "" ==> |texts| == 1)
    ensures StartsIn(Joined(texts), '(') <==> StartsIn(texts[0], '(')
  {
  }

  lemma {:induction false} HidesExactly(parts: seq<string>, k: nat, evidence: seq<Terms>, terms: string -> Terms)
    requires evidence != [] && Punctuated(parts)
    ensures Hides(Rewritten(parts, evidence, terms), k) <==> LinksOn(parts, k, evidence, terms)
  {
    if k + 1 < |parts| {
      SentenceEnds(parts[k], evidence, terms);
      WhatFollows(parts, k + 1, evidence, terms);
    }
  }

  lemma {:induction false} WhatFollows(parts: seq<string>, k: nat, evidence: seq<Terms>, terms: string -> Terms)
    requires evidence != [] && Punctuated(parts) && 1 <= k < |parts|
    ensures StartsIn(Joined(Rewritten(parts, evidence, terms)[k..]), '(') <==> StartsIn(parts[k], '(')
  {
    SentenceStarts(parts[k], evidence, terms);
    if k + 1 < |parts| {
      SentenceEnds(parts[k], evidence, terms);
    }
    JoinedStarts(Rewritten(parts, evidence, terms)[k..]);
  }

  /** The rewritten sentences, side by side, show the markers of each if and only if no covered one stands in front of a
      `(`. */
  lemma {:induction false} LineReadsBack(parts: seq<string>, evidence: seq<Terms>, terms: string -> Terms)
    requires evidence != [] && Punctuated(parts)
    ensures var texts := Rewritten(parts, evidence, terms);
            && |Refs(Joined(texts))| <= |AllRefs(texts)|
            && (Refs(Joined(texts)) == AllRefs(texts) <==> !LinksSomewhere(parts, evidence, terms))
            && (LinksSomewhere(parts, evidence, terms) ==> |Refs(Joined(texts))| < |AllRefs(texts)|)
  {
    var texts := Rewritten(parts, evidence, terms);
    forall k | 0 <= k < |texts| - 1 ensures Closed(texts[k]) {
      SentenceEnds(parts[k], evidence, terms);
    }
    forall k: nat ensures Hides(texts, k) <==> LinksOn(parts, k, evidence, terms) {
      HidesExactly(parts, k, evidence, terms);
    }
    AllSideBySide(texts);
  }

  // ---- The lines of an answer ------------------------------------------------------------------

  /** A line with its sentences and line end; only the last line may have none. */
  predicate Written(lines: seq<Line>, i: nat)
    requires i < |lines|
  {
    && Cut(lines[i]) && lines[i].sentences == Sentences(Concat(lines[i].sentences))
    && AllSpace(lines[i].ending) && (i < |lines| - 1 ==> lines[i].ending != "")
  }

  ghost predicate AllWritten(lines: seq<Line>) {
    forall i: nat :: i < |lines| ==> Written(lines, i)
  }

  /** The markers that the parts of a line are given. */
  ghost function GivenOn(lines: seq<Line>, i: nat, evidence: seq<Terms>, terms: string -> Terms): seq<nat>
    requires i < |lines| && evidence != []
  {
    if Protected(lines, i) then Refs(lines[i].text) else AllRefs(Rewritten(lines[i].sentences, evidence, terms))
  }

  ghost function Given(lines: seq<Line>, evidence: seq<Terms>, terms: string -> Terms): seq<seq<nat>>
    requires evidence != []
  {
    seq(|lines|, i requires 0 <= i < |lines| => GivenOn(lines, i, evidence, terms))
  }

  ghost predicate LinksAt(lines: seq<Line>, i: nat, evidence: seq<Terms>, terms: string -> Terms) {
    i < |lines| && !Protected(lines, i) && LinksSomewhere(lines[i].sentences, evidence, terms)
  }

  lemma {:induction false} SpaceBehind(t: string, space: string)
    requires AllSpace(space)
    ensures Refs(t + space) == Refs(t)
  {
    WithoutBrackets(space);
    RefsAppend(t, space);
  }

  lemma {:induction false} LineGives(lines: seq<Line>, i: nat, evidence: seq<Terms>, terms: string -> Terms)
    requires i < |lines| && evidence != [] && Written(lines, i)
    ensures var read, given := Refs(LineReview(lines, i, evidence, terms).text), GivenOn(lines, i, evidence, terms);
            && |read| <= |given| && (read == given <==> !LinksAt(lines, i, evidence, terms))
            && (LinksAt(lines, i, evidence, terms) ==> |read| < |given|)
  {
    if !Protected(lines, i) {
      var parts := lines[i].sentences;
      SentencesAreCut(Concat(parts));
      LineReadsBack(parts, evidence, terms);
      TextIsJoined(SentenceReviews(parts, evidence, terms));
      SpaceBehind(Joined(Rewritten(parts, evidence, terms)), lines[i].ending);
    }
  }

  lemma {:induction false} LineBreaks(lines: seq<Line>, i: nat, evidence: seq<Terms>, terms: string -> Terms)
    requires i < |lines| - 1 && evidence != [] && Written(lines, i)
    ensures EndsIn(LineReview(lines, i, evidence, terms).text, IsSpace)
  {
  }

  function Flat(lists: seq<seq<nat>>): seq<nat> {
    if lists == [] then [] else lists[0] + Flat(lists[1..])
  }

  function RefsOf(texts: seq<string>): seq<seq<nat>> {
    seq(|texts|, k requires 0 <= k < |texts| => Refs(texts[k]))
  }

  lemma {:induction false} AllAreFlat(texts: seq<string>)
    ensures AllRefs(texts) == Flat(RefsOf(texts))
  {
    if texts != [] {
      AllAreFlat(texts[1..]);
      assert RefsOf(texts)[1..] == RefsOf(texts[1..]);
    }
  }

  predicate Shorter(a: seq<nat>, b: seq<nat>) {
    a == b || |a| < |b|
  }

  lemma {:induction false} FlatsAgree(a: seq<seq<nat>>, b: seq<seq<nat>>)
    requires |a| == |b| && forall i :: 0 <= i < |a| ==> Shorter(a[i], b[i])
    ensures Flat(a) == Flat(b) <==> a == b
    ensures Shorter(Flat(a), Flat(b))
  {
    if a != [] {
      FlatsAgree(a[1..], b[1..]);
      assert a == [a[0]] + a[1..] && b == [b[0]] + b[1..];
      assert Shorter(a[0], b[0]);
    }
  }

  /** Lines do not run into each other. */
  lemma {:induction false} LinesApart(texts: seq<string>)
    requires forall k :: 0 <= k < |texts| - 1 ==> EndsIn(texts[k], IsSpace)
    ensures Refs(Joined(texts)) == AllRefs(texts)
  {
    forall k: nat | k < |texts| - 1 ensures Closed(texts[k]) && !Hides(texts, k) {
      LastToken(texts[k]);
    }
    forall k: nat ensures !Hides(texts, k) {
      assert k == |texts| - 1 ==> texts[k + 1..] == [];
    }
    AllSideBySide(texts);
  }

  lemma {:induction false} ReviewRefs(lines: seq<Line>, evidence: seq<Terms>, terms: string -> Terms)
    requires evidence != [] && AllWritten(lines)
    ensures Refs(Review(lines, evidence, terms).text) == Flat(RefsOf(Texts(LineReviews(lines, evidence, terms))))
  {
    var texts := Texts(LineReviews(lines, evidence, terms));
    TextIsJoined(LineReviews(lines, evidence, terms));
    forall k | 0 <= k < |texts| - 1 ensures EndsIn(texts[k], IsSpace) {
      assert Written(lines, k);
      LineBreaks(lines, k, evidence, terms);
    }
    LinesApart(texts);
    AllAreFlat(texts);
  }

  /** A reader of the new answer finds the markers that its parts were given if and only if nowhere a covered sentence
      stands in front of one that starts with `(`. */
  lemma {:induction false} AnswerReadsBack(lines: seq<Line>, evidence: seq<Terms>, terms: string -> Terms)
    requires evidence != [] && AllWritten(lines)
    ensures Refs(Review(lines, evidence, terms).text) == Flat(Given(lines, evidence, terms))
            <==> forall i: nat :: !LinksAt(lines, i, evidence, terms)
  {
    var read, given := RefsOf(Texts(LineReviews(lines, evidence, terms))), Given(lines, evidence, terms);
    ReviewRefs(lines, evidence, terms);
    forall i: nat | i < |lines|
      ensures Shorter(read[i], given[i]) && (read[i] == given[i] <==> !LinksAt(lines, i, evidence, terms))
    {
      assert Written(lines, i);
      LineGives(lines, i, evidence, terms);
    }
    FlatsAgree(read, given);
  }

  lemma {:induction false} AmongFlat(lists: seq<seq<nat>>, i: nat, r: nat)
    requires i < |lists| && r in lists[i]
    ensures r in Flat(lists)
  {
    if i > 0 {
      AmongFlat(lists[1..], i - 1, r);
    }
  }

  lemma {:induction false} CitedIsGiven(lines: seq<Line>, i: nat, r: nat, evidence: seq<Terms>,
                                        terms: string -> Terms)
    requires i < |lines| && evidence != [] && r in LineReview(lines, i, evidence, terms).tally.cited
    ensures r in GivenOn(lines, i, evidence, terms)
  {
    if Protected(lines, i) {
      NamingExactly(Refs(lines[i].text), |evidence|);
    } else {
      var parts := lines[i].sentences;
      var k := CitedSomewhere(SentenceReviews(parts, evidence, terms), r);
      SettledIsSupported(Refs(parts[k]), terms(Unbracketed(parts[k])), evidence);
      SentenceReadsBack(parts[k], evidence, terms);
      AscendingIsSorted(Elements(Sentence(parts[k], evidence, terms).tally.cited), |evidence|);
      AllAreFlat(Rewritten(parts, evidence, terms));
      AmongFlat(RefsOf(Rewritten(parts, evidence, terms)), k, r);
    }
  }

  /** In that case every source that is reported as cited is one that the reader finds. */
  lemma {:induction false} CitedIsShown(lines: seq<Line>, r: nat, evidence: seq<Terms>, terms: string -> Terms)
    requires evidence != [] && AllWritten(lines) && forall i: nat :: !LinksAt(lines, i, evidence, terms)
    requires r in Review(lines, evidence, terms).tally.cited
    ensures r in Refs(Review(lines, evidence, terms).text)
  {
    AnswerReadsBack(lines, evidence, terms);
    var i := CitedSomewhere(LineReviews(lines, evidence, terms), r);
    CitedIsGiven(lines, i, r, evidence, terms);
    AmongFlat(Given(lines, evidence, terms), i, r);
  }

  // ---- A marker that becomes a link ------------------------------------------------------------

  predicate NoEnd(t: string) {
    forall i :: 0 <= i < |t| ==> !EndsSentence(t[i])
  }

  lemma {:induction false} OneSentence(t: string)
    requires NoEnd(t)
    ensures Sentences(t) == [t]
  {
    assert !(NextCut(t, 1) <= |t|);
  }

  lemma {:induction false} TwoSentences(first: string, rest: string)
    requires EndsIn(first, EndsSentence) && NoEnd(first[..|first| - 1]) && NoEnd(rest) && '[' !in rest
    ensures Sentences(first + rest) == [first, rest]
  {
    var t, n := first + rest, |first|;
    assert t[n..] == rest && t[..n] == first;
    assert BracketLength(rest) == 0;
    assert CutAt(t, n);
    forall j | 1 <= j < n ensures !CutAt(t, j) {
      assert t[j - 1] == first[..n - 1][j - 1];
    }
    assert NextCut(t, 1) == n;
    OneSentence(rest);
  }

  lemma {:induction false} FirstIsCovered(first: string, source: Terms, terms: string -> Terms)
    requires EndsIn(first, EndsSentence) && '[' !in first && terms(first) != {} && Supports(terms(first), source)
    ensures var v := Sentence(first, [source], terms); v.text == first + Mark(1) && v.tally.cited == [1]
  {
    WithoutBrackets(first);
    UnbracketedPlain(first);
    OneSourceFor(first, terms(first), source);
  }

  lemma {:induction false} RestStays(rest: string, source: Terms, terms: string -> Terms)
    requires '[' !in rest && !EndsIn(rest, IsSpace) && !Supports(terms(rest), source)
    ensures var v := Sentence(rest, [source], terms); v.text == rest && v.tally.cited == []
  {
    WithoutBrackets(rest);
    UnbracketedPlain(rest);
    if terms(rest) != {} {
      NoSourceFor(rest, terms(rest), source);
      NoneHolds([], terms(rest), [source]);
    }
  }

  /** The marker of a supported sentence, in front of a parenthesis, is a link to the reader, although its source is
      reported as cited: `so it is.(see below)` becomes `so it is.[1](see below)`. */
  lemma {:induction false} MarkerBecomesLink(first: string, rest: string, source: Terms, terms: string -> Terms)
    requires EndsIn(first, EndsSentence) && NoEnd(first[..|first| - 1]) && '[' !in first
    requires NoEnd(rest) && '[' !in rest && StartsIn(rest, '(') && !EndsIn(rest, IsSpace)
    requires terms(first) != {} && Supports(terms(first), source) && !Supports(terms(rest), source)
    ensures Sentences(first + rest) == [first, rest]
    ensures var review := ThenAll(SentenceReviews([first, rest], [source], terms));
            review.text == (first + Mark(1)) + rest && review.tally.cited == [1] && Refs(review.text) == []
  {
    TwoSentences(first, rest);
    FirstIsCovered(first, source, terms);
    RestStays(rest, source, terms);
    TwoVerdicts(Sentence(first, [source], terms), Sentence(rest, [source], terms));
    var reviews := SentenceReviews([first, rest], [source], terms);
    assert reviews == [Sentence(first, [source], terms), Sentence(rest, [source], terms)];
    WithoutBrackets(first);
    WithoutBrackets(rest);
    MarkReadBehind(first);
    SideBySide(first + Mark(1), rest);
  }

  lemma {:induction false} TwoVerdicts(a: Verdict, b: Verdict)
    ensures ThenAll([a, b]).text == a.text + b.text && ThenAll([a, b]).tally.cited == a.tally.cited + b.tally.cited
  {
    var two, one, none: seq<Verdict> := [a, b], [a], [];
    assert two[..1] == one && one[..0] == none;
    assert ThenAll(one) == Then(ThenAll(none), a) && ThenAll(two) == Then(ThenAll(one), b);
    assert "" + a.text == a.text && [] + a.tally.cited == a.tally.cited;
  }

  lemma {:induction false} MarkReadBehind(t: string)
    requires '[' !in t
    ensures Refs(t + Mark(1)) == [1] && EndsInMarker(t + Mark(1)) && Closed(t + Mark(1))
  {
    WithoutBrackets(t);
    OneMark(1);
    MarksAreRead([1]);
    MarksStandApart([1]);
    RefsAppend(t, Mark(1));
    EndsWithMarks(t, [1]);
  }
}
