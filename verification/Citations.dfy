/** Checking the citations of an answer against its sources, and adding those that are missing. */
module Citations {
  import opened Finite
  import opened Markers
  import opened Nesting
  import opened Fractions

  // ---- Support ---------------------------------------------------------------------------------

  type Terms = set<string>

  /** How much of a claim's terms a source has; nothing if it has too few of them. */
  function SupportScore(claim: Terms, source: Terms): real {
    var overlap, needed := |claim * source|, if |claim| <= 2 then 1 else 2;
    if overlap < needed then 0.0 else overlap as real / (if |claim| > 1 then |claim| else 1) as real
  }

  predicate Supports(claim: Terms, source: Terms) {
    SupportScore(claim, source) >= 0.15
  }

  /** The threshold in whole numbers: claims of up to thirteen terms need one or two common terms, longer ones 15
      percent. */
  lemma {:induction false} SupportsExactly(claim: Terms, source: Terms)
    requires claim != {}
    ensures var overlap := |claim * source|;
            Supports(claim, source) <==>
              if |claim| <= 2 then overlap >= 1 else if |claim| <= 13 then overlap >= 2 else 20 * overlap >= 3 * |claim|
  {
    var overlap, size := |claim * source|, |claim|;
    if overlap >= 1 {
      RatioExactly(overlap, size);
    }
  }

  lemma {:induction false} RatioExactly(overlap: nat, size: nat)
    requires size >= 1
    ensures overlap as real / size as real >= 0.15 <==> 20 * overlap >= 3 * size
  {
    var q := overlap as real / size as real;
    assert q * size as real == overlap as real;
    if q >= 0.15 {
      assert (q - 0.15) * size as real >= 0.0;
    } else {
      assert (0.15 - q) * size as real > 0.0;
    }
  }

  predicate InRange(ref: nat, n: nat) {
    1 <= ref <= n
  }

  predicate SupportedRef(ref: nat, claim: Terms, evidence: seq<Terms>) {
    InRange(ref, |evidence|) && Supports(claim, evidence[ref - 1])
  }

  /** The references of a claim that hold, in the order of the text. */
  function Holding(refs: seq<nat>, claim: Terms, evidence: seq<Terms>): (kept: seq<nat>)
    ensures |kept| <= |refs|
  {
    if refs == [] then []
    else
      var last := refs[|refs| - 1];
      Holding(refs[..|refs| - 1], claim, evidence) + if SupportedRef(last, claim, evidence) then [last] else []
  }

  /** The first of the sources that support a claim most. */
  function Best(claim: Terms, evidence: seq<Terms>): (best: nat)
    requires evidence != []
    ensures best < |evidence|
    ensures forall j :: 0 <= j < |evidence| ==> SupportScore(claim, evidence[j]) <= SupportScore(claim, evidence[best])
    ensures forall j :: 0 <= j < best ==> SupportScore(claim, evidence[j]) < SupportScore(claim, evidence[best])
  {
    var n := |evidence| - 1;
    if n == 0 then 0
    else
      var b := Best(claim, evidence[..n]);
      assert forall j :: 0 <= j < n ==> evidence[..n][j] == evidence[j];
      if SupportScore(claim, evidence[n]) > SupportScore(claim, evidence[b]) then n else b
  }

  lemma {:induction false} MoreScoresMore(claim: Terms, a: Terms, b: Terms)
    requires claim != {} && SupportScore(claim, b) > 0.0 && |claim * a| > |claim * b|
    ensures SupportScore(claim, a) > SupportScore(claim, b)
  {
    Fewer(|claim * b| as real, |claim * a| as real, (if |claim| > 1 then |claim| else 1) as real);
  }

  lemma {:induction false} Fewer(x: real, y: real, d: real)
    requires x < y && d > 0.0
    ensures x / d < y / d
  {
    Quotient(y, x, d);
  }

  /** If any source supports a claim, no source has more of its terms than the best one. */
  lemma {:induction false} BestHasMost(claim: Terms, evidence: seq<Terms>, j: nat)
    requires evidence != [] && claim != {} && j < |evidence| && Supports(claim, evidence[Best(claim, evidence)])
    ensures |claim * evidence[j]| <= |claim * evidence[Best(claim, evidence)]|
  {
    if |claim * evidence[j]| > |claim * evidence[Best(claim, evidence)]| {
      MoreScoresMore(claim, evidence[j], evidence[Best(claim, evidence)]);
    }
  }

  /** The references a claim ends up with: those of its own that hold, or else its best source. */
  function Settled(refs: seq<nat>, claim: Terms, evidence: seq<Terms>): seq<nat>
    requires evidence != []
  {
    var kept, best := Holding(refs, claim, evidence), Best(claim, evidence);
    if kept != [] then kept else if Supports(claim, evidence[best]) then [best + 1] else []
  }

  lemma {:induction false} HoldingExactly(refs: seq<nat>, claim: Terms, evidence: seq<Terms>)
    ensures forall r: nat :: r in Holding(refs, claim, evidence) <==> r in refs && SupportedRef(r, claim, evidence)
  {
    if refs != [] {
      var front := refs[..|refs| - 1];
      HoldingExactly(front, claim, evidence);
      assert refs == front + [refs[|refs| - 1]];
    }
  }

  /** A claim keeps every reference of its own that holds, gets no reference that does not hold, and stays without one
      only when no source supports it. */
  lemma {:induction false} SettledIsSupported(refs: seq<nat>, claim: Terms, evidence: seq<Terms>)
    requires evidence != []
    ensures var settled := Settled(refs, claim, evidence);
            && (forall r :: r in settled ==> SupportedRef(r, claim, evidence))
            && (forall r :: r in refs && SupportedRef(r, claim, evidence) ==> r in settled)
            && (settled == [] <==> forall j :: 0 <= j < |evidence| ==> !Supports(claim, evidence[j]))
  {
    HoldingExactly(refs, claim, evidence);
    var kept := Holding(refs, claim, evidence);
    if kept != [] {
      assert kept[0] in kept;
      assert Supports(claim, evidence[kept[0] - 1]);
    }
  }

  /** The members of a set among 1..n, in ascending order. */
  function Ascending(s: set<nat>, n: nat): seq<nat> {
    if n == 0 then [] else Ascending(s, n - 1) + if n in s then [n] else []
  }

  lemma {:induction false} AscendingIsSorted(s: set<nat>, n: nat)
    ensures var list := Ascending(s, n);
            && (forall i, j :: 0 <= i < j < |list| ==> list[i] < list[j])
            && (forall r: nat :: r in list <==> r in s && InRange(r, n))
  {
    if n > 0 {
      AscendingIsSorted(s, n - 1);
      var front, list := Ascending(s, n - 1), Ascending(s, n);
      forall i, j | 0 <= i < j < |list| ensures list[i] < list[j] {
        assert front[i] in front;
        assert j < |front| ==> front[j] in front;
      }
    }
  }

  // ---- One sentence ----------------------------------------------------------------------------

  /** What a review counts. `added` counts the claims that got a source they did not name. */
  datatype Tally = Tally(cited: seq<nat>, invalid: nat, unsupported: nat, factual: nat, covered: nat, added: nat)

  datatype Verdict = Verdict(text: string, tally: Tally)

  function Nothing(text: string): Verdict {
    Verdict(text, Tally([], 0, 0, 0, 0, 0))
  }

  function Then(a: Verdict, b: Verdict): Verdict {
    Verdict(a.text + b.text,
            Tally(a.tally.cited + b.tally.cited, a.tally.invalid + b.tally.invalid,
                  a.tally.unsupported + b.tally.unsupported, a.tally.factual + b.tally.factual,
                  a.tally.covered + b.tally.covered, a.tally.added + b.tally.added))
  }

  /** A sentence without its markers and without white space at its end. */
  function Cleaned(sentence: string): string {
    RStrip(Bare(sentence))
  }

  /** A claim with its settled references behind it. */
  function Claim(text: string, claim: Terms, evidence: seq<Terms>): Verdict
    requires evidence != []
  {
    var refs := Refs(text);
    var kept, settled := Holding(refs, claim, evidence), Settled(refs, claim, evidence);
    Verdict(Cleaned(text) + Marks(Ascending(Elements(settled), |evidence|)),
            Tally(settled, |refs| - |kept|, if settled == [] then 1 else 0, 1, if settled == [] then 0 else 1,
                  if kept == [] && settled != [] then 1 else 0))
  }

  /** A sentence without terms is left alone. */
  function Sentence(text: string, evidence: seq<Terms>, terms: string -> Terms): Verdict
    requires evidence != []
  {
    var claim := terms(Unbracketed(text));
    if claim == {} then Nothing(text) else Claim(text, claim, evidence)
  }

  /** The references of a claim that hold, and how many do not. */
  method JudgeRefs(refs: seq<nat>, claim: Terms, evidence: seq<Terms>) returns (supported: seq<nat>, invalid: nat)
    ensures supported == Holding(refs, claim, evidence) && invalid == |refs| - |supported|
  {
    supported, invalid := [], 0;
    for i := 0 to |refs|
      invariant supported == Holding(refs[..i], claim, evidence) && invalid + |supported| == i
    {
      assert refs[..i + 1][..i] == refs[..i];
      if !(1 <= refs[i] <= |evidence|) {
        invalid := invalid + 1;
      } else if SupportScore(claim, evidence[refs[i] - 1]) >= 0.15 {
        supported := supported + [refs[i]];
      } else {
        invalid := invalid + 1;
      }
    }
    assert refs[..|refs|] == refs;
  }

  method ReviewClaim(text: string, claim: Terms, evidence: seq<Terms>) returns (verdict: Verdict)
    requires evidence != []
    ensures verdict == Claim(text, claim, evidence)
  {
    var supported, invalid := JudgeRefs(Refs(text), claim, evidence);
    var unsupported, added, covered, marks := 0, 0, 0, "";
    if supported == [] {
      var best := Best(claim, evidence);
      if SupportScore(claim, evidence[best]) >= 0.15 {
        supported, added := [best + 1], 1;
      } else {
        unsupported := 1;
      }
    }
    assert supported == Settled(Refs(text), claim, evidence);
    NoMarks(|evidence|);
    if supported != [] {
      covered := 1;
      marks := Marks(Ascending(Elements(supported), |evidence|));
    }
    verdict := Verdict(Cleaned(text) + marks, Tally(supported, invalid, unsupported, 1, covered, added));
  }

  method ReviewSentence(text: string, evidence: seq<Terms>, terms: string -> Terms) returns (verdict: Verdict)
    requires evidence != []
    ensures verdict == Sentence(text, evidence, terms)
  {
    var claim := terms(Unbracketed(text));
    if claim == {} {
      verdict := Nothing(text);
    } else {
      verdict := ReviewClaim(text, claim, evidence);
    }
  }

  lemma {:induction false} NoMarks(n: nat)
    ensures Ascending(Elements([]), n) == []
  {
    if n > 0 {
      NoMarks(n - 1);
    }
  }

  lemma {:induction false} CleanedRefs(text: string)
    ensures Refs(Cleaned(text)) == Refs(Bare(text))
    ensures Refs(Cleaned(text)) != [] <==> Somewhere(Tokens(text), Uncovers)
  {
    RefsOfStripped(Bare(text));
    UncoveredExactly(text);
  }

  /** The markers a reader finds in a rewritten sentence: any that cleaning uncovered, then the settled ones, each once.
      They are the settled ones alone if and only if nowhere in the sentence a `[` is followed only by digits and
      markers, with at least one of each, up to a `]` with no `(` behind it. */
  lemma {:induction false} SentenceReadsBack(text: string, evidence: seq<Terms>, terms: string -> Terms)
    requires evidence != [] && terms(Unbracketed(text)) != {}
    ensures var verdict := Sentence(text, evidence, terms);
            var settled := Ascending(Elements(verdict.tally.cited), |evidence|);
            && Refs(verdict.text) == Refs(Bare(text)) + settled
            && (Refs(verdict.text) == settled <==> !Somewhere(Tokens(text), Uncovers))
  {
    var marks := Ascending(Elements(Sentence(text, evidence, terms).tally.cited), |evidence|);
    MarksStandApart(marks);
    RefsAppend(Cleaned(text), Marks(marks));
    MarksAreRead(marks);
    CleanedRefs(text);
    if Refs(Cleaned(text)) + marks == marks {
      assert |Refs(Cleaned(text)) + marks| == |marks|;
    }
  }

  /** Beside its markers the rewritten claim is the old one without them and without space at its end. */
  lemma {:induction false} SentenceKeepsItsWords(text: string, evidence: seq<Terms>, terms: string -> Terms)
    requires evidence != [] && terms(Unbracketed(text)) != {} && !Somewhere(Tokens(text), Uncovers)
    ensures Bare(Sentence(text, evidence, terms).text) == RStrip(Bare(text))
  {
    var marks := Ascending(Elements(Sentence(text, evidence, terms).tally.cited), |evidence|);
    MarksStandApart(marks);
    RefsAppend(Cleaned(text), Marks(marks));
    MarksAreRead(marks);
    CleanedRefs(text);
    BareWithoutRefs(Cleaned(text));
  }

  /** Removing a marker that stands inside another bracket uncovers a marker that nobody judged. */
  lemma {:induction false} RemovalCanUncoverAMarker(inner: nat, outer: nat)
    ensures Refs("[" + (Mark(inner) + (Decimal(outer) + "]"))) == [inner]
    ensures Refs(Cleaned("[" + (Mark(inner) + (Decimal(outer) + "]")))) == [outer]
  {
    Uncovered(inner, outer, Decimal(outer) + "]");
  }

  lemma {:induction false} Uncovered(inner: nat, outer: nat, tail: string)
    requires tail == Decimal(outer) + "]"
    ensures Refs("[" + (Mark(inner) + tail)) == [inner] && Refs(Cleaned("[" + (Mark(inner) + tail))) == [outer]
  {
    WithoutBrackets(tail);
    MarkBefore(inner, tail);
    OpenBracket(Mark(inner) + tail);
    MarkIsClean(outer, tail);
  }

  lemma {:induction false} MarkIsClean(n: nat, tail: string)
    requires tail == Decimal(n) + "]"
    ensures Refs(RStrip("[" + tail)) == [n]
  {
    assert "[" + tail == Mark(n);
    assert RStrip(Mark(n)) == Mark(n);
    MarkIsOneToken(n);
    assert Numbers([Marker(n)]) == [n] + Numbers([]);
  }

  lemma {:induction false} HoldingAll(refs: seq<nat>, claim: Terms, evidence: seq<Terms>)
    requires forall r :: r in refs ==> SupportedRef(r, claim, evidence)
    ensures Holding(refs, claim, evidence) == refs
  {
    if refs != [] {
      var front := refs[..|refs| - 1];
      assert refs == front + [refs[|refs| - 1]];
      HoldingAll(front, claim, evidence);
    }
  }

  lemma {:induction false} AscendingAgain(s: set<nat>, n: nat, r: seq<nat>)
    requires r == Ascending(s, n)
    ensures Ascending(Elements(r), n) == r
  {
    AscendingIsSorted(s, n);
    AscendingAgree(Elements(r), s, n);
  }

  lemma {:induction false} AscendingAgree(a: set<nat>, b: set<nat>, n: nat)
    requires forall r: nat :: InRange(r, n) ==> (r in a <==> r in b)
    ensures Ascending(a, n) == Ascending(b, n)
  {
    if n > 0 {
      forall r: nat | InRange(r, n - 1) ensures r in a <==> r in b {
        assert InRange(r, n);
      }
      AscendingAgree(a, b, n - 1);
      assert InRange(n, n);
    }
  }

  lemma {:induction false} SettledTwice(refs: seq<nat>, claim: Terms, evidence: seq<Terms>)
    requires evidence != []
    ensures var again := Ascending(Elements(Settled(refs, claim, evidence)), |evidence|);
            && Holding(again, claim, evidence) == again == Settled(again, claim, evidence)
            && (again == [] <==> Settled(refs, claim, evidence) == [])
  {
    var settled := Settled(refs, claim, evidence);
    var again := Ascending(Elements(settled), |evidence|);
    SettledIsSupported(refs, claim, evidence);
    AscendingIsSorted(Elements(settled), |evidence|);
    forall r | r in again ensures SupportedRef(r, claim, evidence) {
      assert r in settled;
    }
    HoldingAll(again, claim, evidence);
    if settled != [] {
      assert settled[0] in settled && settled[0] in Elements(settled);
    } else {
      NoMarks(|evidence|);
    }
  }

  lemma {:induction false} RStripTwice(t: string)
    ensures RStrip(RStrip(t)) == RStrip(t)
  {
  }

  /** A second review finds every marker valid, adds none, counts what the first one did, and writes the same text. */
  predicate Again(first: Verdict, second: Verdict) {
    && second.text == first.text && second.tally.invalid == 0 && second.tally.added == 0
    && second.tally.factual == first.tally.factual
    && second.tally.unsupported == first.tally.unsupported && second.tally.covered == first.tally.covered
  }

  /** As long as the terms are the same, a claim without an uncovered marker can be reviewed again. */
  lemma {:induction false} ClaimAgain(text: string, claim: Terms, evidence: seq<Terms>)
    requires evidence != [] && !Somewhere(Tokens(text), Uncovers)
    ensures var first := Claim(text, claim, evidence); Again(first, Claim(first.text, claim, evidence))
  {
    var settled := Settled(Refs(text), claim, evidence);
    var again := Ascending(Elements(settled), |evidence|);
    var cleaned := Cleaned(text);
    CleanedRefs(text);
    MarksStandApart(again);
    RefsAppend(cleaned, Marks(again));
    MarksAreRead(again);
    BareWithoutRefs(cleaned);
    RStripTwice(Bare(text));
    SettledTwice(Refs(text), claim, evidence);
    AscendingAgain(Elements(settled), |evidence|, again);
    assert Refs(cleaned + Marks(again)) == again && Bare(cleaned + Marks(again)) == cleaned;
  }

  /** What is looked at for terms does not depend on white space at its end. */
  ghost predicate IgnoresSpace(terms: string -> Terms) {
    forall t, space :: AllSpace(space) ==> terms(t + space) == terms(t)
  }

  /** A second review of the rewritten sentence is without effect. */
  ghost predicate Stable(text: string, evidence: seq<Terms>, terms: string -> Terms)
    requires evidence != []
  {
    var first := Sentence(text, evidence, terms);
    Again(first, Sentence(first.text, evidence, terms))
  }

  ghost predicate AlwaysStable(text: string) {
    forall evidence, terms {:trigger Stable(text, evidence, terms)} ::
      evidence != [] && IgnoresSpace(terms) ==> Stable(text, evidence, terms)
  }

  /** The words of a claim outside brackets are those of the rewritten claim, up to white space at the end. */
  lemma {:induction false} SameWords(text: string, refs: seq<nat>) returns (space: string)
    requires !Somewhere(Tokens(text), Nests)
    ensures AllSpace(space) && Unbracketed(text) == Unbracketed(Cleaned(text) + Marks(refs)) + space
  {
    UnbracketedBare(text);
    space := RStripSplits(Bare(text));
    UnbracketedAppend(Cleaned(text), space);
    UnbracketedPlain(space);
    MarksStandApart(refs);
    UnbracketedAppend(Cleaned(text), Marks(refs));
    UnbracketedMarks(refs);
    assert Unbracketed(Cleaned(text)) + "" == Unbracketed(Cleaned(text));
  }

  lemma {:induction false} UncoversNests(tokens: seq<Token>)
    requires Somewhere(tokens, Uncovers)
    ensures Somewhere(tokens, Nests)
  {
    var i :| 0 <= i < |tokens| && Uncovers(tokens[i..]);
    assert Nests(tokens[i..]);
  }

  /** A sentence in which no number in brackets stands around a marker can be reviewed again. */
  lemma {:induction false} ReviewOnceIsEnough(text: string, evidence: seq<Terms>, terms: string -> Terms)
    requires evidence != [] && IgnoresSpace(terms) && !Somewhere(Tokens(text), Nests)
    ensures Stable(text, evidence, terms)
  {
    var claim := terms(Unbracketed(text));
    if claim != {} {
      var space := SameWords(text, Ascending(Elements(Settled(Refs(text), claim, evidence)), |evidence|));
      if Somewhere(Tokens(text), Uncovers) {
        UncoversNests(Tokens(text));
      }
      ClaimAgain(text, claim, evidence);
      assert terms(Unbracketed(Claim(text, claim, evidence).text)) == claim;
    }
  }

  lemma {:induction false} NoneHolds(refs: seq<nat>, claim: Terms, evidence: seq<Terms>)
    requires forall j :: 0 <= j < |evidence| ==> !Supports(claim, evidence[j])
    ensures Holding(refs, claim, evidence) == []
  {
    if refs != [] {
      NoneHolds(refs[..|refs| - 1], claim, evidence);
    }
  }

  /** Against a source without terms every marker is invalid, and the claim is unsupported. */
  lemma {:induction false} NothingHolds(text: string, claim: Terms)
    requires claim != {}
    ensures Claim(text, claim, [{}]).text == Cleaned(text) && Claim(text, claim, [{}]).tally.unsupported == 1
  {
    assert claim * {} == {};
    NoSourceFor(text, claim, {});
  }

  /** Terms that a text has only with so many characters. */
  function TermsAt(n: nat): string -> Terms {
    (t: string) => if Visible(t) == n then {"claim"} else {}
  }

  lemma {:induction false} TermsAtIgnoreSpace(n: nat)
    ensures IgnoresSpace(TermsAt(n))
  {
    forall t, space | AllSpace(space) ensures TermsAt(n)(t + space) == TermsAt(n)(t) {
      VisibleAppend(t, space);
      SpaceIsInvisible(space);
    }
  }

  lemma {:induction false} VisibleCleaned(text: string)
    ensures Visible(Unbracketed(Cleaned(text))) == Visible(Unbracketed(Bare(text)))
  {
    var space := RStripSplits(Bare(text));
    UnbracketedAppend(Cleaned(text), space);
    UnbracketedPlain(space);
    VisibleAppend(Unbracketed(Cleaned(text)), space);
    SpaceIsInvisible(space);
  }

  /** A number in brackets around a marker is a word to the first review, and a marker or link to the second. */
  lemma {:induction false} UnstableIfNested(text: string)
    requires Somewhere(Tokens(text), Nests)
    ensures !AlwaysStable(text)
  {
    var terms := TermsAt(Visible(Unbracketed(text)));
    TermsAtIgnoreSpace(Visible(Unbracketed(text)));
    NothingHolds(text, {"claim"});
    UnbracketedLoses(text);
    VisibleCleaned(text);
    assert Sentence(text, [{}], terms).text == Cleaned(text);
    assert terms(Unbracketed(Cleaned(text))) == {};
    assert !Stable(text, [{}], terms);
  }

  /** Reviewing once is enough, whatever the terms and the sources, if and only if nowhere in the sentence a `[` is
      followed only by digits and markers, with at least one of each, up to a `]`. */
  lemma {:induction false} ReviewOnceExactly(text: string)
    ensures AlwaysStable(text) <==> !Somewhere(Tokens(text), Nests)
  {
    if Somewhere(Tokens(text), Nests) {
      UnstableIfNested(text);
    } else {
      forall evidence, terms: string -> Terms | evidence != [] && IgnoresSpace(terms)
        ensures Stable(text, evidence, terms)
      {
        ReviewOnceIsEnough(text, evidence, terms);
      }
    }
  }

  /** A link around a number: a word to the first review, and nothing to the second. */
  function Linked(word: string, digits: string, link: string): string {
    word + ("[" + (digits + ("]" + link)))
  }

  function NestedLink(word: string, a: string, inner: nat, b: string, link: string): string {
    word + ("[" + (a + (Mark(inner) + (b + ("]" + link)))))
  }

  predicate IsLink(link: string) {
    '[' !in link && link != "" && link[0] == '(' && !IsSpace(link[|link| - 1])
  }

  predicate AllDigits(t: string) {
    forall i :: 0 <= i < |t| ==> IsDigit(t[i])
  }

  /** A character that starts no number in brackets, before text that is known. */
  lemma {:induction false} CharacterBefore(c: char, t: string)
    requires BracketLength([c] + t) == 0
    ensures Refs([c] + t) == Refs(t) && Bare([c] + t) == [c] + Bare(t) && Unbracketed([c] + t) == [c] + Unbracketed(t)
  {
    assert ([c] + t)[1..] == t;
    FirstAndRest([c] + t);
    HeadNumbers(Plain(c), Tokens(t));
    CharacterStays([c] + t);
  }

  lemma {:induction false} TextBefore(word: string, t: string)
    requires '[' !in word
    ensures Refs(word + t) == Refs(t) && Bare(word + t) == word + Bare(t)
    ensures Unbracketed(word + t) == word + Unbracketed(t)
  {
    if word == "" {
      assert word + t == t;
    } else {
      var c, later := word[0], word[1..];
      assert c in word && word == [c] + later;
      JoinAssociates([c], later, t);
      JoinAssociates([c], later, Bare(t));
      JoinAssociates([c], later, Unbracketed(t));
      TextBefore(later, t);
      CharacterBefore(c, later + t);
    }
  }

  lemma {:induction false} NoBracketIn(t: string)
    requires AllDigits(t)
    ensures '[' !in t
  {
  }

  lemma {:induction false} MarkerBefore(n: nat, t: string)
    requires t == "" || t[0] != '('
    ensures Refs(Mark(n) + t) == [n] + Refs(t) && Bare(Mark(n) + t) == Bare(t)
    ensures Unbracketed(Mark(n) + t) == Unbracketed(t)
  {
    MarkBefore(n, t);
    MarkIsFound(n, t);
    UnbracketedSkip(Mark(n), t);
  }

  /** A bracket whose number another bracket interrupts. */
  lemma {:induction false} Interrupted(a: string, t: string)
    requires AllDigits(a) && t != "" && t[0] == '['
    ensures Refs("[" + (a + t)) == Refs(t) && Bare("[" + (a + t)) == "[" + (a + Bare(t))
    ensures Unbracketed("[" + (a + t)) == "[" + (a + Unbracketed(t))
  {
    NoBracketIn(a);
    TextBefore(a, t);
    DigitRunOf(a, t);
    assert ("[" + (a + t))[1..] == a + t;
    CharacterBefore('[', a + t);
  }

  lemma {:induction false} LinkShape(digits: string, link: string, t: string)
    requires AllDigits(digits) && digits != "" && IsLink(link) && t == "[" + (digits + ("]" + link))
    ensures t[1..] == digits + ("]" + link) && BracketLength(t) == |digits| + 2 && MarkLength(t) == 0
    ensures t[BracketLength(t)..] == link
  {
    DigitRunOf(digits, "]" + link);
    assert t[1..] == digits + ("]" + link) && t[|digits| + 2..] == link;
  }

  lemma {:induction false} LinkIsRead(digits: string, link: string)
    requires AllDigits(digits) && digits != "" && IsLink(link)
    ensures var t := "[" + (digits + ("]" + link)); Refs(t) == [] && Bare(t) == t && Unbracketed(t) == link
  {
    var rest := digits + ("]" + link);
    var t := "[" + rest;
    LinkShape(digits, link, t);
    NoBracketIn(digits);
    WithoutBrackets(rest);
    FirstAndRest(t);
    HeadNumbers(Plain('['), Tokens(rest));
    BareWithoutRefs(t);
    UnbracketedPlain(link);
  }

  lemma {:induction false} LinkedIsRead(word: string, digits: string, link: string)
    requires '[' !in word && AllDigits(digits) && digits != "" && IsLink(link)
    ensures var t := Linked(word, digits, link); Refs(t) == [] && Bare(t) == t && Unbracketed(t) == word + link
  {
    LinkIsRead(digits, link);
    TextBefore(word, "[" + (digits + ("]" + link)));
  }

  lemma {:induction false} LinkEnds(word: string, digits: string, link: string)
    requires IsLink(link)
    ensures RStrip(Linked(word, digits, link)) == Linked(word, digits, link)
  {
    var t := Linked(word, digits, link);
    assert t == (word + "[" + digits + "]") + link;
    assert t[|t| - 1] == link[|link| - 1];
  }

  lemma {:induction false} NestedLinkIsRead(word: string, a: string, inner: nat, b: string, link: string)
    requires '[' !in word && AllDigits(a) && AllDigits(b) && IsLink(link)
    ensures var t := NestedLink(word, a, inner, b, link);
            Refs(t) == [inner] && Bare(t) == Unbracketed(t) == Linked(word, a + b, link)
  {
    var behind := b + ("]" + link);
    InnerIsRead(inner, b, link);
    Interrupted(a, Mark(inner) + behind);
    JoinAssociates(a, b, "]" + link);
    TextBefore(word, "[" + (a + (Mark(inner) + behind)));
  }

  lemma {:induction false} InnerIsRead(inner: nat, b: string, link: string)
    requires AllDigits(b) && IsLink(link)
    ensures var t := Mark(inner) + (b + ("]" + link));
            Refs(t) == [inner] && Bare(t) == Unbracketed(t) == b + ("]" + link)
  {
    var behind := b + ("]" + link);
    NoBracketIn(b);
    WithoutBrackets(behind);
    UnbracketedPlain(behind);
    MarkerBefore(inner, behind);
    assert [inner] + [] == [inner];
  }

  /** No marker is uncovered here, and yet the claim that was unsupported gets a source in the second review, as the
      number of the link is no longer among its terms; `word [1[2]3](link)` is such a sentence. */
  lemma {:induction false} LinkLosesItsNumber(word: string, a: string, inner: nat, b: string, link: string,
                                              terms: string -> Terms)
    requires '[' !in word && AllDigits(a) && AllDigits(b) && a + b != "" && IsLink(link)
    requires "word" in terms(Linked(word, a + b, link)) * terms(word + link)
    requires |terms(Linked(word, a + b, link))| == 3 && |terms(word + link)| == 2
    ensures var text, now := NestedLink(word, a, inner, b, link), Linked(word, a + b, link);
            var first := Sentence(text, [{"word"}], terms);
            var second := Sentence(first.text, [{"word"}], terms);
            && Refs(Bare(text)) == []
            && first.text == now && first.tally.unsupported == 1 && first.tally.added == 0
            && second.text == now + Mark(1) && second.tally.unsupported == 0 && second.tally.added == 1
  {
    var text, now := NestedLink(word, a, inner, b, link), Linked(word, a + b, link);
    NestedLinkIsRead(word, a, inner, b, link);
    LinkedIsRead(word, a + b, link);
    LinkEnds(word, a + b, link);
    OneCommonTerm(terms(now));
    OneCommonTerm(terms(word + link));
    NoSourceFor(text, terms(now), {"word"});
    OneSourceFor(now, terms(word + link), {"word"});
  }

  lemma {:induction false} OneCommonTerm(claim: Terms)
    requires "word" in claim && 2 <= |claim| <= 3
    ensures Supports(claim, {"word"}) <==> |claim| == 2
  {
    assert claim * {"word"} == {"word"};
    SupportsExactly(claim, {"word"});
  }

  lemma {:induction false} NoSourceFor(text: string, claim: Terms, source: Terms)
    requires !Supports(claim, source)
    ensures var v := Claim(text, claim, [source]);
            v.text == Cleaned(text) && v.tally.unsupported == 1 && v.tally.added == 0
  {
    NoneHolds(Refs(text), claim, [source]);
    NoMarks(1);
    assert Cleaned(text) + "" == Cleaned(text);
  }

  lemma {:induction false} OneSourceFor(text: string, claim: Terms, source: Terms)
    requires Supports(claim, source) && Refs(text) == []
    ensures var v := Claim(text, claim, [source]);
            v.text == Cleaned(text) + Mark(1) && v.tally.unsupported == 0 && v.tally.added == 1
  {
    assert Settled([], claim, [source]) == [1];
    OneListed();
    OneMark(1);
  }

  lemma {:induction false} OneListed()
    ensures Ascending(Elements([1]), 1) == [1]
  {
    var s := Elements([1]);
    assert [1][0] in s;
    assert Ascending(s, 0) == [] && Ascending(s, 1) == Ascending(s, 0) + [1];
  }

  lemma {:induction false} OneMark(n: nat)
    ensures Marks([n]) == Mark(n)
  {
    assert Mark(n) + "" == Mark(n);
  }

  // ---- An answer without any citation ----------------------------------------------------------

  /** The references of a text that name one of n sources. */
  function Naming(refs: seq<nat>, n: nat): (named: seq<nat>)
    ensures |named| <= |refs|
  {
    if refs == [] then []
    else
      var last := refs[|refs| - 1];
      Naming(refs[..|refs| - 1], n) + if InRange(last, n) then [last] else []
  }

  lemma {:induction false} NamingExactly(refs: seq<nat>, n: nat)
    ensures forall r: nat :: r in Naming(refs, n) <==> r in refs && InRange(r, n)
  {
    if refs != [] {
      NamingExactly(refs[..|refs| - 1], n);
      assert refs == refs[..|refs| - 1] + [refs[|refs| - 1]];
    }
  }

  function Insert(r: nat, list: seq<nat>): seq<nat> {
    if list == [] || r <= list[0] then [r] + list else [list[0]] + Insert(r, list[1..])
  }

  function Sorted(list: seq<nat>): seq<nat> {
    if list == [] then [] else Insert(list[0], Sorted(list[1..]))
  }

  predicate Ordered(list: seq<nat>) {
    forall i, j :: 0 <= i < j < |list| ==> list[i] <= list[j]
  }

  lemma {:induction false} InsertKeeps(r: nat, list: seq<nat>)
    ensures multiset(Insert(r, list)) == multiset(list) + multiset{r}
  {
    if list != [] && r > list[0] {
      InsertKeeps(r, list[1..]);
      assert list == [list[0]] + list[1..];
    }
  }

  lemma {:induction false} InsertAbove(r: nat, list: seq<nat>, low: nat)
    requires low <= r && forall i :: 0 <= i < |list| ==> low <= list[i]
    ensures forall i :: 0 <= i < |Insert(r, list)| ==> low <= Insert(r, list)[i]
  {
    if list != [] && r > list[0] {
      InsertAbove(r, list[1..], low);
    }
  }

  lemma {:induction false} InsertOrders(r: nat, list: seq<nat>)
    requires Ordered(list)
    ensures Ordered(Insert(r, list))
  {
    if list != [] && r > list[0] {
      InsertOrders(r, list[1..]);
      InsertAbove(r, list[1..], list[0]);
    }
  }

  lemma {:induction false} SortedKeeps(list: seq<nat>)
    ensures Ordered(Sorted(list)) && multiset(Sorted(list)) == multiset(list)
  {
    if list != [] {
      SortedKeeps(list[1..]);
      InsertKeeps(list[0], Sorted(list[1..]));
      InsertOrders(list[0], Sorted(list[1..]));
      assert list == [list[0]] + list[1..];
    }
  }

  lemma {:induction false} SameMembers(a: seq<nat>, b: seq<nat>)
    requires multiset(a) == multiset(b)
    ensures forall r :: r in a <==> r in b
  {
    forall r ensures r in a <==> r in b {
      assert r in a <==> r in multiset(a);
      assert r in b <==> r in multiset(b);
    }
  }

  function Upto(n: nat): (list: seq<nat>)
    ensures |list| == n && forall i :: 0 <= i < n ==> list[i] == i + 1
  {
    seq(n, i => i + 1)
  }

  /** An answer that names no source gets a marker for every source behind it. */
  function EnsureCitations(answer: string, n: nat): (r: (string, seq<nat>, bool))
  {
    var named := Naming(Refs(answer), n);
    if n == 0 then (answer, [], false)
    else if named != [] then (answer, Sorted(named), false)
    else (RStrip(answer) + ("\n\n" + Marks(Upto(n))), Upto(n), true)
  }

  lemma {:induction false} ParagraphBreak(m: string)
    requires StandsApart(m)
    ensures Refs("\n\n" + m) == Refs(m)
  {
    WithoutBrackets("\n\n");
    RefsAppend("\n\n", m);
  }

  /** Whatever was cited is what the text names, and a second pass changes nothing. */
  lemma {:induction false} EnsuredOnce(answer: string, n: nat)
    ensures var (text, cited, added) := EnsureCitations(answer, n);
            && (n > 0 ==> cited != [])
            && (forall r :: r in cited ==> InRange(r, n) && r in Refs(text))
            && Ordered(cited)
            && (added <==> n > 0 && forall r :: r in Refs(answer) ==> !InRange(r, n))
            && EnsureCitations(text, n).0 == text && !EnsureCitations(text, n).2
  {
    NamingExactly(Refs(answer), n);
    var named := Naming(Refs(answer), n);
    SortedKeeps(named);
    SameMembers(Sorted(named), named);
    if n > 0 && named != [] {
      assert named[0] in named;
    } else if n > 0 {
      var marks := Marks(Upto(n));
      MarksStandApart(Upto(n));
      ParagraphBreak(marks);
      MarksAreRead(Upto(n));
      RefsAppend(RStrip(answer), "\n\n" + marks);
      var text := EnsureCitations(answer, n).0;
      assert Refs(text) == Refs(RStrip(answer)) + Upto(n);
      NamingExactly(Refs(text), n);
      assert Upto(n)[0] in Refs(text);
      forall r | r in Upto(n) ensures InRange(r, n) && r in Refs(text) {
      }
    }
  }

  /** The answer stays what it was, but for white space at its end and the markers behind it, which are 1 to n. */
  lemma {:induction false} EnsuredKeepsAnswer(answer: string, n: nat)
    ensures var (text, cited, added) := EnsureCitations(answer, n);
            && RStrip(answer) <= text && (!added ==> text == answer)
            && (!added ==> forall r :: r in cited <==> r in Refs(answer) && InRange(r, n))
            && (added ==> Refs(text) == Refs(answer) + cited && |cited| == n)
            && (added ==> Bare(text) == Bare(RStrip(answer)) + "\n\n")
  {
    var named, marks := Naming(Refs(answer), n), Marks(Upto(n));
    NamingExactly(Refs(answer), n);
    SortedKeeps(named);
    SameMembers(Sorted(named), named);
    MarksStandApart(Upto(n));
    MarksAreRead(Upto(n));
    RefsOfStripped(answer);
    RefsAppend(RStrip(answer), "\n\n" + marks);
    WithoutBrackets("\n\n");
    RefsAppend("\n\n", marks);
    assert "\n\n" + "" == "\n\n";
    assert [] + Upto(n) == Upto(n);
  }
}
