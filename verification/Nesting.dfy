/** Numbers in brackets that only come about when the markers between their characters are removed. */
module Nesting {
  import opened Markers

  predicate IsDigitToken(token: Token) {
    token.Plain? && IsDigit(token.c)
  }

  /** How many markers and digits stand at the head. */
  function Lead(tokens: seq<Token>): (n: nat)
    ensures n <= |tokens|
  {
    if tokens != [] && (tokens[0].Marker? || IsDigitToken(tokens[0])) then 1 + Lead(tokens[1..]) else 0
  }

  /** What stands between a bracket at the head and the first token that is neither a digit nor a marker. */
  function Inside(tokens: seq<Token>): seq<Token>
    requires tokens != []
  {
    tokens[1..1 + Lead(tokens[1..])]
  }

  function Behind(tokens: seq<Token>): seq<Token>
    requires tokens != []
  {
    tokens[1 + Lead(tokens[1..])..]
  }

  /** At the head: `[`, then digits and markers, with at least one digit, then `]`. */
  predicate BracketsNumber(tokens: seq<Token>) {
    && tokens != [] && tokens[0] == Plain('[')
    && Plains(Inside(tokens)) != "" && Behind(tokens) != [] && Behind(tokens)[0] == Plain(']')
  }

  predicate ParenNext(tokens: seq<Token>) {
    Plains(tokens) != "" && Plains(tokens)[0] == '('
  }

  /** Such a bracket around at least one marker. */
  predicate Nests(tokens: seq<Token>) {
    BracketsNumber(tokens) && Numbers(Inside(tokens)) != []
  }

  /** A bracketed number with no `(` behind it, once markers are gone. */
  predicate Reads(tokens: seq<Token>) {
    BracketsNumber(tokens) && !ParenNext(Behind(tokens)[1..])
  }

  /** A bracketed number around at least one marker, with no `(` behind it. */
  predicate Uncovers(tokens: seq<Token>) {
    Nests(tokens) && Reads(tokens)
  }

  /** Some end of the tokens is of a kind. */
  ghost predicate Somewhere(tokens: seq<Token>, p: seq<Token> -> bool) {
    exists i :: 0 <= i < |tokens| && p(tokens[i..])
  }

  lemma {:induction false} SomewhereFirst(tokens: seq<Token>, p: seq<Token> -> bool)
    requires tokens != []
    ensures Somewhere(tokens, p) <==> p(tokens) || Somewhere(tokens[1..], p)
  {
    assert tokens[0..] == tokens;
    forall i | 0 < i < |tokens| ensures tokens[i..] == tokens[1..][i - 1..] {
    }
    if Somewhere(tokens[1..], p) {
      var i :| 0 <= i < |tokens[1..]| && p(tokens[1..][i..]);
      assert tokens[1..][i..] == tokens[i + 1..];
    }
  }

  // ---- Brackets in the text without its markers ------------------------------------------------

  lemma {:induction false} PlainsSplit(tokens: seq<Token>, k: nat)
    requires k <= |tokens|
    ensures Plains(tokens) == Plains(tokens[..k]) + Plains(tokens[k..])
  {
    NumbersAppend(tokens[..k], tokens[k..]);
    assert tokens == tokens[..k] + tokens[k..];
  }

  /** The digits at the head are those among the leading digits and markers. */
  lemma {:induction false} DigitRunIsLead(tokens: seq<Token>)
    ensures DigitRun(Plains(tokens)) == |Plains(tokens[..Lead(tokens)])|
  {
    if tokens == [] {
    } else if tokens[0].Marker? || IsDigitToken(tokens[0]) {
      DigitRunIsLead(tokens[1..]);
      assert tokens[..Lead(tokens)][1..] == tokens[1..][..Lead(tokens[1..])];
      if tokens[0].Plain? {
        assert Plains(tokens)[1..] == Plains(tokens[1..]);
      } else {
        assert Plains(tokens) == Plains(tokens[1..]);
      }
    } else {
      assert Plains(tokens)[0] == tokens[0].c;
    }
  }

  lemma {:induction false} LeadStops(tokens: seq<Token>)
    requires Lead(tokens) < |tokens|
    ensures tokens[Lead(tokens)].Plain? && !IsDigit(tokens[Lead(tokens)].c)
  {
    if tokens[0].Marker? || IsDigitToken(tokens[0]) {
      LeadStops(tokens[1..]);
    }
  }

  lemma {:induction false} BehindFirst(tokens: seq<Token>)
    requires tokens != [] && tokens[0].Plain?
    ensures Plains(tokens) == [tokens[0].c] + (Plains(Inside(tokens)) + Plains(Behind(tokens)))
    ensures Behind(tokens) != [] ==> Behind(tokens)[0].Plain?
    ensures Behind(tokens) != [] ==> Plains(Behind(tokens)) == [Behind(tokens)[0].c] + Plains(Behind(tokens)[1..])
  {
    PlainsSplit(tokens[1..], Lead(tokens[1..]));
    assert tokens[1..][..Lead(tokens[1..])] == Inside(tokens) && tokens[1..][Lead(tokens[1..])..] == Behind(tokens);
    if Behind(tokens) != [] {
      LeadStops(tokens[1..]);
    }
  }

  /** Without its markers a text starts with a number in brackets exactly if its tokens do. */
  lemma {:induction false} BracketExactly(tokens: seq<Token>)
    requires tokens != [] && tokens[0].Plain?
    ensures BracketLength(Plains(tokens)) > 0 <==> BracketsNumber(tokens)
    ensures BracketsNumber(tokens) ==> BracketLength(Plains(tokens)) == |Plains(Inside(tokens))| + 2
  {
    var t, inside, behind := Plains(tokens), Plains(Inside(tokens)), Plains(Behind(tokens));
    BehindFirst(tokens);
    DigitRunIsLead(tokens[1..]);
    assert tokens[1..][..Lead(tokens[1..])] == Inside(tokens);
    assert t[1..] == inside + behind && Plains(tokens[1..]) == inside + behind;
    assert behind != "" ==> t[|inside| + 1] == behind[0];
    assert |t| == 1 + |inside| + |behind|;
  }

  lemma {:induction false} MarkExactly(tokens: seq<Token>)
    requires tokens != [] && tokens[0].Plain?
    ensures MarkLength(Plains(tokens)) > 0 <==> Reads(tokens)
  {
    BracketExactly(tokens);
    if BracketsNumber(tokens) {
      var inside, behind := Plains(Inside(tokens)), Plains(Behind(tokens));
      BehindFirst(tokens);
      var later := Plains(Behind(tokens)[1..]);
      assert Plains(tokens)[|inside| + 2..] == later;
    }
  }

  lemma {:induction false} HeadOfPlains(tokens: seq<Token>)
    requires tokens != [] && tokens[0].Plain?
    ensures MarkLength(Plains(tokens)) > 0 ==> Refs(Plains(tokens)) != []
    ensures MarkLength(Plains(tokens)) == 0 ==> Refs(Plains(tokens)) == Refs(Plains(tokens[1..]))
  {
    var t := Plains(tokens);
    assert t[1..] == Plains(tokens[1..]);
    assert Tokens(t)[0] == First(t) && Tokens(t)[1..] == Tokens(Rest(t));
  }

  /** What is left without the markers reads as a marker exactly if some end of the tokens does. */
  lemma {:induction false} RefsOfPlains(tokens: seq<Token>)
    ensures Refs(Plains(tokens)) != [] <==> Somewhere(tokens, Reads)
  {
    if tokens != [] {
      RefsOfPlains(tokens[1..]);
      SomewhereFirst(tokens, Reads);
      if tokens[0].Plain? {
        MarkExactly(tokens);
        HeadOfPlains(tokens);
      } else {
        assert Plains(tokens) == Plains(tokens[1..]);
      }
    }
  }

  // ---- Brackets around no marker were there before ---------------------------------------------

  lemma {:induction false} LeadDigits(tokens: seq<Token>, i: nat)
    requires i < |Plains(tokens[..Lead(tokens)])|
    ensures IsDigit(Plains(tokens[..Lead(tokens)])[i])
  {
    assert tokens[..Lead(tokens)][1..] == tokens[1..][..Lead(tokens[1..])];
    if tokens[0].Marker? {
      assert Plains(tokens[..Lead(tokens)]) == Plains(tokens[1..][..Lead(tokens[1..])]);
      LeadDigits(tokens[1..], i);
    } else if i > 0 {
      LeadDigits(tokens[1..], i - 1);
    }
  }

  lemma {:induction false} OffFirst<T>(s: seq<T>, k: nat)
    requires 0 < k <= |s|
    ensures s[..k] == [s[0]] + s[1..][..k - 1] && s[1..][k - 1..] == s[k..]
  {
  }

  lemma {:induction false} FirstAndRest(t: string)
    requires t != ""
    ensures Tokens(t) == [First(t)] + Tokens(Rest(t))
    ensures Tokens(t)[0] == First(t) && Tokens(t)[1..] == Tokens(Rest(t))
    ensures First(t).Plain? ==> First(t) == Plain(t[0]) && Rest(t) == t[1..]
  {
  }

  /** Tokens that are no markers are the characters of the text. */
  lemma {:induction false} PlainRun(t: string, k: nat)
    requires k <= |Tokens(t)| && Numbers(Tokens(t)[..k]) == []
    ensures k <= |t| && Plains(Tokens(t)[..k]) == t[..k] && Tokens(t)[k..] == Tokens(t[k..])
  {
    if k == 0 {
      assert t[0..] == t && Tokens(t)[0..] == Tokens(t);
    } else {
      var tokens := Tokens(t);
      FirstAndRest(t);
      OffFirst(tokens, k);
      HeadNumbers(tokens[0], tokens[1..][..k - 1]);
      PlainRun(Rest(t), k - 1);
      OffFirst(t, k);
    }
  }

  lemma {:induction false} HeadNumbers(first: Token, rest: seq<Token>)
    ensures Numbers([first] + rest) == (if first.Marker? then [first.number] else []) + Numbers(rest)
    ensures Plains([first] + rest) == (if first.Plain? then [first.c] else "") + Plains(rest)
  {
    assert ([first] + rest)[1..] == rest;
  }

  /** A bracketed number in the tokens with no marker inside is one in the text, so that a `(` must follow it. */
  lemma {:induction false} NoMarkerInside(t: string)
    requires BracketsNumber(Tokens(t)) && Numbers(Inside(Tokens(t))) == []
    ensures BracketLength(t) > 0 && ParenNext(Behind(Tokens(t))[1..])
  {
    var k := |Inside(Tokens(t))| + 2;
    BracketInText(t, k);
    PlainHead(t);
    ParenBehind(t, k);
    BehindIsRest(Tokens(t));
  }

  lemma {:induction false} PlainHead(t: string)
    requires Tokens(t) != [] && Tokens(t)[0].Plain?
    ensures t != "" && MarkLength(t) == 0
  {
  }

  lemma {:induction false} BehindIsRest(tokens: seq<Token>)
    requires tokens != [] && Behind(tokens) != []
    ensures Behind(tokens)[1..] == tokens[|Inside(tokens)| + 2..]
  {
  }

  lemma {:induction false} BracketInText(t: string, k: nat)
    requires BracketsNumber(Tokens(t)) && Numbers(Inside(Tokens(t))) == [] && k == |Inside(Tokens(t))| + 2
    ensures k <= |Tokens(t)| && k <= |t| && BracketLength(t) == k && Tokens(t)[k..] == Tokens(t[k..])
  {
    var tokens := Tokens(t);
    BracketedPlains(tokens);
    PlainRun(t, k);
    AllPlain(Inside(tokens));
    InsideDigits(tokens);
    DigitsOfText(t, Plains(Inside(tokens)), k);
  }

  lemma {:induction false} ParenBehind(t: string, k: nat)
    requires k == BracketLength(t) > 0 && MarkLength(t) == 0
    ensures ParenNext(Tokens(t[k..]))
  {
    var later := t[k..];
    assert later != "" && later[0] == '(';
    FirstAndRest(later);
    HeadNumbers(First(later), Tokens(Rest(later)));
  }

  lemma {:induction false} BracketedPlains(tokens: seq<Token>)
    requires BracketsNumber(tokens)
    ensures var inside := Inside(tokens);
            && tokens[..|inside| + 2] == [tokens[0]] + (inside + [Behind(tokens)[0]])
            && Plains(tokens[..|inside| + 2]) == "[" + (Plains(inside) + "]")
            && Numbers(tokens[..|inside| + 2]) == Numbers(inside)
  {
    var inside, last := Inside(tokens), Behind(tokens)[0];
    HeadNumbers(tokens[0], inside + [last]);
    NumbersAppend(inside, [last]);
    HeadNumbers(last, []);
    assert [last] + [] == [last];
  }

  lemma {:induction false} InsideDigits(tokens: seq<Token>)
    requires tokens != []
    ensures forall i :: 0 <= i < |Plains(Inside(tokens))| ==> IsDigit(Plains(Inside(tokens))[i])
  {
    forall i | 0 <= i < |Plains(Inside(tokens))| ensures IsDigit(Plains(Inside(tokens))[i]) {
      assert tokens[1..][..Lead(tokens[1..])] == Inside(tokens);
      LeadDigits(tokens[1..], i);
    }
  }

  lemma {:induction false} DigitsOfText(t: string, digits: string, k: nat)
    requires k == |digits| + 2 <= |t| && t[..k] == "[" + (digits + "]") && digits != ""
    requires forall i :: 0 <= i < |digits| ==> IsDigit(digits[i])
    ensures BracketLength(t) == k
  {
    assert t[1..] == digits + ("]" + t[k..]) by {
      assert t == t[..k] + t[k..];
    }
    DigitRunOf(digits, "]" + t[k..]);
  }

  lemma {:induction false} AllPlain(tokens: seq<Token>)
    requires Numbers(tokens) == []
    ensures |Plains(tokens)| == |tokens|
  {
    if tokens != [] {
      AllPlain(tokens[1..]);
    }
  }

  lemma {:induction false} ReadsUncovers(t: string)
    ensures Somewhere(Tokens(t), Reads) <==> Somewhere(Tokens(t), Uncovers)
    decreases |t|
  {
    if t != "" {
      var tokens := Tokens(t);
      SomewhereFirst(tokens, Reads);
      SomewhereFirst(tokens, Uncovers);
      assert tokens[1..] == Tokens(Rest(t));
      ReadsUncovers(Rest(t));
      if Reads(tokens) && !Nests(tokens) {
        NoMarkerInside(t);
      }
    }
  }

  /** Removing the markers of a text uncovers another exactly if somewhere in it `[` is followed only by digits and
      markers, with at least one of each, up to a `]` with no `(` behind it. */
  lemma {:induction false} UncoveredExactly(t: string)
    ensures Refs(Bare(t)) != [] <==> Somewhere(Tokens(t), Uncovers)
  {
    RefsOfPlains(Tokens(t));
    ReadsUncovers(t);
  }

  // ---- Brackets of any kind --------------------------------------------------------------------

  lemma {:induction false} SomewhereLater(tokens: seq<Token>, k: nat, p: seq<Token> -> bool)
    requires k <= |tokens| && Somewhere(tokens[k..], p)
    ensures Somewhere(tokens, p)
  {
    var i :| 0 <= i < |tokens[k..]| && p(tokens[k..][i..]);
    assert tokens[k..][i..] == tokens[k + i..];
  }

  lemma {:induction false} NoBracketRun(t: string, k: nat)
    requires k <= |t| && '[' !in t[..k]
    ensures k <= |Tokens(t)| && Tokens(t)[k..] == Tokens(t[k..])
    ensures Bare(t) == t[..k] + Bare(t[k..])
  {
    if k == 0 {
      assert t[0..] == t && Tokens(t)[0..] == Tokens(t);
    } else {
      assert t[..k][0] == t[0] != '[';
      OffFirst(t, k);
      NoBracketRun(t[1..], k - 1);
      FirstAndRest(t);
      OffFirst(Tokens(t), k);
      HeadNumbers(First(t), Tokens(t[1..]));
      JoinAssociates([t[0]], t[1..][..k - 1], Bare(t[k..]));
    }
  }

  lemma {:induction false} BracketShape(t: string)
    requires BracketLength(t) > 0
    ensures var n := BracketLength(t);
            && t[0] == '[' && t[n - 1] == ']' && DigitRun(t[1..]) == n - 2
            && (forall i :: 1 <= i < n - 1 ==> IsDigit(t[i]))
  {
    var n := BracketLength(t);
    forall i | 1 <= i < n - 1 ensures IsDigit(t[i]) {
      DigitsInRun(t[1..], i - 1);
    }
  }

  lemma {:induction false} DigitsInRun(t: string, i: nat)
    requires i < DigitRun(t)
    ensures IsDigit(t[i])
  {
    if i > 0 {
      DigitsInRun(t[1..], i - 1);
    }
  }

  lemma {:induction false} OneBracket(t: string, n: nat)
    requires n == BracketLength(t) > 0
    ensures '[' !in t[1..n]
  {
    BracketShape(t);
    forall c | c in t[1..n] ensures c != '[' {
      var i :| 0 <= i < n - 1 && t[1..n][i] == c;
      assert t[i + 1] == c;
    }
  }

  /** A number in brackets that a `(` follows stays where it is. */
  lemma {:induction false} LinkStays(t: string, n: nat)
    requires n == BracketLength(t) > 0 && MarkLength(t) == 0
    ensures Bare(t) == t[..n] + Bare(t[n..])
    ensures n <= |Tokens(t)| && Tokens(t)[n..] == Tokens(t[n..])
  {
    OneBracket(t, n);
    assert t[1..][..n - 1] == t[1..n];
    NoBracketRun(t[1..], n - 1);
    FirstAndRest(t);
    OffFirst(t, n);
    OffFirst(Tokens(t), n);
    HeadNumbers(First(t), Tokens(t[1..]));
    JoinAssociates([t[0]], t[1..][..n - 1], Bare(t[n..]));
  }

  lemma {:induction false} LinkLength(t: string, n: nat, later: string)
    requires n == BracketLength(t) > 0
    ensures BracketLength(t[..n] + later) == n
  {
    BracketShape(t);
    var digits, now := t[1..n - 1], t[..n] + later;
    assert now[1..] == digits + ("]" + later);
    DigitRunOf(digits, "]" + later);
  }

  lemma {:induction false} MarkerGoes(t: string)
    requires MarkLength(t) > 0
    ensures Bare(t) == Bare(Rest(t)) && Unbracketed(t) == Unbracketed(Rest(t))
  {
    FirstAndRest(t);
    HeadNumbers(First(t), Tokens(Rest(t)));
    assert "" + Bare(Rest(t)) == Bare(Rest(t));
  }

  lemma {:induction false} CharacterStays(t: string)
    requires t != "" && BracketLength(t) == 0
    ensures Bare(t) == [t[0]] + Bare(t[1..]) && Unbracketed(t) == [t[0]] + Unbracketed(t[1..])
  {
    FirstAndRest(t);
    HeadNumbers(First(t), Tokens(t[1..]));
  }

  lemma {:induction false} UnbracketedFirst(c: char, t: string)
    requires BracketLength([c] + t) == 0
    ensures Unbracketed([c] + t) == [c] + Unbracketed(t)
  {
    assert ([c] + t)[1..] == t;
  }

  lemma {:induction false} UnbracketedSkip(a: string, t: string)
    requires BracketLength(a + t) == |a| > 0
    ensures Unbracketed(a + t) == Unbracketed(t)
  {
    assert (a + t)[|a|..] == t;
  }

  lemma {:induction false} NothingNew(t: string)
    requires t != "" && BracketLength(t) == 0 && !Nests(Tokens(t))
    ensures BracketLength(Bare(t)) == 0
  {
    FirstAndRest(t);
    BracketExactly(Tokens(t));
    if BracketsNumber(Tokens(t)) {
      NoMarkerInside(t);
    }
  }

  /** Unless a number in brackets stands around a marker, removing the markers first makes no difference to removing all
      numbers in brackets. */
  lemma {:induction false} UnbracketedBare(t: string)
    requires !Somewhere(Tokens(t), Nests)
    ensures Unbracketed(Bare(t)) == Unbracketed(t)
    decreases |t|
  {
    if t != "" {
      SomewhereFirst(Tokens(t), Nests);
      FirstAndRest(t);
      var n := BracketLength(t);
      if MarkLength(t) > 0 {
        MarkerGoes(t);
        UnbracketedBare(Rest(t));
      } else if n == 0 {
        NothingNew(t);
        CharacterStays(t);
        UnbracketedFirst(t[0], Bare(t[1..]));
        UnbracketedBare(t[1..]);
      } else {
        LinkStays(t, n);
        LinkLength(t, n, Bare(t[n..]));
        UnbracketedSkip(t[..n], Bare(t[n..]));
        if Somewhere(Tokens(t[n..]), Nests) {
          SomewhereLater(Tokens(t), n, Nests);
        }
        UnbracketedBare(t[n..]);
      }
    }
  }

  // ---- What a removal can lose -----------------------------------------------------------------

  /** The number of characters that are not white space. */
  function Visible(t: string): nat {
    if t == "" then 0 else (if IsSpace(t[0]) then 0 else 1) + Visible(t[1..])
  }

  lemma {:induction false} VisibleAppend(a: string, b: string)
    ensures Visible(a + b) == Visible(a) + Visible(b)
  {
    if a == "" {
      assert a + b == b;
    } else {
      assert (a + b)[1..] == a[1..] + b;
      VisibleAppend(a[1..], b);
    }
  }

  lemma {:induction false} SpaceIsInvisible(space: string)
    requires AllSpace(space)
    ensures Visible(space) == 0
  {
    if space != "" {
      SpaceIsInvisible(space[1..]);
    }
  }

  lemma {:induction false} VisibleFirst(c: char, t: string)
    ensures Visible([c] + t) == (if IsSpace(c) then 0 else 1) + Visible(t)
  {
    assert ([c] + t)[1..] == t;
  }

  lemma {:induction false} UnbracketedRun(a: string, t: string)
    requires '[' !in a
    ensures Unbracketed(a + t) == a + Unbracketed(t)
  {
    if a == "" {
      assert a + t == t;
    } else {
      assert a[0] in a && (a + t)[1..] == a[1..] + t;
      UnbracketedRun(a[1..], t);
    }
  }

  /** A bracketed number hides the rest of a text no better than the same characters without their bracket. */
  lemma {:induction false} BracketHides(t: string)
    requires BracketLength(t) > 0
    ensures Visible(Unbracketed(t)) < Visible(Unbracketed(t[1..])) + 1
  {
    var n := BracketLength(t);
    OneBracket(t, n);
    assert t[1..] == t[1..n] + t[n..];
    UnbracketedRun(t[1..n], t[n..]);
    VisibleAppend(t[1..n], Unbracketed(t[n..]));
  }

  lemma {:induction false} RunTokens(t: string, k: nat)
    requires k <= |t| && '[' !in t[..k]
    ensures k <= |Tokens(t)| && forall i :: 0 <= i < k ==> Tokens(t)[i] == Plain(t[i])
  {
    if k > 0 {
      assert t[..k][0] == t[0] != '[';
      OffFirst(t, k);
      FirstAndRest(t);
      RunTokens(t[1..], k - 1);
    }
  }

  lemma {:induction false} LeadUpTo(tokens: seq<Token>, k: nat)
    requires k < |tokens| && tokens[k].Plain? && !IsDigit(tokens[k].c)
    ensures Lead(tokens) <= k
  {
    if k > 0 {
      LeadUpTo(tokens[1..], k - 1);
    }
  }

  lemma {:induction false} NoNumbers(tokens: seq<Token>)
    requires forall i :: 0 <= i < |tokens| ==> tokens[i].Plain?
    ensures Numbers(tokens) == []
  {
    if tokens != [] {
      NoNumbers(tokens[1..]);
    }
  }

  /** In a link no bracket opens behind the first, and the first one holds no marker. */
  lemma {:induction false} LinkTokens(t: string, n: nat)
    requires n == BracketLength(t) > 0 && MarkLength(t) == 0 && n <= |Tokens(t)|
    ensures forall i :: 1 <= i < n ==> Tokens(t)[i] != Plain('[')
    ensures !Nests(Tokens(t))
  {
    var tokens := Tokens(t);
    BracketShape(t);
    OneBracket(t, n);
    assert t[1..][..n - 1] == t[1..n];
    RunTokens(t[1..], n - 1);
    FirstAndRest(t);
    forall i | 1 <= i < n ensures tokens[i] == Plain(t[i]) && t[i] != '[' {
      assert tokens[1..][i - 1] == tokens[i] && t[1..][i - 1] == t[i];
      assert t[i] == t[1..n][i - 1] && t[i] in t[1..n];
    }
    LeadUpTo(tokens[1..], n - 2);
    NoNumbers(Inside(tokens));
  }

  lemma {:induction false} NotInLink(t: string, n: nat)
    requires n == BracketLength(t) > 0 && MarkLength(t) == 0
    ensures Somewhere(Tokens(t), Nests) ==> n <= |Tokens(t)| && Somewhere(Tokens(t)[n..], Nests)
  {
    LinkStays(t, n);
    LinkTokens(t, n);
    if Somewhere(Tokens(t), Nests) {
      NestsLater(Tokens(t), n);
    }
  }

  lemma {:induction false} NestsLater(tokens: seq<Token>, n: nat)
    requires n <= |tokens| && Somewhere(tokens, Nests) && !Nests(tokens)
    requires forall i :: 1 <= i < n ==> tokens[i] != Plain('[')
    ensures Somewhere(tokens[n..], Nests)
  {
    assert tokens[0..] == tokens;
    var i :| 0 <= i < |tokens| && Nests(tokens[i..]);
    assert tokens[i..][0] == tokens[i];
    assert tokens[n..][i - n..] == tokens[i..];
  }

  /** Removing the markers first never leaves more outside brackets, and less if a bracket stood around a marker. */
  lemma {:induction false} UnbracketedLoses(t: string)
    ensures Visible(Unbracketed(Bare(t))) <= Visible(Unbracketed(t))
    ensures Somewhere(Tokens(t), Nests) ==> Visible(Unbracketed(Bare(t))) < Visible(Unbracketed(t))
    decreases |t|
  {
    if t != "" {
      SomewhereFirst(Tokens(t), Nests);
      FirstAndRest(t);
      var n := BracketLength(t);
      if MarkLength(t) > 0 {
        MarkerGoes(t);
        UnbracketedLoses(Rest(t));
      } else if n == 0 {
        UnbracketedLoses(t[1..]);
        CharacterLoses(t);
      } else {
        LinkStays(t, n);
        LinkLength(t, n, Bare(t[n..]));
        UnbracketedSkip(t[..n], Bare(t[n..]));
        NotInLink(t, n);
        UnbracketedLoses(t[n..]);
      }
    }
  }

  lemma {:induction false} CharacterLoses(t: string)
    requires t != "" && BracketLength(t) == 0
    requires Visible(Unbracketed(Bare(t[1..]))) <= Visible(Unbracketed(t[1..]))
    ensures Visible(Unbracketed(t)) == Visible(Unbracketed(t[1..])) + if IsSpace(t[0]) then 0 else 1
    ensures Nests(Tokens(t)) ==> Visible(Unbracketed(Bare(t))) < Visible(Unbracketed(t))
    ensures !Nests(Tokens(t)) ==>
              Visible(Unbracketed(t)) - Visible(Unbracketed(Bare(t)))
              == Visible(Unbracketed(t[1..])) - Visible(Unbracketed(Bare(t[1..])))
  {
    CharacterStays(t);
    VisibleFirst(t[0], Unbracketed(t[1..]));
    if Nests(Tokens(t)) {
      FirstAndRest(t);
      BracketExactly(Tokens(t));
      assert Bare(t)[1..] == Bare(t[1..]);
      BracketHides(Bare(t));
    } else {
      NothingNew(t);
      UnbracketedFirst(t[0], Bare(t[1..]));
      VisibleFirst(t[0], Unbracketed(Bare(t[1..])));
    }
  }
}
