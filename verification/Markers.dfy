/** Citation markers such as `[12]` in running text: finding, removing and writing them. */
module Markers {

  predicate IsDigit(c: char) {
    '0' <= c <= '9'
  }

  predicate IsSpace(c: char) {
    c == ' ' || c == '\t' || c == '\n' || c == '\r'
  }

  /** The number of digits at the head of a text. */
  function DigitRun(t: string): (n: nat)
    ensures n <= |t|
  {
    if t == "" || !IsDigit(t[0]) then 0 else 1 + DigitRun(t[1..])
  }

  /** The length of the number in brackets at the head of a text, or 0. */
  function BracketLength(t: string): (n: nat)
    ensures n <= |t| && (n == 0 || n >= 3)
  {
    if t == "" || t[0] != '[' then 0
    else
      var d := DigitRun(t[1..]);
      if d > 0 && d + 1 < |t| && t[d + 1] == ']' then d + 2 else 0
  }

  /** The length of the marker at the head of a text, or 0: a number in brackets that no `(` follows, since that makes a
      link. */
  function MarkLength(t: string): (n: nat)
    ensures n <= |t| && (n == 0 || n >= 3)
  {
    var n := BracketLength(t);
    if n < |t| && t[n] == '(' then 0 else n
  }

  /** The value of a digit. */
  function Value(c: char): nat {
    if IsDigit(c) then c as int - '0' as int else 0
  }

  function Number(digits: string): nat {
    if digits == "" then 0 else 10 * Number(digits[..|digits| - 1]) + Value(digits[|digits| - 1])
  }

  function NumberIn(mark: string): nat
    requires |mark| >= 2
  {
    Number(mark[1..|mark| - 1])
  }

  /** A marker in a text, or one of its other characters. */
  datatype Token = Marker(number: nat) | Plain(c: char)

  function First(t: string): Token
    requires t != ""
  {
    if MarkLength(t) == 0 then Plain(t[0]) else Marker(NumberIn(t[..MarkLength(t)]))
  }

  function Rest(t: string): (rest: string)
    requires t != ""
    ensures |rest| < |t|
  {
    if MarkLength(t) == 0 then t[1..] else t[MarkLength(t)..]
  }

  /** The search through a text from its head. */
  function Tokens(t: string): seq<Token>
    decreases |t|
  {
    if t == "" then [] else [First(t)] + Tokens(Rest(t))
  }

  function Numbers(tokens: seq<Token>): seq<nat> {
    if tokens == [] then [] else (if tokens[0].Marker? then [tokens[0].number] else []) + Numbers(tokens[1..])
  }

  function Plains(tokens: seq<Token>): string {
    if tokens == [] then "" else (if tokens[0].Plain? then [tokens[0].c] else "") + Plains(tokens[1..])
  }

  /** The numbers of the markers of a text, in order. */
  function Refs(t: string): seq<nat> {
    Numbers(Tokens(t))
  }

  /** A text without its markers. */
  function Bare(t: string): string {
    Plains(Tokens(t))
  }

  /** A text without any number in brackets, links or not. */
  function Unbracketed(t: string): string
    decreases |t|
  {
    if t == "" then ""
    else
      var n := BracketLength(t);
      if n == 0 then [t[0]] + Unbracketed(t[1..]) else Unbracketed(t[n..])
  }

  function RStrip(t: string): (r: string)
    ensures r <= t && (r == "" || !IsSpace(r[|r| - 1]))
  {
    if t == "" || !IsSpace(t[|t| - 1]) then t else RStrip(t[..|t| - 1])
  }

  // ---- Writing markers -------------------------------------------------------------------------

  function Digit(d: nat): (c: char)
    requires d < 10
    ensures IsDigit(c) && Value(c) == d
  {
    '0' + d as char
  }

  function Decimal(n: nat): (t: string)
    ensures t != "" && forall i :: 0 <= i < |t| ==> IsDigit(t[i])
  {
    if n < 10 then [Digit(n)] else Decimal(n / 10) + [Digit(n % 10)]
  }

  function Mark(n: nat): string {
    "[" + Decimal(n) + "]"
  }

  function Marks(refs: seq<nat>): string {
    if refs == [] then "" else Mark(refs[0]) + Marks(refs[1..])
  }

  lemma {:induction false} DecimalIsRead(n: nat)
    ensures Number(Decimal(n)) == n
  {
    if n >= 10 {
      var front, last := Decimal(n / 10), Digit(n % 10);
      assert (front + [last])[..|front|] == front;
      DecimalIsRead(n / 10);
    }
  }

  lemma {:induction false} DigitRunOf(digits: string, rest: string)
    requires forall i :: 0 <= i < |digits| ==> IsDigit(digits[i])
    requires rest != "" && !IsDigit(rest[0])
    ensures DigitRun(digits + rest) == |digits|
  {
    if digits == "" {
      assert digits + rest == rest;
    } else {
      assert (digits + rest)[1..] == digits[1..] + rest;
      DigitRunOf(digits[1..], rest);
    }
  }

  /** A text that cannot run into a marker that stands before it. */
  predicate StandsApart(t: string) {
    t == "" || !(IsDigit(t[0]) || t[0] == ']' || t[0] == '(')
  }

  lemma {:induction false} MarkIsFound(n: nat, rest: string)
    requires rest == "" || rest[0] != '('
    ensures MarkLength(Mark(n) + rest) == |Mark(n)| == BracketLength(Mark(n)) && NumberIn(Mark(n)) == n
  {
    var t := Mark(n) + rest;
    assert t[1..] == Decimal(n) + ("]" + rest);
    DigitRunOf(Decimal(n), "]" + rest);
    assert Mark(n)[1..] == Decimal(n) + "]";
    DigitRunOf(Decimal(n), "]");
    assert Mark(n)[1..|Mark(n)| - 1] == Decimal(n);
    DecimalIsRead(n);
  }

  lemma {:induction false} MarksStandApart(refs: seq<nat>)
    ensures StandsApart(Marks(refs))
  {
  }

  lemma {:induction false} DigitRunApart(t: string, m: string)
    requires m == "" || !IsDigit(m[0])
    ensures DigitRun(t + m) == DigitRun(t)
  {
    if t == "" {
      assert t + m == m;
    } else {
      assert (t + m)[1..] == t[1..] + m;
      if IsDigit(t[0]) {
        DigitRunApart(t[1..], m);
      }
    }
  }

  lemma {:induction false} MarkLengthApart(t: string, m: string)
    requires t != "" && StandsApart(m)
    ensures MarkLength(t + m) == MarkLength(t)
  {
    assert (t + m)[1..] == t[1..] + m;
    DigitRunApart(t[1..], m);
  }

  lemma {:induction false} FirstApart(t: string, m: string)
    requires t != "" && StandsApart(m)
    ensures First(t + m) == First(t) && Rest(t + m) == Rest(t) + m
  {
    MarkLengthApart(t, m);
    var n := MarkLength(t);
    assert (t + m)[1..] == t[1..] + m && (t + m)[n..] == t[n..] + m && (t + m)[..n] == t[..n];
  }

  lemma {:induction false} JoinAssociates<T>(a: seq<T>, b: seq<T>, c: seq<T>)
    ensures a + (b + c) == (a + b) + c
  {
  }

  lemma {:induction false} TokensAppend(t: string, m: string)
    requires StandsApart(m)
    ensures Tokens(t + m) == Tokens(t) + Tokens(m)
    decreases |t|
  {
    if t == "" {
      assert t + m == m;
    } else {
      FirstApart(t, m);
      TokensAppend(Rest(t), m);
      JoinAssociates([First(t)], Tokens(Rest(t)), Tokens(m));
    }
  }

  lemma {:induction false} NumbersAppend(a: seq<Token>, b: seq<Token>)
    ensures Numbers(a + b) == Numbers(a) + Numbers(b) && Plains(a + b) == Plains(a) + Plains(b)
  {
    if a == [] {
      assert a + b == b;
    } else {
      assert (a + b)[1..] == a[1..] + b;
      NumbersAppend(a[1..], b);
      JoinAssociates(if a[0].Marker? then [a[0].number] else [], Numbers(a[1..]), Numbers(b));
      JoinAssociates(if a[0].Plain? then [a[0].c] else "", Plains(a[1..]), Plains(b));
    }
  }

  /** Text that stands apart adds its own markers and changes none before it. */
  lemma {:induction false} RefsAppend(t: string, m: string)
    requires StandsApart(m)
    ensures Refs(t + m) == Refs(t) + Refs(m) && Bare(t + m) == Bare(t) + Bare(m)
  {
    TokensAppend(t, m);
    NumbersAppend(Tokens(t), Tokens(m));
  }

  lemma {:induction false} MarkIsOneToken(n: nat)
    ensures Tokens(Mark(n)) == [Marker(n)]
  {
    assert Mark(n) + "" == Mark(n);
    MarkIsFound(n, "");
    assert Mark(n)[..|Mark(n)|] == Mark(n);
    assert Rest(Mark(n)) == "";
  }

  /** Markers that are written one after the other are read back. */
  lemma {:induction false} MarksAreRead(refs: seq<nat>)
    ensures Refs(Marks(refs)) == refs && Bare(Marks(refs)) == ""
  {
    if refs != [] {
      MarksStandApart(refs[1..]);
      RefsAppend(Mark(refs[0]), Marks(refs[1..]));
      MarkIsOneToken(refs[0]);
      MarksAreRead(refs[1..]);
      assert Numbers([Marker(refs[0])]) == [refs[0]] + Numbers([]) && Plains([Marker(refs[0])]) == "" + Plains([]);
    }
  }

  lemma {:induction false} PlainTokens(t: string)
    requires Numbers(Tokens(t)) == []
    ensures Plains(Tokens(t)) == t
    decreases |t|
  {
    if t != "" {
      assert Tokens(t)[0] == First(t) && Tokens(t)[1..] == Tokens(Rest(t));
      PlainTokens(Rest(t));
      assert t == [t[0]] + t[1..];
    }
  }

  lemma {:induction false} BareWithoutRefs(t: string)
    requires Refs(t) == []
    ensures Bare(t) == t
  {
    PlainTokens(t);
  }

  lemma {:induction false} WithoutBrackets(t: string)
    requires '[' !in t
    ensures Refs(t) == [] && Bare(t) == t
    decreases |t|
  {
    if t != "" {
      assert t[0] in t && t == [t[0]] + t[1..];
      WithoutBrackets(t[1..]);
      assert Tokens(t)[1..] == Tokens(t[1..]);
    }
  }

  lemma {:induction false} OpenBracket(t: string)
    requires t == "" || !IsDigit(t[0])
    ensures Refs("[" + t) == Refs(t) && Bare("[" + t) == "[" + Bare(t)
  {
    assert ("[" + t)[1..] == t;
    assert Tokens("[" + t)[1..] == Tokens(t);
  }

  lemma {:induction false} MarkBefore(n: nat, t: string)
    requires t == "" || t[0] != '('
    ensures Refs(Mark(n) + t) == [n] + Refs(t) && Bare(Mark(n) + t) == Bare(t)
  {
    MarkIsFound(n, t);
    var mark := Mark(n);
    assert (mark + t)[..|mark|] == mark && (mark + t)[|mark|..] == t;
    assert Tokens(mark + t)[1..] == Tokens(t);
  }

  // ---- White space at the end ------------------------------------------------------------------

  predicate AllSpace(t: string) {
    forall i :: 0 <= i < |t| ==> IsSpace(t[i])
  }

  lemma {:induction false} RStripSplits(t: string) returns (space: string)
    ensures t == RStrip(t) + space && AllSpace(space)
  {
    if t == "" || !IsSpace(t[|t| - 1]) {
      space := "";
    } else {
      space := RStripSplits(t[..|t| - 1]);
      space := space + [t[|t| - 1]];
      assert t == t[..|t| - 1] + [t[|t| - 1]];
    }
  }

  /** White space at the end holds no marker. */
  lemma {:induction false} RefsOfStripped(t: string)
    ensures Refs(RStrip(t)) == Refs(t)
  {
    var space := RStripSplits(t);
    RefsAppend(RStrip(t), space);
    WithoutBrackets(space);
  }

  lemma {:induction false} BracketLengthApart(t: string, m: string)
    requires t != "" && StandsApart(m)
    ensures BracketLength(t + m) == BracketLength(t)
  {
    assert (t + m)[1..] == t[1..] + m;
    DigitRunApart(t[1..], m);
  }

  /** What is left to search behind the head of a text. */
  function OffBracket(t: string): (rest: string)
    requires t != ""
    ensures |rest| < |t|
  {
    if BracketLength(t) == 0 then t[1..] else t[BracketLength(t)..]
  }

  lemma {:induction false} OffBracketApart(t: string, m: string)
    requires t != "" && StandsApart(m)
    ensures OffBracket(t + m) == OffBracket(t) + m && BracketLength(t + m) == BracketLength(t) && (t + m)[0] == t[0]
  {
    BracketLengthApart(t, m);
    var n := BracketLength(t);
    assert (t + m)[1..] == t[1..] + m && (t + m)[n..] == t[n..] + m;
  }

  lemma {:induction false} UnbracketedStep(t: string)
    requires t != ""
    ensures Unbracketed(t) == (if BracketLength(t) == 0 then [t[0]] else "") + Unbracketed(OffBracket(t))
  {
  }

  lemma {:induction false} UnbracketedAppend(t: string, m: string)
    requires StandsApart(m)
    ensures Unbracketed(t + m) == Unbracketed(t) + Unbracketed(m)
    decreases |t|
  {
    if t == "" {
      assert t + m == m;
    } else {
      OffBracketApart(t, m);
      UnbracketedStep(t);
      UnbracketedStep(t + m);
      UnbracketedAppend(OffBracket(t), m);
      JoinAssociates(if BracketLength(t) == 0 then [t[0]] else "", Unbracketed(OffBracket(t)), Unbracketed(m));
    }
  }

  lemma {:induction false} UnbracketedPlain(t: string)
    requires '[' !in t
    ensures Unbracketed(t) == t
  {
    if t != "" {
      assert t == [t[0]] + t[1..];
      UnbracketedPlain(t[1..]);
    }
  }

  lemma {:induction false} UnbracketedMarks(refs: seq<nat>)
    ensures Unbracketed(Marks(refs)) == ""
  {
    if refs != [] {
      var mark, later := Mark(refs[0]), Marks(refs[1..]);
      MarksStandApart(refs[1..]);
      UnbracketedAppend(mark, later);
      UnbracketedMarks(refs[1..]);
      MarkIsFound(refs[0], "");
      assert mark[|mark|..] == "";
    }
  }
}
