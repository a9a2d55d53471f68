/** Replaying a buffered answer in small pieces, and cutting a conversation to a token budget. */
module AnswerReplay {

  /** The mark in front of a token that is thought and not answered. */
  const THINK: string := "__THINK__"

  predicate IsThought(token: string) {
    |token| >= 9 && token[..9] == THINK
  }

  /** What the reader of a stream has at its end. */
  datatype Heard = Heard(thinking: string, answer: string)

  function Both(a: Heard, b: Heard): Heard {
    Heard(a.thinking + b.thinking, a.answer + b.answer)
  }

  function HearOne(token: string): Heard {
    if IsThought(token) then Heard(token[9..], "") else Heard("", token)
  }

  function Hear(tokens: seq<string>): Heard {
    if tokens == [] then Heard("", "") else Both(HearOne(tokens[0]), Hear(tokens[1..]))
  }

  /** The reading loop of the stream handler. */
  method Listen(tokens: seq<string>) returns (thinking: string, answer: string)
    ensures Heard(thinking, answer) == Hear(tokens)
  {
    thinking, answer := "", "";
    for i := 0 to |tokens|
      invariant Both(Heard(thinking, answer), Hear(tokens[i..])) == Hear(tokens)
    {
      var token := tokens[i];
      assert tokens[i..][1..] == tokens[i + 1..];
      if IsThought(token) {
        thinking := thinking + token[9..];
      } else {
        answer := answer + token;
      }
    }
  }

  function ChunkSize(chunkChars: int): (size: nat)
    ensures 1 <= size <= 32 && (1 <= chunkChars <= 32 ==> size == chunkChars)
  {
    if chunkChars < 1 then 1 else if chunkChars > 32 then 32 else chunkChars
  }

  /** Where the piece that starts at `start` ends. */
  function EndOf(content: string, start: nat, size: nat): (end: nat)
    requires size >= 1 && start < |content|
    ensures start < end <= |content| && end - start <= size && (end < |content| ==> end - start == size)
  {
    if start + size < |content| then start + size else |content|
  }

  /** A text cut every `size` characters from `start` on, each piece behind the prefix. */
  function Cut(prefix: string, content: string, start: nat, size: nat): seq<string>
    requires size >= 1 && start <= |content|
    decreases |content| - start
  {
    if start == |content| then []
    else
      var end := EndOf(content, start, size);
      [prefix + content[start..end]] + Cut(prefix, content, end, size)
  }

  function CutToken(token: string, size: nat): seq<string>
    requires size >= 1
  {
    if IsThought(token) then Cut(THINK, token[9..], 0, size) else Cut("", token, 0, size)
  }

  function CutAll(tokens: seq<string>, size: nat): seq<string>
    requires size >= 1
  {
    if tokens == [] then [] else CutToken(tokens[0], size) + CutAll(tokens[1..], size)
  }

  /** The pieces of one token. */
  method CutInto(prefix: string, content: string, size: nat) returns (pieces: seq<string>)
    requires size >= 1
    ensures pieces == Cut(prefix, content, 0, size)
  {
    pieces := [];
    var start := 0;
    while start < |content|
      invariant 0 <= start
      invariant pieces + Cut(prefix, content, if start < |content| then start else |content|, size)
                == Cut(prefix, content, 0, size)
    {
      var end := EndOf(content, start, size);
      pieces := pieces + [prefix + content[start..end]];
      start := start + size;
    }
  }

  method AgenticReplayTokens(tokens: seq<string>, chunkChars: int) returns (replay: seq<string>)
    ensures replay == CutAll(tokens, ChunkSize(chunkChars))
  {
    var size := ChunkSize(chunkChars);
    replay := [];
    for i := 0 to |tokens|
      invariant replay + CutAll(tokens[i..], size) == CutAll(tokens, size)
    {
      var token := tokens[i];
      assert tokens[i..][1..] == tokens[i + 1..];
      var prefix := if IsThought(token) then THINK else "";
      assert token[0..] == token;
      var pieces := CutInto(prefix, token[|prefix|..], size);
      replay := replay + pieces;
    }
  }

  // ---- What replaying keeps --------------------------------------------------------------------

  lemma {:induction false} BothAssociates(a: Heard, b: Heard, c: Heard)
    ensures Both(a, Both(b, c)) == Both(Both(a, b), c)
  {
    assert a.thinking + (b.thinking + c.thinking) == (a.thinking + b.thinking) + c.thinking;
    assert a.answer + (b.answer + c.answer) == (a.answer + b.answer) + c.answer;
  }

  lemma {:induction false} HearAppend(a: seq<string>, b: seq<string>)
    ensures Hear(a + b) == Both(Hear(a), Hear(b))
  {
    if a == [] {
      assert a + b == b;
    } else {
      HearAppend(a[1..], b);
      assert (a + b)[1..] == a[1..] + b;
      BothAssociates(HearOne(a[0]), Hear(a[1..]), Hear(b));
    }
  }

  lemma {:induction false} MarkedIsThought(content: string)
    ensures IsThought(THINK + content) && HearOne(THINK + content) == Heard(content, "")
  {
    assert (THINK + content)[..9] == THINK;
  }

  lemma {:induction false} CutThought(content: string, start: nat, size: nat)
    requires size >= 1 && start <= |content|
    ensures Hear(Cut(THINK, content, start, size)) == Heard(content[start..], "")
    decreases |content| - start
  {
    if start < |content| {
      var end := EndOf(content, start, size);
      MarkedIsThought(content[start..end]);
      CutThought(content, end, size);
      HearAppend([THINK + content[start..end]], Cut(THINK, content, end, size));
      assert content[start..] == content[start..end] + content[end..];
    }
  }

  /** Whether some cut of the text after `start` falls just before what reads as the mark, in a piece with room for
      it. */
  predicate CutBeforeMark(content: string, start: nat, size: nat)
    requires size >= 1 && start <= |content|
    decreases |content| - start
  {
    if size < 9 || |content| - start <= size then false
    else IsThought(content[start + size..]) || CutBeforeMark(content, start + size, size)
  }

  lemma {:induction false} PieceIsThoughtExactly(content: string, start: nat, size: nat)
    requires size >= 1 && start < |content|
    ensures IsThought(content[start..EndOf(content, start, size)]) <==> IsThought(content[start..]) && size >= 9
  {
    var end := EndOf(content, start, size);
    if |content| - start >= 9 && size >= 9 {
      assert content[start..end][..9] == content[start..][..9];
    }
  }

  lemma {:induction false} HearPiece(content: string, start: nat, size: nat)
    requires size >= 1 && start < |content|
    ensures var end := EndOf(content, start, size);
            var heard, rest := Hear(Cut("", content, start, size)), Hear(Cut("", content, end, size));
            if IsThought(content[start..]) && size >= 9 then |heard.answer| < end - start + |rest.answer|
            else heard == Both(Heard("", content[start..end]), rest)
  {
    var end := EndOf(content, start, size);
    var piece := content[start..end];
    PieceIsThoughtExactly(content, start, size);
    assert "" + piece == piece;
    HearAppend([piece], Cut("", content, end, size));
    assert Hear([piece]) == Both(HearOne(piece), Heard("", ""));
  }

  lemma {:induction false} CutPlain(content: string, start: nat, size: nat)
    requires size >= 1 && start <= |content|
    ensures var heard := Hear(Cut("", content, start, size));
            if (IsThought(content[start..]) && size >= 9) || CutBeforeMark(content, start, size)
            then |heard.answer| < |content| - start
            else heard == Heard("", content[start..])
    decreases |content| - start
  {
    if start < |content| {
      var end := EndOf(content, start, size);
      HearPiece(content, start, size);
      CutPlain(content, end, size);
      SuffixSplits(content, start, end);
      NextCut(content, start, size);
    }
  }

  lemma {:induction false} SuffixSplits(content: string, start: nat, end: nat)
    requires start <= end <= |content|
    ensures content[start..] == content[start..end] + content[end..]
  {
  }

  /** What starts at the next cut decides, and then the cuts after it. */
  lemma {:induction false} NextCut(content: string, start: nat, size: nat)
    requires size >= 1 && start < |content|
    ensures var end := EndOf(content, start, size);
            CutBeforeMark(content, start, size) <==>
              (end < |content| && IsThought(content[end..]) && size >= 9) || CutBeforeMark(content, end, size)
  {
  }

  /** A token is torn when one of its pieces would be taken for a thought. */
  predicate Torn(token: string, size: nat)
    requires size >= 1
  {
    !IsThought(token) && CutBeforeMark(token, 0, size)
  }

  lemma {:induction false} CutTokenHeard(token: string, size: nat)
    requires size >= 1
    ensures !Torn(token, size) ==> Hear(CutToken(token, size)) == HearOne(token)
    ensures Torn(token, size) ==> |Hear(CutToken(token, size)).answer| < |HearOne(token).answer|
  {
    if IsThought(token) {
      CutThought(token[9..], 0, size);
    } else {
      assert token[0..] == token;
      CutPlain(token, 0, size);
    }
  }

  lemma {:induction false} CutAllHeard(tokens: seq<string>, size: nat)
    requires size >= 1
    ensures var now, was := Hear(CutAll(tokens, size)), Hear(tokens);
            if exists i :: 0 <= i < |tokens| && Torn(tokens[i], size) then |now.answer| < |was.answer| else now == was
  {
    if tokens != [] {
      HearAppend(CutToken(tokens[0], size), CutAll(tokens[1..], size));
      CutTokenHeard(tokens[0], size);
      CutAllHeard(tokens[1..], size);
      assert forall i :: 0 < i < |tokens| ==> tokens[i] == tokens[1..][i - 1];
    }
  }

  /** Replaying in pieces gives the reader the same thought and the same answer, except where a cut uncovers a mark. */
  lemma {:induction false} ReplayIsFaithfulExactly(tokens: seq<string>, chunkChars: int)
    ensures Hear(CutAll(tokens, ChunkSize(chunkChars))) == Hear(tokens)
            <==> forall i :: 0 <= i < |tokens| ==> !Torn(tokens[i], ChunkSize(chunkChars))
  {
    CutAllHeard(tokens, ChunkSize(chunkChars));
  }

  /** Pieces too short for the mark, such as the default of two characters, are always safe. */
  lemma {:induction false} ShortPiecesAreFaithful(tokens: seq<string>, chunkChars: int)
    requires chunkChars <= 8
    ensures Hear(CutAll(tokens, ChunkSize(chunkChars))) == Hear(tokens)
  {
    CutAllHeard(tokens, ChunkSize(chunkChars));
  }

  /** An answer that speaks of the mark loses it at a piece size of nine. */
  lemma {:induction false} AnAnswerCanBeTorn()
    ensures Hear(CutAll(["the mark __THINK__"], 9)) != Hear(["the mark __THINK__"])
  {
    var token := "the mark __THINK__";
    assert token[9..] == THINK;
    assert THINK[..9] == THINK;
    assert token[..9] == "the mark ";
    assert token[0] != THINK[0];
    assert Torn([token][0], 9);
    CutAllHeard([token], 9);
  }

  // ---- The conversation that fits --------------------------------------------------------------

  function Total(costs: seq<nat>): nat {
    if costs == [] then 0 else costs[0] + Total(costs[1..])
  }

  lemma {:induction false} LongerCostsMore(costs: seq<nat>, i: nat, j: nat)
    requires i <= j <= |costs|
    ensures Total(costs[j..]) <= Total(costs[i..])
    decreases j - i
  {
    if i < j {
      assert costs[i..][1..] == costs[i + 1..];
      LongerCostsMore(costs, i + 1, j);
    }
  }

  function Reversed<T>(s: seq<T>): seq<T> {
    seq(|s|, i requires 0 <= i < |s| => s[|s| - 1 - i])
  }

  /** The longest end of the conversation whose messages fit the budget, in their order. */
  method TruncateHistory<T>(history: seq<T>, costs: seq<nat>, maxTokens: int) returns (result: seq<T>)
    requires |costs| == |history|
    ensures |result| <= |history| && result == history[|history| - |result|..]
    ensures result != [] ==> Total(costs[|history| - |result|..]) <= maxTokens
    ensures forall longer :: 0 <= longer < |history| - |result| ==> Total(costs[longer..]) > maxTokens
  {
    result := [];
    var total := 0;
    var i := |history|;
    while i > 0
      invariant 0 <= i <= |history|
      invariant Reversed(result) == history[i..] && total == Total(costs[i..])
      invariant i < |history| ==> total <= maxTokens
    {
      assert costs[i - 1..][1..] == costs[i..];
      if total + costs[i - 1] > maxTokens {
        forall longer | 0 <= longer < i ensures Total(costs[longer..]) > maxTokens {
          LongerCostsMore(costs, longer, i - 1);
        }
        break;
      }
      result := result + [history[i - 1]];
      total := total + costs[i - 1];
      i := i - 1;
    }
    result := Reversed(result);
  }
}
