/** Paragraphs: cutting a long one near sentence ends, and grouping neighbours by similarity. */
module ParagraphSplitter {
  import opened ChunkPacker
  import opened RangePacker

  // Cutting a long paragraph near sentence ends.

  /** What the characters around a position must be for a sentence to end before it. */
  datatype Rules = Rules(ends: char -> bool, opens: char -> bool)

  predicate SentenceEnds(text: string, i: nat, r: Rules) {
    0 < i < |text| && r.ends(text[i - 1]) && r.opens(text[i])
  }

  /** No sentence ends at a position in lo..hi. */
  ghost predicate NoSentenceEnd(text: string, lo: nat, hi: int, r: Rules) {
    forall i: nat :: lo <= i < hi ==> !SentenceEnds(text, i, r)
  }

  ghost predicate NoNewline(text: string, lo: nat, hi: int) {
    hi <= |text| && forall i :: lo <= i < hi ==> text[i] != '\n'
  }

  /** How far the search for a cut may look. */
  function SearchEnd(text: string, start: nat, maxChars: int): (hi: int)
    ensures hi <= |text| && hi <= start + maxChars && (hi == |text| || hi == start + maxChars)
  {
    if start + maxChars < |text| then start + maxChars else |text|
  }

  /** The right cut in lo..hi: the first sentence end; only without one, behind the first newline; only without either,
      at lo itself. */
  ghost predicate IsBoundary(text: string, lo: nat, hi: int, end: nat, r: Rules) {
    if NoSentenceEnd(text, lo, hi, r) then
      if NoNewline(text, lo, hi) then end == lo
      else lo < end <= hi <= |text| && text[end - 1] == '\n' && NoNewline(text, lo, end - 1)
    else lo <= end < hi && SentenceEnds(text, end, r) && NoSentenceEnd(text, lo, end, r)
  }

  /** There is one right cut. */
  lemma {:induction false} BoundaryUnique(text: string, lo: nat, hi: int, end: nat, other: nat, r: Rules)
    requires hi <= |text| && IsBoundary(text, lo, hi, end, r) && IsBoundary(text, lo, hi, other, r)
    ensures end == other
  {
    if !NoSentenceEnd(text, lo, hi, r) {
      assert !(end < other) && !(other < end);
    } else if !NoNewline(text, lo, hi) {
      assert !(end - 1 < other - 1) && !(other - 1 < end - 1);
    }
  }

  method FindSentenceBoundary(text: string, start: nat, targetEnd: nat, maxChars: int, r: Rules) returns (end: nat)
    requires start < targetEnd <= |text|
    ensures IsBoundary(text, targetEnd, SearchEnd(text, start, maxChars), end, r)
    ensures targetEnd <= end <= |text|
  {
    var searchEnd := SearchEnd(text, start, maxChars);
    var i: int := targetEnd;
    while i < searchEnd
      invariant targetEnd <= i && NoSentenceEnd(text, targetEnd, i, r)
    {
      if r.ends(text[i - 1]) && r.opens(text[i]) {
        assert SentenceEnds(text, i, r);
        return i;
      }
      i := i + 1;
    }
    assert NoSentenceEnd(text, targetEnd, searchEnd, r);
    i := targetEnd;
    while i < searchEnd
      invariant targetEnd <= i <= |text| && NoNewline(text, targetEnd, i)
    {
      if text[i] == '\n' {
        return i + 1;
      }
      i := i + 1;
    }
    return targetEnd;
  }

  /** From one cut the next follows: the right one in reach, from the target on. */
  ghost predicate NextCut(text: string, start: nat, end: nat, target: nat, maxChars: int, r: Rules) {
    var targetEnd := if start + target < |text| then start + target else |text|;
    IsBoundary(text, targetEnd, SearchEnd(text, start, maxChars), end, r)
  }

  /** The pieces of a text between consecutive cuts. */
  ghost predicate Pieces(text: string, cuts: seq<nat>, upTo: nat, target: nat, maxChars: int, r: Rules) {
    && upTo <= |text| && Cuts(cuts, upTo)
    && forall i, j :: 0 <= i < j < |cuts| && j == i + 1 ==> NextCut(text, cuts[i], cuts[j], target, maxChars, r)
  }

  lemma {:induction false} PieceAdded(text: string, cuts: seq<nat>, start: nat, end: nat, target: nat, maxChars: int,
                                      r: Rules)
    requires Pieces(text, cuts, start, target, maxChars, r) && start < end <= |text|
    requires NextCut(text, start, end, target, maxChars, r)
    ensures Pieces(text, cuts + [end], end, target, maxChars, r)
  {
  }

  /** A text within the limit stays whole. Otherwise the cuts cover it, and every cut is the right one after the one
      before it. */
  method CutParagraph(text: string, target: nat, maxChars: int, r: Rules) returns (cuts: seq<nat>)
    requires target >= 1
    ensures |text| <= maxChars ==> cuts == if text == "" then [0] else [0, |text|]
    ensures |text| > maxChars ==> Pieces(text, cuts, |text|, target, maxChars, r)
  {
    cuts := [0];
    if |text| <= maxChars {
      if text != "" {
        cuts := [0, |text|];
      }
      return;
    }
    var start := 0;
    while start < |text|
      invariant start <= |text| && Pieces(text, cuts, start, target, maxChars, r)
    {
      var targetEnd := if start + target < |text| then start + target else |text|;
      var end := FindSentenceBoundary(text, start, targetEnd, maxChars, r);
      PieceAdded(text, cuts, start, end, target, maxChars, r);
      cuts, start := cuts + [end], end;
    }
  }

  /** So no piece but the last is shorter than the target, and none is longer than both limits. */
  lemma {:induction false} PieceLengths(text: string, cuts: seq<nat>, target: nat, maxChars: int, r: Rules, i: nat)
    requires Pieces(text, cuts, |text|, target, maxChars, r) && i + 1 < |cuts|
    ensures cuts[i + 1] - cuts[i] <= if target < maxChars then maxChars else target
    ensures cuts[i + 1] < |text| ==> cuts[i + 1] - cuts[i] >= target
  {
    assert NextCut(text, cuts[i], cuts[i + 1], target, maxChars, r);
  }

  // Grouping paragraphs by similarity.

  /** The length of a group joined with blank lines. */
  function JoinedLength(group: seq<string>): int {
    PartsLength(group) + 2 * (|group| - 1)
  }

  /** The running count of a group: its characters and one separator for each paragraph, which the count of the first
      group has for all but its first. */
  function CountOf(group: seq<string>, first: bool): int {
    PartsLength(group) + 2 * (if first then |group| - 1 else |group|)
  }

  /** Sizes that paragraphs are grouped by. */
  datatype Sizes = Sizes(target: int, maximum: int)

  function SizesOf(chunkSize: int): Sizes {
    var target := if chunkSize < 128 then 128 else chunkSize;
    Sizes(target, target * 3 / 2)
  }

  /** Sizes from 128 on are taken as they are, and groups may be half as large again. */
  lemma {:induction false} SizesAsAsked(chunkSize: int)
    ensures chunkSize >= 128 ==> SizesOf(chunkSize).target == chunkSize
    ensures chunkSize < 128 ==> SizesOf(chunkSize).target == 128
    ensures var z := SizesOf(chunkSize); 2 * z.maximum <= 3 * z.target < 2 * z.maximum + 2
  {
  }

  /** Paragraph i starts a new group after one with such a count: it would be too large, or it is large enough and the
      paragraph is not similar to the one before. */
  predicate Parts(count: int, paragraphs: seq<string>, i: nat, z: Sizes, similar: nat -> bool)
    requires i < |paragraphs|
  {
    (count >= z.target && !similar(i)) || count + |paragraphs[i]| > z.maximum
  }

  /** The paragraphs from..to in one group: none of them but the first starts a new one. */
  ghost predicate Together(paragraphs: seq<string>, from: nat, to: nat, z: Sizes, similar: nat -> bool) {
    && from < to <= |paragraphs|
    && forall i: nat :: from < i < to ==> !Parts(CountOf(paragraphs[from..i], from == 0), paragraphs, i, z, similar)
  }

  /** Groups end at the cuts, and only where the next paragraph starts a new one. */
  ghost predicate Grouped(paragraphs: seq<string>, groups: seq<seq<string>>, cuts: seq<nat>, z: Sizes,
                          similar: nat -> bool) {
    && |cuts| == |groups| + 1 && cuts[0] == 0
    && (forall k: nat, n: nat :: k < |groups| && n == k + 1 ==>
          && Together(paragraphs, cuts[k], cuts[n], z, similar) && groups[k] == paragraphs[cuts[k]..cuts[n]]
          && (cuts[n] < |paragraphs| ==>
                Parts(CountOf(groups[k], cuts[k] == 0), paragraphs, cuts[n], z, similar)))
  }

  lemma {:induction false} CountGrows(paragraphs: seq<string>, from: nat, i: nat)
    requires from <= i < |paragraphs|
    ensures CountOf(paragraphs[from..i + 1], from == 0) == CountOf(paragraphs[from..i], from == 0) + |paragraphs[i]| + 2
  {
    assert paragraphs[from..i + 1][..i - from] == paragraphs[from..i];
  }

  /** One more group is closed. */
  lemma {:induction false} GroupAdded(paragraphs: seq<string>, groups: seq<seq<string>>, cuts: seq<nat>, end: nat,
                                      z: Sizes, similar: nat -> bool)
    requires Grouped(paragraphs, groups, cuts, z, similar)
    requires var from := cuts[|groups|];
             && Together(paragraphs, from, end, z, similar)
             && (end < |paragraphs| ==> Parts(CountOf(paragraphs[from..end], from == 0), paragraphs, end, z, similar))
    ensures Grouped(paragraphs, groups + [paragraphs[cuts[|groups|]..end]], cuts + [end], z, similar)
  {
  }

  /** The groups so far, and the one that is open in front of paragraph i. */
  ghost predicate Grouping(paragraphs: seq<string>, groups: seq<seq<string>>, cuts: seq<nat>, current: seq<string>,
                           chars: int, i: nat, z: Sizes, similar: nat -> bool) {
    && Grouped(paragraphs, groups, cuts, z, similar) && Together(paragraphs, cuts[|groups|], i, z, similar)
    && current == paragraphs[cuts[|groups|]..i] && chars == CountOf(current, cuts[|groups|] == 0)
  }

  lemma {:induction false} FirstTaken(paragraphs: seq<string>, z: Sizes, similar: nat -> bool)
    requires paragraphs != []
    ensures Grouping(paragraphs, [], [0], [paragraphs[0]], |paragraphs[0]|, 1, z, similar)
  {
    assert paragraphs[0..1] == [paragraphs[0]] && [paragraphs[0]][..0] == [];
    assert PartsLength([paragraphs[0]]) == PartsLength([]) + |paragraphs[0]|;
  }

  lemma {:induction false} NextJoins(paragraphs: seq<string>, groups: seq<seq<string>>, cuts: seq<nat>,
                                     current: seq<string>, chars: int, i: nat, z: Sizes, similar: nat -> bool)
    requires Grouping(paragraphs, groups, cuts, current, chars, i, z, similar) && i < |paragraphs|
    requires !Parts(chars, paragraphs, i, z, similar)
    ensures Grouping(paragraphs, groups, cuts, current + [paragraphs[i]], chars + |paragraphs[i]| + 2, i + 1, z,
                     similar)
  {
    CountGrows(paragraphs, cuts[|groups|], i);
  }

  lemma {:induction false} NextStarts(paragraphs: seq<string>, groups: seq<seq<string>>, cuts: seq<nat>,
                                      current: seq<string>, chars: int, i: nat, z: Sizes, similar: nat -> bool)
    requires Grouping(paragraphs, groups, cuts, current, chars, i, z, similar) && i < |paragraphs|
    requires Parts(chars, paragraphs, i, z, similar)
    ensures Grouping(paragraphs, groups + [current], cuts + [i], [paragraphs[i]], |paragraphs[i]| + 2, i + 1, z,
                     similar)
  {
    GroupAdded(paragraphs, groups, cuts, i, z, similar);
    CountGrows(paragraphs, i, i);
    assert paragraphs[i..i + 1] == [paragraphs[i]] && paragraphs[i..i] == [];
  }

  /** Paragraphs are grouped in order; `similar(i)` compares paragraph i with the one before it. */
  method GroupParagraphs(paragraphs: seq<string>, chunkSize: int, similar: nat -> bool)
    returns (groups: seq<seq<string>>, ghost cuts: seq<nat>)
    requires paragraphs != []
    ensures Grouped(paragraphs, groups, cuts, SizesOf(chunkSize), similar) && cuts[|groups|] == |paragraphs|
    ensures Flatten(groups) == paragraphs
    ensures forall i :: 0 <= i < |groups| ==> GroupFits(groups[i], i == 0, SizesOf(chunkSize).maximum)
  {
    ghost var z := SizesOf(chunkSize);
    var target := if chunkSize < 128 then 128 else chunkSize;
    var maximum := target * 3 / 2;
    var current, currentChars := [paragraphs[0]], |paragraphs[0]|;
    groups, cuts := [], [0];
    FirstTaken(paragraphs, z, similar);
    for i := 1 to |paragraphs|
      invariant Grouping(paragraphs, groups, cuts, current, currentChars, i, z, similar)
    {
      var p := paragraphs[i];
      var boundary := (currentChars >= target && !similar(i)) || currentChars + |p| > maximum;
      if boundary {
        NextStarts(paragraphs, groups, cuts, current, currentChars, i, z, similar);
        groups, cuts := groups + [current], cuts + [i];
        current, currentChars := [], 0;
      } else {
        NextJoins(paragraphs, groups, cuts, current, currentChars, i, z, similar);
      }
      current, currentChars := current + [p], currentChars + |p| + 2;
    }
    GroupAdded(paragraphs, groups, cuts, |paragraphs|, z, similar);
    groups, cuts := groups + [current], cuts + [|paragraphs|];
    GroupsAreAll(paragraphs, groups, cuts, z, similar, |groups|);
    GroupsFit(paragraphs, groups, cuts, z, similar);
    assert groups[..|groups|] == groups && paragraphs[..|paragraphs|] == paragraphs;
  }

  lemma {:induction false} GroupsAreAll(paragraphs: seq<string>, groups: seq<seq<string>>, cuts: seq<nat>, z: Sizes,
                                        similar: nat -> bool, n: nat)
    requires Grouped(paragraphs, groups, cuts, z, similar) && n <= |groups|
    ensures cuts[n] <= |paragraphs| && Flatten(groups[..n]) == paragraphs[..cuts[n]]
  {
    if n > 0 {
      GroupsAreAll(paragraphs, groups, cuts, z, similar, n - 1);
      FlattenAdd(groups[..n - 1], groups[n - 1]);
      assert groups[..n] == groups[..n - 1] + [groups[n - 1]];
      assert paragraphs[..cuts[n]] == paragraphs[..cuts[n - 1]] + paragraphs[cuts[n - 1]..cuts[n]];
    }
  }

  /** A group is one paragraph or keeps to the limit; the first group may exceed it by the one separator that its
      running count leaves out. */
  ghost predicate GroupFits(group: seq<string>, first: bool, maximum: int) {
    |group| == 1 || (|group| > 1 && JoinedLength(group) <= maximum + if first then 2 else 0)
  }

  lemma {:induction false} TogetherFits(paragraphs: seq<string>, from: nat, to: nat, z: Sizes, similar: nat -> bool)
    requires Together(paragraphs, from, to, z, similar)
    ensures GroupFits(paragraphs[from..to], from == 0, z.maximum)
  {
    if to > from + 1 {
      CountGrows(paragraphs, from, to - 1);
      assert !Parts(CountOf(paragraphs[from..to - 1], from == 0), paragraphs, to - 1, z, similar);
    }
  }

  lemma {:induction false} CutsGrow(paragraphs: seq<string>, groups: seq<seq<string>>, cuts: seq<nat>, z: Sizes,
                                    similar: nat -> bool, k: nat)
    requires Grouped(paragraphs, groups, cuts, z, similar) && 0 < k <= |groups|
    ensures cuts[k] > 0
  {
    assert Together(paragraphs, cuts[k - 1], cuts[k], z, similar);
  }

  lemma {:induction false} GroupsFit(paragraphs: seq<string>, groups: seq<seq<string>>, cuts: seq<nat>, z: Sizes,
                                     similar: nat -> bool)
    requires Grouped(paragraphs, groups, cuts, z, similar)
    ensures forall i :: 0 <= i < |groups| ==> GroupFits(groups[i], i == 0, z.maximum)
  {
    forall i | 0 <= i < |groups| ensures GroupFits(groups[i], i == 0, z.maximum) {
      if i > 0 {
        CutsGrow(paragraphs, groups, cuts, z, similar, i);
      }
      TogetherFits(paragraphs, cuts[i], cuts[i + 1], z, similar);
    }
  }
}
