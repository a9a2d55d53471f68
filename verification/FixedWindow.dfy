/** The fixed-size chunker: windows over the normalised text, adjusted to sentence and line boundaries. */
module FixedWindow {

  datatype Window = Window(start: nat, end: nat)

  /** White space is what `str.isspace` accepts; only the fact that it is a set of characters is used. */
  type CharSet = char -> bool

  predicate IsNewline(c: char) {
    c == '\n'
  }

  predicate EndsChineseSentence(c: char) {
    c in {'\U{3002}', '\U{FF01}', '\U{FF1F}'}
  }

  /** `.`, `!` or `?` at `pos`, at the end of the text or before white space. */
  predicate EndsEnglishSentence(text: string, pos: nat, isSpace: CharSet)
    requires pos < |text|
  {
    text[pos] in {'.', '!', '?'} && (pos + 1 >= |text| || isSpace(text[pos + 1]))
  }

  /** The three kinds of break in order of preference. */
  predicate IsBreak(text: string, kind: nat, pos: nat, isSpace: CharSet)
    requires pos < |text|
  {
    if kind == 0 then IsNewline(text[pos])
    else if kind == 1 then EndsChineseSentence(text[pos])
    else EndsEnglishSentence(text, pos, isSpace)
  }

  /** Newlines come first, then the ends of Chinese sentences, then those of English ones, which white space or nothing
      follows. */
  lemma {:induction false} BreaksInOrder(text: string, pos: nat, isSpace: CharSet)
    requires pos < |text|
    ensures IsBreak(text, 0, pos, isSpace) <==> text[pos] == '\n'
    ensures IsBreak(text, 1, pos, isSpace) <==> text[pos] == '。' || text[pos] == '！' || text[pos] == '？'
    ensures IsBreak(text, 2, pos, isSpace)
            <==> && (text[pos] == '.' || text[pos] == '!' || text[pos] == '?')
                 && (pos + 1 < |text| ==> isSpace(text[pos + 1]))
  {
  }

  /** The last break of a kind at a position in lo..hi past the start, or -1. */
  function LastBreak(text: string, kind: nat, start: nat, lo: int, hi: nat, isSpace: CharSet): int
    requires hi <= |text|
  {
    if hi == 0 || hi - 1 < lo || hi - 1 <= start then -1
    else if IsBreak(text, kind, hi - 1, isSpace) then hi - 1
    else LastBreak(text, kind, start, lo, hi - 1, isSpace)
  }

  lemma {:induction false} LastBreakExactly(text: string, kind: nat, start: nat, lo: int, hi: nat, isSpace: CharSet)
    requires hi <= |text|
    ensures var p := LastBreak(text, kind, start, lo, hi, isSpace);
            && (p == -1 || (start < p < hi && lo <= p && IsBreak(text, kind, p, isSpace)))
            && forall q: nat :: p < q < hi && start < q && lo <= q ==> !IsBreak(text, kind, q, isSpace)
  {
    if hi == 0 || hi - 1 < lo || hi - 1 <= start || IsBreak(text, kind, hi - 1, isSpace) {
    } else {
      LastBreakExactly(text, kind, start, lo, hi - 1, isSpace);
    }
  }

  /** Where a window ends: after the last newline in reach; failing that after the last Chinese, then English,
      sentence in reach; failing that at the target. Only the last `overlap` characters are in reach. */
  function AdjustedEnd(text: string, start: nat, targetEnd: nat, overlap: nat, isSpace: CharSet): nat
    requires start < targetEnd <= |text|
  {
    var lo := targetEnd - Min(overlap, targetEnd - start);
    var newline := LastBreak(text, 0, start, lo, targetEnd, isSpace);
    var chinese := LastBreak(text, 1, start, lo, targetEnd, isSpace);
    var english := LastBreak(text, 2, start, lo, targetEnd, isSpace);
    LastBreakExactly(text, 0, start, lo, targetEnd, isSpace);
    LastBreakExactly(text, 1, start, lo, targetEnd, isSpace);
    LastBreakExactly(text, 2, start, lo, targetEnd, isSpace);
    if newline >= 0 then newline + 1 else if chinese >= 0 then chinese + 1 else if english >= 0 then english + 1
      else targetEnd
  }

  lemma {:induction false} AdjustedEndBounds(text: string, start: nat, targetEnd: nat, overlap: nat, isSpace: CharSet)
    requires start < targetEnd <= |text|
    ensures start < AdjustedEnd(text, start, targetEnd, overlap, isSpace) <= targetEnd
    ensures targetEnd - AdjustedEnd(text, start, targetEnd, overlap, isSpace) < overlap || overlap == 0
            || AdjustedEnd(text, start, targetEnd, overlap, isSpace) == targetEnd
  {
    var lo := targetEnd - Min(overlap, targetEnd - start);
    LastBreakExactly(text, 0, start, lo, targetEnd, isSpace);
    LastBreakExactly(text, 1, start, lo, targetEnd, isSpace);
    LastBreakExactly(text, 2, start, lo, targetEnd, isSpace);
  }

  /** Position p can be looked back to from the target. */
  predicate InReach(p: nat, start: nat, targetEnd: nat, overlap: nat) {
    start < p < targetEnd && targetEnd <= p + overlap
  }

  ghost predicate NoBreak(text: string, kind: nat, from: nat, start: nat, targetEnd: nat, overlap: nat,
                          isSpace: CharSet)
    requires targetEnd <= |text|
  {
    forall q: nat :: from <= q && InReach(q, start, targetEnd, overlap) ==> !IsBreak(text, kind, q, isSpace)
  }

  ghost predicate LastIn(text: string, kind: nat, p: int, start: nat, targetEnd: nat, overlap: nat, isSpace: CharSet)
    requires targetEnd <= |text|
  {
    && p >= 0 && InReach(p, start, targetEnd, overlap) && IsBreak(text, kind, p, isSpace)
    && NoBreak(text, kind, p + 1, start, targetEnd, overlap, isSpace)
  }

  /** The end lies behind the last newline in reach; without one, behind the last Chinese sentence; without one, behind
      the last English sentence; without any, at the target. */
  ghost predicate RightEnd(text: string, start: nat, targetEnd: nat, overlap: nat, end: nat, isSpace: CharSet)
    requires targetEnd <= |text|
  {
    if !NoBreak(text, 0, 0, start, targetEnd, overlap, isSpace)
      then LastIn(text, 0, end - 1, start, targetEnd, overlap, isSpace)
    else if !NoBreak(text, 1, 0, start, targetEnd, overlap, isSpace)
      then LastIn(text, 1, end - 1, start, targetEnd, overlap, isSpace)
    else if !NoBreak(text, 2, 0, start, targetEnd, overlap, isSpace)
      then LastIn(text, 2, end - 1, start, targetEnd, overlap, isSpace)
    else end == targetEnd
  }

  lemma {:induction false} BreakInReach(text: string, kind: nat, start: nat, targetEnd: nat, overlap: nat,
                                        isSpace: CharSet)
    requires start < targetEnd <= |text|
    ensures var p := LastBreak(text, kind, start, targetEnd - Min(overlap, targetEnd - start), targetEnd, isSpace);
            if NoBreak(text, kind, 0, start, targetEnd, overlap, isSpace) then p == -1
            else LastIn(text, kind, p, start, targetEnd, overlap, isSpace)
  {
    var lo := targetEnd - Min(overlap, targetEnd - start);
    LastBreakExactly(text, kind, start, lo, targetEnd, isSpace);
    var p := LastBreak(text, kind, start, lo, targetEnd, isSpace);
    if p >= 0 {
      assert InReach(p, start, targetEnd, overlap);
    }
  }

  /** Where a window ends. */
  lemma {:induction false} AdjustedEndExactly(text: string, start: nat, targetEnd: nat, overlap: nat, isSpace: CharSet)
    requires start < targetEnd <= |text|
    ensures RightEnd(text, start, targetEnd, overlap, AdjustedEnd(text, start, targetEnd, overlap, isSpace), isSpace)
  {
    BreakInReach(text, 0, start, targetEnd, overlap, isSpace);
    BreakInReach(text, 1, start, targetEnd, overlap, isSpace);
    BreakInReach(text, 2, start, targetEnd, overlap, isSpace);
  }

  /** There is one right end. */
  lemma {:induction false} RightEndUnique(text: string, start: nat, targetEnd: nat, overlap: nat, end: nat, other: nat,
                                          isSpace: CharSet)
    requires targetEnd <= |text|
    requires RightEnd(text, start, targetEnd, overlap, end, isSpace)
    requires RightEnd(text, start, targetEnd, overlap, other, isSpace)
    ensures end == other
  {
  }

  function Min(a: int, b: int): int {
    if a < b then a else b
  }

  function Max(a: int, b: int): int {
    if a < b then b else a
  }

  /** One of the three look-back loops. */
  method LookBack(text: string, kind: nat, start: nat, targetEnd: nat, lookback: nat, isSpace: CharSet)
    returns (pos: int)
    requires start < targetEnd <= |text| && lookback <= targetEnd - start
    ensures pos == LastBreak(text, kind, start, targetEnd - lookback, targetEnd, isSpace)
  {
    for i := 0 to lookback
      invariant LastBreak(text, kind, start, targetEnd - lookback, targetEnd, isSpace)
             == LastBreak(text, kind, start, targetEnd - lookback, targetEnd - i, isSpace)
    {
      pos := targetEnd - i - 1;
      if pos <= start {
        return -1;
      }
      if IsBreak(text, kind, pos, isSpace) {
        return pos;
      }
    }
    pos := -1;
  }

  method AdjustToBoundary(text: string, start: nat, targetEnd: nat, overlap: nat, isSpace: CharSet) returns (end: nat)
    requires start < targetEnd <= |text|
    ensures end == AdjustedEnd(text, start, targetEnd, overlap, isSpace)
  {
    var maxLookback := Min(overlap, targetEnd - start);
    if maxLookback <= 0 {
      return targetEnd;
    }
    var newline := LookBack(text, 0, start, targetEnd, maxLookback, isSpace);
    if newline >= 0 {
      return newline + 1;
    }
    var chinese := LookBack(text, 1, start, targetEnd, maxLookback, isSpace);
    if chinese >= 0 {
      return chinese + 1;
    }
    var english := LookBack(text, 2, start, targetEnd, maxLookback, isSpace);
    if english >= 0 {
      return english + 1;
    }
    return targetEnd;
  }

  /** The end of a window that starts at `start` after one that ended at `lastEnd`. */
  function EndOf(text: string, start: nat, lastEnd: int, size: nat, overlap: nat, isSpace: CharSet): nat
    requires start < |text| && size >= 1
  {
    var target := Min(start + size, |text|);
    var adjusted := AdjustedEnd(text, start, target, overlap, isSpace);
    if adjusted <= start || adjusted <= lastEnd then target else adjusted
  }

  /** Where the next window starts: `overlap` characters back, unless that would not move on. */
  function NextStart(w: Window, overlap: nat): nat {
    if w.end > overlap && w.end - overlap > w.start then w.end - overlap else w.end
  }

  /** w follows v in the loop of the source. */
  predicate Follows(text: string, v: Window, w: Window, size: nat, overlap: nat, isSpace: CharSet)
    requires size >= 1
  {
    v.end < |text| && w.start == NextStart(v, overlap) && w.end == EndOf(text, w.start, v.end, size, overlap, isSpace)
  }

  /** What the loop of the source makes. */
  ghost predicate Sliding(text: string, windows: seq<Window>, size: nat, overlap: nat, isSpace: CharSet)
    requires size >= 1 && text != ""
  {
    && (windows != [] ==> windows[0] == Window(0, EndOf(text, 0, -1, size, overlap, isSpace)))
    && forall i, j :: 0 <= i < j < |windows| && j == i + 1 ==>
         Follows(text, windows[i], windows[j], size, overlap, isSpace)
  }

  /** Two neighbours: both ends move on, and they share exactly `overlap` characters, or none if the first window is no
      longer than that. */
  predicate Neighbours(v: Window, w: Window, overlap: nat) {
    && v.start < w.start && v.end < w.end
    && v.end - w.start == if overlap < v.end - v.start then overlap else 0
  }

  predicate Sized(w: Window, size: nat, n: nat) {
    1 <= w.end - w.start <= size && w.end <= n
  }

  ghost predicate Paced(n: nat, windows: seq<Window>, size: nat, overlap: nat) {
    && (windows != [] ==> windows[0].start == 0)
    && (forall i :: 0 <= i < |windows| ==> Sized(windows[i], size, n))
    && (forall i, j :: 0 <= i < j < |windows| && j == i + 1 ==> Neighbours(windows[i], windows[j], overlap))
  }

  /** What is promised of the windows: they run from the first character to the last. */
  ghost predicate Tiling(n: nat, windows: seq<Window>, size: nat, overlap: nat) {
    Paced(n, windows, size, overlap) && windows != [] && windows[|windows| - 1].end == n
  }

  lemma {:induction false} EndOfBounds(text: string, start: nat, lastEnd: int, size: nat, overlap: nat,
                                       isSpace: CharSet)
    requires start < |text| && size >= 1 && lastEnd < start + size && lastEnd < |text|
    ensures start < EndOf(text, start, lastEnd, size, overlap, isSpace) <= start + size
    ensures lastEnd < EndOf(text, start, lastEnd, size, overlap, isSpace) <= |text|
  {
    AdjustedEndBounds(text, start, Min(start + size, |text|), overlap, isSpace);
  }

  lemma {:induction false} FollowsPaces(text: string, v: Window, w: Window, size: nat, overlap: nat, isSpace: CharSet)
    requires size >= 1 && overlap < size && Sized(v, size, |text|) && Follows(text, v, w, size, overlap, isSpace)
    ensures Sized(w, size, |text|) && Neighbours(v, w, overlap)
  {
    EndOfBounds(text, w.start, v.end, size, overlap, isSpace);
  }

  /** One more turn of the loop. */
  lemma {:induction false} WindowAdded(text: string, windows: seq<Window>, w: Window, size: nat, overlap: nat,
                                       isSpace: CharSet)
    requires size >= 1 && overlap < size && text != ""
    requires Sliding(text, windows, size, overlap, isSpace) && Paced(|text|, windows, size, overlap)
    requires windows == [] ==> w == Window(0, EndOf(text, 0, -1, size, overlap, isSpace))
    requires windows != [] ==> Follows(text, windows[|windows| - 1], w, size, overlap, isSpace)
    ensures Sliding(text, windows + [w], size, overlap, isSpace) && Paced(|text|, windows + [w], size, overlap)
  {
    if windows == [] {
      EndOfBounds(text, 0, -1, size, overlap, isSpace);
    } else {
      FollowsPaces(text, windows[|windows| - 1], w, size, overlap, isSpace);
    }
  }

  /** Window i ends at the right place for its target, or, if that is not past the end of the one before, at the
      target. */
  ghost predicate EndsRight(text: string, windows: seq<Window>, size: nat, overlap: nat, i: nat, isSpace: CharSet)
    requires i < |windows| && windows[i].start + size < |text| + size
  {
    var w := windows[i];
    var target := if w.start + size < |text| then w.start + size else |text|;
    exists end: nat :: RightEnd(text, w.start, target, overlap, end, isSpace)
                       && w.end == if i == 0 || end > windows[i - 1].end then end else target
  }

  lemma {:induction false} WindowEndsRight(text: string, windows: seq<Window>, size: nat, overlap: nat, i: nat,
                                           isSpace: CharSet)
    requires size >= 1 && text != "" && Sliding(text, windows, size, overlap, isSpace) && i < |windows|
    requires windows[i].start < |text|
    ensures EndsRight(text, windows, size, overlap, i, isSpace)
  {
    var w := windows[i];
    var target := Min(w.start + size, |text|);
    var lastEnd: int := if i == 0 then -1 else windows[i - 1].end;
    assert i > 0 ==> Follows(text, windows[i - 1], w, size, overlap, isSpace);
    assert w.end == EndOf(text, w.start, lastEnd, size, overlap, isSpace);
    AdjustedEndExactly(text, w.start, target, overlap, isSpace);
    AdjustedEndBounds(text, w.start, target, overlap, isSpace);
  }

  // Chunk records.

  datatype Chunk = Chunk(content: string, index: nat)

  predicate Visible(s: string, isSpace: CharSet) {
    exists i :: 0 <= i < |s| && !isSpace(s[i])
  }

  function Slice(text: string, w: Window): string {
    if w.start <= w.end <= |text| then text[w.start..w.end] else ""
  }

  /** The windows that become chunks: those that are not blank. */
  function Emitted(text: string, windows: seq<Window>, isSpace: CharSet): seq<Window> {
    if windows == [] then []
    else
      Emitted(text, windows[..|windows| - 1], isSpace)
      + if Visible(Slice(text, windows[|windows| - 1]), isSpace) then [windows[|windows| - 1]] else []
  }

  function Records(text: string, emitted: seq<Window>): seq<Chunk> {
    seq(|emitted|, i requires 0 <= i < |emitted| => Chunk(Slice(text, emitted[i]), i))
  }

  lemma {:induction false} EmittedElements(text: string, windows: seq<Window>, isSpace: CharSet)
    ensures forall w :: w in Emitted(text, windows, isSpace) <==> w in windows && Visible(Slice(text, w), isSpace)
  {
    if windows != [] {
      EmittedElements(text, windows[..|windows| - 1], isSpace);
      assert windows == windows[..|windows| - 1] + [windows[|windows| - 1]];
    }
  }

  predicate Ascending(windows: seq<Window>) {
    forall i, j :: 0 <= i < j < |windows| ==> windows[i].start < windows[j].start
  }

  lemma {:induction false} AscendingAdd(windows: seq<Window>, w: Window)
    requires Ascending(windows) && forall v :: v in windows ==> v.start < w.start
    ensures Ascending(windows + [w])
  {
    assert forall i :: 0 <= i < |windows| ==> windows[i] in windows;
  }

  /** Emitted windows stand in the order of their starts. */
  lemma {:induction false} EmittedInOrder(text: string, windows: seq<Window>, isSpace: CharSet)
    requires Ascending(windows)
    ensures Ascending(Emitted(text, windows, isSpace))
  {
    if windows != [] {
      var front, last := windows[..|windows| - 1], windows[|windows| - 1];
      EmittedInOrder(text, front, isSpace);
      EmittedElements(text, front, isSpace);
      assert forall v :: v in front ==> v.start < last.start;
      AscendingAdd(Emitted(text, front, isSpace), last);
    }
  }

  lemma {:induction false} PacedAscends(n: nat, windows: seq<Window>, size: nat, overlap: nat)
    requires Paced(n, windows, size, overlap)
    ensures Ascending(windows)
  {
    forall i, j | 0 <= i < j < |windows| ensures windows[i].start < windows[j].start {
      StartsGrow(n, windows, size, overlap, i, j);
    }
  }

  lemma {:induction false} StartsGrow(n: nat, windows: seq<Window>, size: nat, overlap: nat, i: nat, j: nat)
    requires Paced(n, windows, size, overlap) && i < j < |windows|
    ensures windows[i].start < windows[j].start
  {
    assert Neighbours(windows[j - 1], windows[j], overlap);
    if i < j - 1 {
      StartsGrow(n, windows, size, overlap, i, j - 1);
    }
  }

  lemma {:induction false} EmittedAdded(text: string, windows: seq<Window>, w: Window, isSpace: CharSet)
    ensures Emitted(text, windows + [w], isSpace)
         == Emitted(text, windows, isSpace) + if Visible(Slice(text, w), isSpace) then [w] else []
  {
    assert (windows + [w])[..|windows|] == windows;
  }

  lemma {:induction false} Covering(n: nat, windows: seq<Window>, size: nat, overlap: nat, k: nat, p: nat)
    returns (w: Window)
    requires Paced(n, windows, size, overlap) && 0 < k <= |windows| && p < windows[k - 1].end
    ensures w in windows && w.start <= p < w.end <= n
  {
    w := windows[k - 1];
    assert Sized(w, size, n);
    if p < w.start {
      assert Neighbours(windows[k - 2], windows[k - 1], overlap);
      w := Covering(n, windows, size, overlap, k - 1, p);
    }
  }

  /** Every character lies in a window, so every visible one lies in a chunk. */
  lemma {:induction false} NothingVisibleLost(text: string, windows: seq<Window>, size: nat, overlap: nat,
                                              isSpace: CharSet, p: nat)
    requires Tiling(|text|, windows, size, overlap) && p < |text| && !isSpace(text[p])
    ensures exists w :: w in Emitted(text, windows, isSpace) && w.start <= p < w.end
  {
    var w := Covering(|text|, windows, size, overlap, |windows|, p);
    assert Slice(text, w)[p - w.start] == text[p];
    EmittedElements(text, windows, isSpace);
  }

  /** What a window adds to the one that ends at `from`. */
  function Fresh(text: string, from: nat, w: Window): string {
    if from <= w.end <= |text| then text[from..w.end] else ""
  }

  /** The windows without what each shares with the one before it. */
  function Rebuilt(text: string, windows: seq<Window>): string {
    if windows == [] then ""
    else
      Rebuilt(text, windows[..|windows| - 1])
      + Fresh(text, if |windows| == 1 then 0 else windows[|windows| - 2].end, windows[|windows| - 1])
  }

  lemma {:induction false} PacedFront(n: nat, windows: seq<Window>, size: nat, overlap: nat)
    requires Paced(n, windows, size, overlap) && windows != []
    ensures Paced(n, windows[..|windows| - 1], size, overlap)
    ensures Sized(windows[|windows| - 1], size, n)
    ensures |windows| > 1 ==> Neighbours(windows[|windows| - 2], windows[|windows| - 1], overlap)
  {
  }

  lemma {:induction false} Joined(text: string, i: nat, j: nat)
    requires i <= j <= |text|
    ensures text[..i] + text[i..j] == text[..j]
  {
  }

  /** Dropping the overlaps gives the text back. */
  lemma {:induction false} RebuildsText(text: string, windows: seq<Window>, size: nat, overlap: nat)
    requires Paced(|text|, windows, size, overlap) && windows != []
    ensures windows[|windows| - 1].end <= |text| && Rebuilt(text, windows) == text[..windows[|windows| - 1].end]
    decreases |windows|
  {
    var front, last := windows[..|windows| - 1], windows[|windows| - 1];
    PacedFront(|text|, windows, size, overlap);
    if front == [] {
      Joined(text, 0, last.end);
      assert Rebuilt(text, front) == "";
    } else {
      RebuildsText(text, front, size, overlap);
      Joined(text, front[|front| - 1].end, last.end);
    }
  }

  /** The sizes the chunker works with, from the options as given. */
  function SizeOf(option: int): (size: nat)
    ensures size >= 1
  {
    Max(1, option)
  }

  function OverlapOf(option: int, size: nat): (overlap: nat)
    requires size >= 1
    ensures overlap < size
  {
    if size > 1 then Min(Max(0, option), size - 1) else 0
  }

  /** Options that make sense are taken as they are; the others are moved to the nearest one that does. */
  lemma {:induction false} OptionsAreKept(option: int, size: nat)
    ensures option >= 1 ==> SizeOf(option) == option
    ensures option < 1 ==> SizeOf(option) == 1
    ensures size >= 1 && 0 <= option < size ==> OverlapOf(option, size) == option
    ensures size >= 1 && option < 0 ==> OverlapOf(option, size) == 0
    ensures size >= 1 && option >= size ==> OverlapOf(option, size) == size - 1
  {
  }

  /** The windows and chunks so far; the next window starts at `start`. */
  ghost predicate SlideState(text: string, windows: seq<Window>, chunks: seq<Chunk>, start: nat, lastEnd: int,
                             size: nat, overlap: nat, isSpace: CharSet)
    requires size >= 1 && text != ""
  {
    && Sliding(text, windows, size, overlap, isSpace) && Paced(|text|, windows, size, overlap)
    && chunks == Records(text, Emitted(text, windows, isSpace))
    && if windows == [] then start == 0 && lastEnd == -1
       else lastEnd == windows[|windows| - 1].end && start == NextStart(windows[|windows| - 1], overlap)
  }

  lemma {:induction false} SlideStep(text: string, windows: seq<Window>, chunks: seq<Chunk>, start: nat, lastEnd: int,
                                     w: Window, size: nat, overlap: nat, isSpace: CharSet)
    requires size >= 1 && overlap < size && text != "" && start < |text| && lastEnd < |text|
    requires SlideState(text, windows, chunks, start, lastEnd, size, overlap, isSpace)
    requires w == Window(start, EndOf(text, start, lastEnd, size, overlap, isSpace))
    ensures start < w.end <= |text| && start < NextStart(w, overlap)
    ensures SlideState(text, windows + [w],
                       if Visible(text[start..w.end], isSpace) then chunks + [Chunk(text[start..w.end], |chunks|)]
                       else chunks,
                       NextStart(w, overlap), w.end, size, overlap, isSpace)
  {
    EndOfBounds(text, start, lastEnd, size, overlap, isSpace);
    assert windows != [] ==> Follows(text, windows[|windows| - 1], w, size, overlap, isSpace);
    WindowAdded(text, windows, w, size, overlap, isSpace);
    RecordsAdded(text, windows, w, isSpace);
    assert (windows + [w])[|windows|] == w;
  }

  lemma {:induction false} RecordsAdded(text: string, windows: seq<Window>, w: Window, isSpace: CharSet)
    requires w.start <= w.end <= |text|
    ensures var chunks := Records(text, Emitted(text, windows, isSpace));
            Records(text, Emitted(text, windows + [w], isSpace))
            == if Visible(text[w.start..w.end], isSpace) then chunks + [Chunk(text[w.start..w.end], |chunks|)]
               else chunks
  {
    EmittedAdded(text, windows, w, isSpace);
  }

  /** The sliding loop. */
  method Slide(text: string, size: nat, overlap: nat, isSpace: CharSet)
    returns (chunks: seq<Chunk>, ghost windows: seq<Window>)
    requires text != "" && size >= 1 && overlap < size
    ensures Sliding(text, windows, size, overlap, isSpace) && Tiling(|text|, windows, size, overlap)
    ensures chunks == Records(text, Emitted(text, windows, isSpace))
  {
    var start, lastEnd := 0, -1;
    chunks, windows := [], [];
    while start < |text|
      invariant SlideState(text, windows, chunks, start, lastEnd, size, overlap, isSpace)
      invariant lastEnd < |text| && start <= Max(0, lastEnd)
      decreases |text| - start
    {
      var end := WindowEnd(text, start, lastEnd, size, overlap, isSpace);
      ghost var w := Window(start, end);
      SlideStep(text, windows, chunks, start, lastEnd, w, size, overlap, isSpace);
      windows := windows + [w];
      var content := text[start..end];
      if Visible(content, isSpace) {
        chunks := chunks + [Chunk(content, |chunks|)];
      }
      lastEnd := end;
      if end >= |text| {
        break;
      }
      var nextStart := Max(0, end - overlap);
      if nextStart <= start {
        nextStart := end;
      }
      start := nextStart;
    }
  }

  method WindowEnd(text: string, start: nat, lastEnd: int, size: nat, overlap: nat, isSpace: CharSet) returns (end: nat)
    requires start < |text| && size >= 1
    ensures end == EndOf(text, start, lastEnd, size, overlap, isSpace)
  {
    var targetEnd := Min(start + size, |text|);
    end := AdjustToBoundary(text, start, targetEnd, overlap, isSpace);
    if end <= start || end <= lastEnd {
      end := targetEnd;
    }
  }

  /** The chunker: a blank text has no chunks, any other is normalised first. A size of -1 asks for a single chunk. */
  method ChunkText(raw: string, normalize: string -> string, chunkSize: int, overlapSize: int, isSpace: CharSet)
    returns (chunks: seq<Chunk>, ghost windows: seq<Window>)
    ensures !Visible(raw, isSpace) ==> chunks == []
    ensures Visible(raw, isSpace) && chunkSize == -1 ==> chunks == [Chunk(normalize(raw), 0)]
    ensures Visible(raw, isSpace) && chunkSize != -1 && normalize(raw) == "" ==> chunks == []
    ensures Visible(raw, isSpace) && chunkSize != -1 && normalize(raw) != "" ==>
      var text, size := normalize(raw), SizeOf(chunkSize);
      var overlap := OverlapOf(overlapSize, size);
      && Sliding(text, windows, size, overlap, isSpace) && Tiling(|text|, windows, size, overlap)
      && Rebuilt(text, windows) == text
      && chunks == Records(text, Emitted(text, windows, isSpace))
  {
    windows := [];
    if !Visible(raw, isSpace) {
      return [], [];
    }
    var text := normalize(raw);
    if chunkSize == -1 {
      return [Chunk(text, 0)], [];
    }
    if text == "" {
      return [], [];
    }
    var size := SizeOf(chunkSize);
    var overlap := OverlapOf(overlapSize, size);
    chunks, windows := Slide(text, size, overlap, isSpace);
    RebuildsText(text, windows, size, overlap);
  }
}
