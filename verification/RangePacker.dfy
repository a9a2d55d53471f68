/** The semantic chunker: blocks of a document are packed into ranges of its text. */
module RangePacker {

  datatype Span = Span(start: nat, end: nat)

  ghost predicate Spans(blocks: seq<Span>) {
    && (forall i :: 0 <= i < |blocks| ==> blocks[i].start < blocks[i].end)
    && (forall i, j :: 0 <= i < j < |blocks| ==> blocks[i].end <= blocks[j].start)
  }

  /** Range k covers the blocks from cuts[k] up to cuts[k + 1]. */
  ghost predicate Cuts(cuts: seq<nat>, n: nat) {
    && cuts != [] && cuts[0] == 0 && cuts[|cuts| - 1] == n
    && (forall i, j :: 0 <= i < j < |cuts| ==> cuts[i] < cuts[j])
  }

  ghost predicate Covers(r: Span, blocks: seq<Span>, lo: nat, hi: nat) {
    lo < hi <= |blocks| && r == Span(blocks[lo].start, blocks[hi - 1].end)
  }

  function Width(blocks: seq<Span>, lo: nat, hi: nat): int
    requires lo < hi <= |blocks|
  {
    blocks[hi - 1].end - blocks[lo].start
  }

  /** From lo on, the blocks up to h fit, or there is just one, and the next one does not fit any more. */
  predicate FitsUpTo(blocks: seq<Span>, lo: nat, h: nat, maxChars: int) {
    && lo < h <= |blocks| && (h == lo + 1 || Width(blocks, lo, h) <= maxChars)
    && (h < |blocks| ==> Width(blocks, lo, h + 1) > maxChars)
  }

  /** A range takes as many blocks as fit, and one more exactly if there is one and the range would be too small. */
  ghost predicate RangeOk(blocks: seq<Span>, lo: nat, hi: nat, minChars: int, maxChars: int) {
    exists h: nat :: FitsUpTo(blocks, lo, h, maxChars) && EndsAt(blocks, lo, h, hi, minChars)
  }

  lemma {:induction false} Wider(blocks: seq<Span>, lo: nat, h: nat, k: nat)
    requires Spans(blocks) && lo < h <= |blocks| && lo < k <= |blocks|
    ensures h < k ==> Width(blocks, lo, h + 1) <= Width(blocks, lo, k)
  {
    assert h + 1 < k ==> blocks[h].end <= blocks[k - 1].start;
  }

  lemma {:induction false} NoFurther(blocks: seq<Span>, lo: nat, h: nat, k: nat, maxChars: int)
    requires Spans(blocks) && FitsUpTo(blocks, lo, h, maxChars) && FitsUpTo(blocks, lo, k, maxChars)
    ensures k <= h
  {
    Wider(blocks, lo, h, k);
  }

  predicate EndsAt(blocks: seq<Span>, lo: nat, h: nat, hi: nat, minChars: int)
    requires lo < h <= |blocks|
  {
    hi == if h < |blocks| && Width(blocks, lo, h) < minChars then h + 1 else h
  }

  /** There is one such range. */
  lemma {:induction false} RangeUnique(blocks: seq<Span>, lo: nat, hi: nat, hi': nat, minChars: int, maxChars: int)
    requires Spans(blocks)
    requires RangeOk(blocks, lo, hi, minChars, maxChars) && RangeOk(blocks, lo, hi', minChars, maxChars)
    ensures hi == hi'
  {
    var h: nat :| FitsUpTo(blocks, lo, h, maxChars) && EndsAt(blocks, lo, h, hi, minChars);
    var k: nat :| FitsUpTo(blocks, lo, k, maxChars) && EndsAt(blocks, lo, k, hi', minChars);
    NoFurther(blocks, lo, h, k, maxChars);
    NoFurther(blocks, lo, k, h, maxChars);
  }

  /** One range: as many blocks as fit, and one more if that leaves it too small. */
  method TakeRange(blocks: seq<Span>, i: nat, minChars: int, maxChars: int) returns (r: Span, j: nat)
    requires Spans(blocks) && i < |blocks|
    ensures i < j <= |blocks| && Covers(r, blocks, i, j) && RangeOk(blocks, i, j, minChars, maxChars)
  {
    r, j := blocks[i], i + 1;
    var size := r.end - r.start;
    while j < |blocks|
      invariant i < j <= |blocks| && Covers(r, blocks, i, j) && size == r.end - r.start
      invariant j == i + 1 || size <= maxChars
    {
      var afterAdd := blocks[j].end - r.start;
      if afterAdd <= maxChars {
        r, size, j := Span(r.start, blocks[j].end), afterAdd, j + 1;
      } else {
        assert FitsUpTo(blocks, i, j, maxChars);
        assert EndsAt(blocks, i, j, if size < minChars then j + 1 else j, minChars);
        if size < minChars {
          r, size, j := Span(r.start, blocks[j].end), afterAdd, j + 1;
        }
        return;
      }
    }
    assert FitsUpTo(blocks, i, j, maxChars) && EndsAt(blocks, i, j, j, minChars);
  }

  ghost predicate Ranged(ranges: seq<Span>, blocks: seq<Span>, cuts: seq<nat>, upTo: nat) {
    && upTo <= |blocks| && Cuts(cuts, upTo) && |ranges| == |cuts| - 1
    && forall k :: 0 <= k < |ranges| ==> Covers(ranges[k], blocks, cuts[k], cuts[k + 1])
  }

  /** The first n ranges keep to the limits. */
  ghost predicate Limited(blocks: seq<Span>, cuts: seq<nat>, n: nat, minChars: int, maxChars: int) {
    n < |cuts| && forall k, m :: 0 <= k < m <= n && m == k + 1 ==>
      cuts[k] < cuts[m] <= |blocks| && RangeOk(blocks, cuts[k], cuts[m], minChars, maxChars)
  }

  lemma {:induction false} RangeAdded(ranges: seq<Span>, blocks: seq<Span>, cuts: seq<nat>, i: nat, r: Span, j: nat,
                                      minChars: int, maxChars: int)
    requires Ranged(ranges, blocks, cuts, i) && Limited(blocks, cuts, |ranges|, minChars, maxChars)
    requires i < j <= |blocks| && Covers(r, blocks, i, j) && RangeOk(blocks, i, j, minChars, maxChars)
    ensures Ranged(ranges + [r], blocks, cuts + [j], j) && Limited(blocks, cuts + [j], |ranges| + 1, minChars, maxChars)
  {
  }

  lemma {:induction false} TailMerged(ranges: seq<Span>, blocks: seq<Span>, cuts: seq<nat>)
    returns (ranges': seq<Span>, cuts': seq<nat>)
    requires Ranged(ranges, blocks, cuts, |blocks|) && |ranges| >= 2
    ensures ranges' == ranges[..|ranges| - 2] + [Span(ranges[|ranges| - 2].start, ranges[|ranges| - 1].end)]
    ensures Ranged(ranges', blocks, cuts', |blocks|) && |cuts'| == |cuts| - 1
    ensures forall k :: 0 <= k < |cuts'| - 1 ==> cuts'[k] == cuts[k]
  {
    var k := |ranges|;
    assert Covers(ranges[k - 1], blocks, cuts[k - 1], cuts[k]);
    assert Covers(ranges[k - 2], blocks, cuts[k - 2], cuts[k - 1]);
    assert cuts[k - 2] < cuts[k - 1] < cuts[k];
    ranges' := ranges[..k - 2] + [Span(ranges[k - 2].start, ranges[k - 1].end)];
    cuts' := cuts[..k - 1] + [cuts[k]];
    forall m | 0 <= m < |ranges'| ensures Covers(ranges'[m], blocks, cuts'[m], cuts'[m + 1]) {
      if m < k - 2 {
        assert Covers(ranges[m], blocks, cuts[m], cuts[m + 1]);
      }
    }
  }

  /** The last range is merged into the one before exactly if it is small and the two together are not too wide. */
  predicate MergesTail(ranges: seq<Span>, minChars: int, target: int, maxChars: int) {
    && |ranges| >= 2
    && var last, prev := ranges[|ranges| - 1], ranges[|ranges| - 2];
       && last.end - last.start < minChars && last.end - last.start < target / 2
       && last.end - prev.start <= maxChars * 2
  }

  /** `packed` covers all blocks in order and keeps to the limits, range by range; the result is that, or, only where
      its tail merges, that with its last two ranges joined. */
  method PackBlocks(blocks: seq<Span>, minChars: int, target: int, maxChars: int)
    returns (ranges: seq<Span>, ghost cuts: seq<nat>, ghost packed: seq<Span>, ghost packedCuts: seq<nat>)
    requires Spans(blocks)
    ensures Ranged(packed, blocks, packedCuts, |blocks|) && Limited(blocks, packedCuts, |packed|, minChars, maxChars)
    ensures MergesTail(packed, minChars, target, maxChars) ==>
              ranges == packed[..|packed| - 2] + [Span(packed[|packed| - 2].start, packed[|packed| - 1].end)]
    ensures !MergesTail(packed, minChars, target, maxChars) ==> ranges == packed
    ensures Ranged(ranges, blocks, cuts, |blocks|)
  {
    ranges, cuts := [], [0];
    var i := 0;
    while i < |blocks|
      invariant i <= |blocks| && Ranged(ranges, blocks, cuts, i)
      invariant Limited(blocks, cuts, |ranges|, minChars, maxChars)
    {
      var r, j := TakeRange(blocks, i, minChars, maxChars);
      RangeAdded(ranges, blocks, cuts, i, r, j, minChars, maxChars);
      ranges, cuts, i := ranges + [r], cuts + [j], j;
    }
    packed, packedCuts := ranges, cuts;
    ranges, cuts := MergeTail(blocks, ranges, packedCuts, minChars, target, maxChars);
  }

  /** A small last range joins the one before. */
  method MergeTail(blocks: seq<Span>, packed: seq<Span>, ghost packedCuts: seq<nat>, minChars: int, target: int,
                   maxChars: int)
    returns (ranges: seq<Span>, ghost cuts: seq<nat>)
    requires Ranged(packed, blocks, packedCuts, |blocks|)
    ensures MergesTail(packed, minChars, target, maxChars) ==>
              ranges == packed[..|packed| - 2] + [Span(packed[|packed| - 2].start, packed[|packed| - 1].end)]
    ensures !MergesTail(packed, minChars, target, maxChars) ==> ranges == packed
    ensures Ranged(ranges, blocks, cuts, |blocks|)
  {
    ranges, cuts := packed, packedCuts;
    if |ranges| >= 2 {
      var last, prev := ranges[|ranges| - 1], ranges[|ranges| - 2];
      if last.end - last.start < (if minChars < target / 2 then minChars else target / 2) {
        if last.end - prev.start <= maxChars * 2 {
          ghost var merged, cuts' := TailMerged(ranges, blocks, cuts);
          ranges := ranges[..|ranges| - 2] + [Span(prev.start, last.end)];
          cuts := cuts';
        }
      }
    }
  }

  /** So every block lies in exactly one range, and ranges follow the order of the text. */
  lemma {:induction false} BlockInOneRange(ranges: seq<Span>, blocks: seq<Span>, cuts: seq<nat>, b: nat)
    requires Spans(blocks) && Ranged(ranges, blocks, cuts, |blocks|) && b < |blocks|
    ensures exists k :: 0 <= k < |ranges| && ranges[k].start <= blocks[b].start && blocks[b].end <= ranges[k].end
                     && forall m :: 0 <= m < |ranges| && m != k ==>
                          ranges[m].end <= blocks[b].start || blocks[b].end <= ranges[m].start
  {
    var k := FindCut(cuts, |blocks|, b);
    assert Covers(ranges[k], blocks, cuts[k], cuts[k + 1]);
    SpansWithin(blocks, cuts[k], cuts[k + 1], b);
    forall m | 0 <= m < |ranges| && m != k
      ensures ranges[m].end <= blocks[b].start || blocks[b].end <= ranges[m].start
    {
      assert Covers(ranges[m], blocks, cuts[m], cuts[m + 1]);
      if m < k {
        assert cuts[m + 1] <= cuts[k];
      } else {
        assert cuts[k + 1] <= cuts[m];
      }
    }
  }

  lemma {:induction false} SpansWithin(blocks: seq<Span>, lo: nat, hi: nat, b: nat)
    requires Spans(blocks) && lo <= b < hi <= |blocks|
    ensures blocks[lo].start <= blocks[b].start && blocks[b].end <= blocks[hi - 1].end
  {
    assert lo < b ==> blocks[lo].end <= blocks[b].start;
    assert b < hi - 1 ==> blocks[b].end <= blocks[hi - 1].start;
  }

  lemma {:induction false} FindCut(cuts: seq<nat>, n: nat, b: nat) returns (k: nat)
    requires Cuts(cuts, n) && b < n
    ensures k < |cuts| - 1 && cuts[k] <= b < cuts[k + 1]
  {
    k := 0;
    while cuts[k + 1] <= b
      invariant k < |cuts| - 1 && cuts[k] <= b
      decreases |cuts| - k
    {
      k := k + 1;
    }
  }
}
