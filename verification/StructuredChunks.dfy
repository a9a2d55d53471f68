/** What the chunks of a structured document say about its blocks. */
module StructuredChunks {
  import opened StructuredChunker

  // ---- The text of the blocks ------------------------------------------------------------------

  /** The number of blocks with some content. */
  function Filled(blocks: seq<Block>): nat {
    if blocks == [] then 0
    else Filled(blocks[..|blocks| - 1]) + if blocks[|blocks| - 1].content == "" then 0 else 1
  }

  predicate At(text: string, part: string, pos: nat) {
    pos + |part| <= |text| && text[pos..pos + |part|] == part
  }

  /** One content ends, a blank line, and the other one starts later on. */
  predicate Before(text: string, a: string, b: string, i: nat, j: nat) {
    a != "" && b != "" ==> i + |a| + 2 <= j && At(text, "\n\n", i + |a|)
  }

  /** The contents of the blocks stand in the text, in order, with a blank line behind all but the last. */
  ghost predicate StandsIn(text: string, blocks: seq<Block>, at: seq<nat>) {
    && |at| == |blocks| && (forall i :: 0 <= i < |blocks| ==> At(text, blocks[i].content, at[i]))
    && (forall i, j :: 0 <= i < j < |blocks| ==> Before(text, blocks[i].content, blocks[j].content, at[i], at[j]))
  }

  /** The join has the characters of the blocks, and two more for each gap between contents. */
  lemma {:induction false} JoinedLengthExactly(blocks: seq<Block>)
    ensures Filled(blocks) == 0 ==> JoinContents(blocks) == "" && TotalChars(blocks) == 0
    ensures Filled(blocks) > 0 ==> |JoinContents(blocks)| == TotalChars(blocks) + 2 * (Filled(blocks) - 1)
    ensures JoinContents(blocks) == "" <==> Filled(blocks) == 0
  {
    if blocks != [] {
      JoinedLengthExactly(blocks[..|blocks| - 1]);
    }
  }

  lemma {:induction false} StillAt(text: string, more: string, part: string, pos: nat)
    requires At(text, part, pos)
    ensures At(text + more, part, pos)
  {
    assert (text + more)[pos..pos + |part|] == text[pos..pos + |part|];
  }

  lemma {:induction false} StillStand(text: string, more: string, blocks: seq<Block>, at: seq<nat>)
    requires StandsIn(text, blocks, at)
    ensures StandsIn(text + more, blocks, at)
  {
    forall i | 0 <= i < |blocks| ensures At(text + more, blocks[i].content, at[i]) {
      StillAt(text, more, blocks[i].content, at[i]);
    }
    forall i, j | 0 <= i < j < |blocks|
      ensures Before(text + more, blocks[i].content, blocks[j].content, at[i], at[j])
    {
      if blocks[i].content != "" && blocks[j].content != "" {
        StillAt(text, more, "\n\n", at[i] + |blocks[i].content|);
      }
    }
  }

  /** Contents that end a text are followed by a blank line when another one is joined. */
  ghost predicate Ends(text: string, blocks: seq<Block>, at: seq<nat>)
    requires |at| == |blocks|
  {
    forall i :: 0 <= i < |blocks| && blocks[i].content != "" ==>
      at[i] + |blocks[i].content| == |text| || At(text, "\n\n", at[i] + |blocks[i].content|)
  }

  lemma {:induction false} AtEnd(front: string, last: string)
    ensures At(front + "\n\n" + last, last, |front| + 2) && At(front + "\n\n" + last, "\n\n", |front|)
  {
  }

  lemma {:induction false} StandLonger(text: string, blocks: seq<Block>, at: seq<nat>, b: Block, pos: nat)
    requires StandsIn(text, blocks, at) && At(text, b.content, pos)
    requires forall i :: 0 <= i < |blocks| ==> Before(text, blocks[i].content, b.content, at[i], pos)
    ensures StandsIn(text, blocks + [b], at + [pos])
  {
  }

  /** Nothing of the blocks is lost or reordered when they are joined. */
  lemma {:induction false} ContentsStand(blocks: seq<Block>) returns (at: seq<nat>)
    ensures StandsIn(JoinContents(blocks), blocks, at) && Ends(JoinContents(blocks), blocks, at)
  {
    if blocks == [] {
      at := [];
    } else {
      var n := |blocks| - 1;
      var front, last := JoinContents(blocks[..n]), blocks[n].content;
      var before := ContentsStand(blocks[..n]);
      var pos := if last == "" || front == "" then 0 else |front| + 2;
      at := before + [pos];
      JoinStands(blocks[..n], before, blocks[n], pos);
      assert blocks == blocks[..n] + [blocks[n]];
    }
  }

  lemma {:induction false} NothingFilled(blocks: seq<Block>)
    requires JoinContents(blocks) == ""
    ensures forall i :: 0 <= i < |blocks| ==> blocks[i].content == ""
  {
    if blocks != [] {
      NothingFilled(blocks[..|blocks| - 1]);
    }
  }

  lemma {:induction false} FirstStands(blocks: seq<Block>, at: seq<nat>, b: Block)
    requires StandsIn("", blocks, at) && JoinContents(blocks) == ""
    ensures StandsIn(b.content, blocks + [b], at + [0]) && Ends(b.content, blocks + [b], at + [0])
  {
    NothingFilled(blocks);
    assert "" + b.content == b.content;
    StillStand("", b.content, blocks, at);
    StandLonger(b.content, blocks, at, b, 0);
    EndsLonger(b.content, blocks, at, b, 0);
  }

  lemma {:induction false} JoinStands(blocks: seq<Block>, at: seq<nat>, b: Block, pos: nat)
    requires StandsIn(JoinContents(blocks), blocks, at) && Ends(JoinContents(blocks), blocks, at)
    requires pos == if b.content == "" || JoinContents(blocks) == "" then 0 else |JoinContents(blocks)| + 2
    ensures StandsIn(JoinContents(blocks + [b]), blocks + [b], at + [pos])
    ensures Ends(JoinContents(blocks + [b]), blocks + [b], at + [pos])
  {
    var front, last := JoinContents(blocks), b.content;
    assert (blocks + [b])[..|blocks|] == blocks;
    if last == "" {
      StandLonger(front, blocks, at, b, pos);
    } else if front == "" {
      FirstStands(blocks, at, b);
    } else {
      JoinBehind(front, blocks, at, b);
    }
  }

  lemma {:induction false} BreakBehind(front: string, last: string, part: string, pos: nat)
    requires At(front, part, pos) && (pos + |part| == |front| || At(front, "\n\n", pos + |part|))
    ensures At(front + "\n\n" + last, "\n\n", pos + |part|)
  {
    assert front + "\n\n" + last == front + ("\n\n" + last);
    if pos + |part| == |front| {
      AtEnd(front, last);
    } else {
      StillAt(front, "\n\n" + last, "\n\n", pos + |part|);
    }
  }

  lemma {:induction false} JoinBehind(front: string, blocks: seq<Block>, at: seq<nat>, b: Block)
    requires StandsIn(front, blocks, at) && Ends(front, blocks, at) && b.content != ""
    ensures var text := front + "\n\n" + b.content;
            StandsIn(text, blocks + [b], at + [|front| + 2]) && Ends(text, blocks + [b], at + [|front| + 2])
  {
    var text := front + "\n\n" + b.content;
    assert text == front + ("\n\n" + b.content);
    AtEnd(front, b.content);
    StillStand(front, "\n\n" + b.content, blocks, at);
    forall i | 0 <= i < |blocks|
      ensures Before(text, blocks[i].content, b.content, at[i], |front| + 2)
      ensures blocks[i].content != "" ==> At(text, "\n\n", at[i] + |blocks[i].content|)
    {
      if blocks[i].content != "" {
        BreakBehind(front, b.content, blocks[i].content, at[i]);
      }
    }
    StandLonger(text, blocks, at, b, |front| + 2);
    EndsLonger(text, blocks, at, b, |front| + 2);
  }

  lemma {:induction false} EndsLonger(text: string, blocks: seq<Block>, at: seq<nat>, b: Block, pos: nat)
    requires |at| == |blocks| && pos + |b.content| == |text|
    requires forall i :: 0 <= i < |blocks| && blocks[i].content != "" ==> At(text, "\n\n", at[i] + |blocks[i].content|)
    ensures Ends(text, blocks + [b], at + [pos])
  {
  }

  // ---- Every block is in the chunk that names it -----------------------------------------------

  lemma {:induction false} PlacedOf(blocks: seq<Block>, i: nat) returns (p: nat)
    requires i < |blocks| && blocks[i].kind != HEADING
    ensures p < |Place(blocks)|
    ensures Place(blocks)[p] == Placed(blocks[i], OutlineAfter(blocks[..i]), Sections(blocks[..i]))
  {
    var front := blocks[..|blocks| - 1];
    if i == |blocks| - 1 {
      p := |Place(front)|;
    } else {
      p := PlacedOf(front, i);
      assert front[..i] == blocks[..i];
    }
  }

  lemma {:induction false} GroupOf(groups: seq<Group>, p: nat) returns (k: nat, m: nat)
    requires p < |AllMembers(groups)|
    ensures k < |groups| && m < |groups[k].blocks| && Members(groups[k])[m] == AllMembers(groups)[p]
  {
    var n := |groups| - 1;
    if p < |AllMembers(groups[..n])| {
      k, m := GroupOf(groups[..n], p);
    } else {
      k, m := n, p - |AllMembers(groups[..n])|;
    }
  }

  lemma {:induction false} BodyOf(groups: seq<Group>, maxRows: nat, k: nat, body: Body) returns (c: nat)
    requires maxRows >= 1 && (forall j :: 0 <= j < |groups| ==> groups[j].blocks != []) && k < |groups|
    requires body in BodiesOf(groups[k], maxRows)
    ensures c < |Bodies(groups, maxRows)| && Bodies(groups, maxRows)[c] == body
  {
    var n := |groups| - 1;
    var front := Bodies(groups[..n], maxRows);
    if k == n {
      var i :| 0 <= i < |BodiesOf(groups[k], maxRows)| && BodiesOf(groups[k], maxRows)[i] == body;
      c := |front| + i;
    } else {
      c := BodyOf(groups[..n], maxRows, k, body);
    }
  }

  /** A paragraph or list is in a text chunk that names it, under the outline of its section. */
  lemma {:induction false} TextIsKept(blocks: seq<Block>, groups: seq<Group>, chunks: seq<Chunk>, target: nat,
                                      maxRows: nat, i: nat) returns (c: nat, m: nat, pos: nat)
    requires Chunked(Place(blocks), groups, chunks, target, maxRows) && i < |blocks| && IsText(blocks[i])
    ensures c < |chunks| && chunks[c].body.Text? && m < |chunks[c].body.ids|
    ensures chunks[c].body.ids[m] == blocks[i].id && At(chunks[c].body.content, blocks[i].content, pos)
    ensures chunks[c].body.outline == OutlineAfter(blocks[..i])
  {
    var p := PlacedOf(blocks, i);
    var k := 0;
    k, m := GroupOf(groups, p);
    var g := groups[k];
    assert GroupOk(g, target) && g.blocks[m] == blocks[i] && IsText(g.blocks[0]);
    c := BodyOf(groups, maxRows, k, Text(Ids(g.blocks), g.outline, JoinContents(g.blocks)));
    var at := ContentsStand(g.blocks);
    pos := at[m];
  }

  /** Any other block but a heading is chunked on its own, with its own outline if it has one. */
  lemma {:induction false} SingleIsKept(blocks: seq<Block>, groups: seq<Group>, chunks: seq<Chunk>, target: nat,
                                        maxRows: nat, i: nat) returns (c: nat)
    requires Chunked(Place(blocks), groups, chunks, target, maxRows) && i < |blocks|
    requires blocks[i].kind == CODE || blocks[i].kind == IMAGE
    ensures c < |chunks|
    ensures var outline := if blocks[i].outline != [] then blocks[i].outline else OutlineAfter(blocks[..i]);
            chunks[c].body == Single(blocks[i].id, blocks[i].kind, outline, blocks[i].content)
  {
    var g := AloneInGroup(blocks, groups, chunks, target, maxRows, i);
    c := BodyOf(groups, maxRows, g, Single(blocks[i].id, blocks[i].kind, Own(blocks[i], groups[g].outline),
                                           blocks[i].content));
  }

  lemma {:induction false} AloneInGroup(blocks: seq<Block>, groups: seq<Group>, chunks: seq<Chunk>, target: nat,
                                        maxRows: nat, i: nat) returns (k: nat)
    requires Chunked(Place(blocks), groups, chunks, target, maxRows) && i < |blocks|
    requires blocks[i].kind != HEADING && !IsText(blocks[i])
    ensures k < |groups| && groups[k].blocks == [blocks[i]] && groups[k].outline == OutlineAfter(blocks[..i])
  {
    var p := PlacedOf(blocks, i);
    var m := 0;
    k, m := GroupOf(groups, p);
    assert GroupOk(groups[k], target) && groups[k].blocks[m] == blocks[i];
  }

  /** Every piece of a table is a chunk that names it, with its own outline if it has one. */
  lemma {:induction false} PieceIsKept(blocks: seq<Block>, groups: seq<Group>, chunks: seq<Chunk>, target: nat,
                                       maxRows: nat, i: nat, piece: Body) returns (c: nat)
    requires Chunked(Place(blocks), groups, chunks, target, maxRows) && i < |blocks| && blocks[i].kind == TABLE
    requires piece in Pieces(blocks[i], OutlineAfter(blocks[..i]), maxRows)
    ensures c < |chunks| && chunks[c].body == piece && piece.Piece? && piece.id == blocks[i].id
    ensures piece.outline == if blocks[i].outline != [] then blocks[i].outline else OutlineAfter(blocks[..i])
  {
    var k := AloneInGroup(blocks, groups, chunks, target, maxRows, i);
    c := BodyOf(groups, maxRows, k, piece);
    PieceNames(blocks[i], OutlineAfter(blocks[..i]), 0, maxRows, piece);
  }

  lemma {:induction false} PieceNames(b: Block, outline: seq<string>, from: nat, maxRows: nat, piece: Body)
    requires maxRows >= 1 && from <= |b.rows|
    requires piece in (if b.rows == [] then Pieces(b, outline, maxRows) else PiecesFrom(b, outline, from, maxRows))
    ensures piece.Piece? && piece.id == b.id && piece.outline == if b.outline != [] then b.outline else outline
    decreases |b.rows| - from
  {
    if b.rows != [] && from < |b.rows| {
      var end := BatchEnd(from, |b.rows|, maxRows);
      if piece in PiecesFrom(b, outline, end, maxRows) {
        PieceNames(b, outline, end, maxRows, piece);
      }
    }
  }

  /** The outline in force is that of the last heading: its own, or else its text. */
  lemma {:induction false} OutlineIsOfHeading(blocks: seq<Block>, h: nat, i: nat)
    requires h < i <= |blocks| && blocks[h].kind == HEADING && forall j :: h < j < i ==> blocks[j].kind != HEADING
    ensures OutlineAfter(blocks[..i])
            == if blocks[h].outline != [] then blocks[h].outline else [blocks[h].content]
  {
    assert blocks[..i][..i - 1] == blocks[..i - 1];
    if h < i - 1 {
      OutlineIsOfHeading(blocks, h, i - 1);
    }
  }

  lemma {:induction false} NoHeadingNoOutline(blocks: seq<Block>)
    requires forall j :: 0 <= j < |blocks| ==> blocks[j].kind != HEADING
    ensures OutlineAfter(blocks) == []
  {
    if blocks != [] {
      NoHeadingNoOutline(blocks[..|blocks| - 1]);
    }
  }

  // ---- The groups are determined by the document -----------------------------------------------

  function Offset(groups: seq<Group>, i: nat): nat
    requires i <= |groups|
  {
    |AllMembers(groups[..i])|
  }

  lemma {:induction false} MembersAt(groups: seq<Group>, i: nat)
    requires i < |groups|
    ensures Offset(groups, i + 1) == Offset(groups, i) + |groups[i].blocks| <= |AllMembers(groups)|
    ensures forall m :: 0 <= m < |groups[i].blocks| ==>
              AllMembers(groups)[Offset(groups, i) + m] == Members(groups[i])[m]
  {
    var n := |groups| - 1;
    assert groups[..i + 1][..i] == groups[..i];
    if i == n {
      assert groups[..n + 1] == groups;
    } else {
      MembersAt(groups[..n], i);
      assert groups[..n][..i] == groups[..i] && groups[..n][..i + 1] == groups[..i + 1];
    }
  }

  lemma {:induction false} PrefixChars(blocks: seq<Block>, m: nat)
    requires m < |blocks|
    ensures TotalChars(blocks[..m]) + |blocks[m].content| <= TotalChars(blocks)
  {
    var n := |blocks| - 1;
    if m < n {
      PrefixChars(blocks[..n], m);
      assert blocks[..n][..m] == blocks[..m];
    }
  }

  /** A group is not full if another one goes on from it. */
  lemma {:induction false} StopsWhereFull(g: Group, next: Group, h: Group, target: nat)
    requires g.blocks != [] && next.blocks != [] && GroupOk(h, target)
    requires |h.blocks| > |g.blocks| && h.blocks[..|g.blocks|] == g.blocks && h.blocks[|g.blocks|] == next.blocks[0]
    requires g.section == h.section == next.section
    ensures !Full(g, next, target)
  {
    assert h.blocks[0] == h.blocks[..|g.blocks|][0] == g.blocks[0];
    PrefixChars(h.blocks, |g.blocks|);
  }

  /** Groups of the same blocks that follow each other from the same start. */
  ghost predicate Aligned(a: seq<Group>, b: seq<Group>, i: nat, target: nat) {
    && GroupsOk(a, target) && GroupsOk(b, target) && AllMembers(a) == AllMembers(b)
    && i < |a| && i < |b| && Offset(a, i) == Offset(b, i)
  }

  lemma {:induction false} SameAt(a: seq<Group>, b: seq<Group>, i: nat, target: nat, m: nat)
    requires Aligned(a, b, i, target) && m < |a[i].blocks| && m < |b[i].blocks|
    ensures Members(a[i])[m] == Members(b[i])[m]
  {
    MembersAt(a, i);
    MembersAt(b, i);
  }

  lemma {:induction false} NextStarts(a: seq<Group>, b: seq<Group>, i: nat, target: nat)
    requires Aligned(a, b, i, target) && |a[i].blocks| < |b[i].blocks|
    ensures i + 1 < |a| && Members(a[i + 1])[0] == Members(b[i])[|a[i].blocks|]
  {
    assert a[..|a|] == a;
    MembersAt(a, i);
    MembersAt(b, i);
    assert GroupOk(a[i + 1], target);
    MembersAt(a, i + 1);
  }

  lemma {:induction false} NoLonger(a: seq<Group>, b: seq<Group>, i: nat, target: nat)
    requires Aligned(a, b, i, target)
    ensures |b[i].blocks| <= |a[i].blocks|
  {
    if |a[i].blocks| < |b[i].blocks| {
      var g, h, n := a[i], b[i], |a[i].blocks|;
      assert GroupOk(g, target) && GroupOk(h, target);
      NextStarts(a, b, i, target);
      forall m | 0 <= m < n ensures Members(g)[m] == Members(h)[m] {
        SameAt(a, b, i, target, m);
      }
      assert forall m :: 0 <= m < n ==> g.blocks[m] == Members(g)[m].block == Members(h)[m].block == h.blocks[m];
      assert g.section == Members(g)[0].section == Members(h)[0].section == h.section;
      assert Members(a[i + 1])[0].block == h.blocks[n] && Members(a[i + 1])[0].section == h.section;
      assert h.blocks[..n] == g.blocks;
      StopsWhereFull(g, a[i + 1], h, target);
    }
  }

  lemma {:induction false} SameGroup(a: seq<Group>, b: seq<Group>, i: nat, target: nat)
    requires Aligned(a, b, i, target)
    ensures a[i] == b[i]
  {
    NoLonger(a, b, i, target);
    NoLonger(b, a, i, target);
    assert GroupOk(a[i], target);
    forall m | 0 <= m < |a[i].blocks| ensures Members(a[i])[m] == Members(b[i])[m] {
      SameAt(a, b, i, target, m);
    }
    assert forall m :: 0 <= m < |a[i].blocks| ==> a[i].blocks[m] == Members(a[i])[m].block == b[i].blocks[m];
    assert a[i].outline == Members(a[i])[0].outline && a[i].section == Members(a[i])[0].section;
  }

  lemma {:induction false} SameGroups(a: seq<Group>, b: seq<Group>, i: nat, target: nat)
    requires GroupsOk(a, target) && GroupsOk(b, target) && AllMembers(a) == AllMembers(b) && i <= |a|
    ensures i <= |b| && a[..i] == b[..i]
  {
    if i > 0 {
      SameGroups(a, b, i - 1, target);
      MembersAt(a, i - 1);
      assert GroupOk(a[i - 1], target);
      assert b[..|b|] == b;
      SameGroup(a, b, i - 1, target);
      assert a[..i] == a[..i - 1] + [a[i - 1]] && b[..i] == b[..i - 1] + [b[i - 1]];
    }
  }

  /** There is one way to chunk a document. */
  lemma {:induction false} ChunksUnique(placed: seq<Placed>, a: seq<Group>, b: seq<Group>, chunks: seq<Chunk>,
                                        chunks': seq<Chunk>, target: nat, maxRows: nat)
    requires Chunked(placed, a, chunks, target, maxRows) && Chunked(placed, b, chunks', target, maxRows)
    ensures a == b && chunks == chunks'
  {
    SameGroups(a, b, |a|, target);
    SameGroups(b, a, |b|, target);
    assert a[..|a|] == a && b[..|b|] == b;
  }
}
