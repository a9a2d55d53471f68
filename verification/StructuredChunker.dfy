/** The chunker for structured documents: text blocks are buffered, tables are cut by rows, the rest stands alone. */
module StructuredChunker {

  datatype Kind = HEADING | PARAGRAPH | LIST | TABLE | CODE | IMAGE

  type Row = seq<string>

  datatype Block = Block(id: string, kind: Kind, content: string, outline: seq<string>, rows: seq<Row>)

  /** What a chunk holds. `rowStart` and `rowEnd` count from 1 and are both inclusive. */
  datatype Body = Text(ids: seq<string>, outline: seq<string>, content: string)
                | Piece(id: string, outline: seq<string>, rows: seq<Row>, rowStart: nat, rowEnd: nat)
                | Single(id: string, kind: Kind, outline: seq<string>, content: string)

  datatype Chunk = Chunk(index: nat, body: Body)

  predicate IsText(b: Block) {
    b.kind == PARAGRAPH || b.kind == LIST
  }

  function OutlineOf(heading: Block): seq<string> {
    if heading.outline != [] then heading.outline else [heading.content]
  }

  /** The outline in force after some blocks: that of the last heading. */
  function OutlineAfter(blocks: seq<Block>): seq<string> {
    if blocks == [] then []
    else
      var last := blocks[|blocks| - 1];
      if last.kind == HEADING then OutlineOf(last) else OutlineAfter(blocks[..|blocks| - 1])
  }

  function Own(b: Block, outline: seq<string>): seq<string> {
    if b.outline != [] then b.outline else outline
  }

  function Ids(blocks: seq<Block>): seq<string> {
    seq(|blocks|, i requires 0 <= i < |blocks| => blocks[i].id)
  }

  function TotalChars(blocks: seq<Block>): nat {
    if blocks == [] then 0 else TotalChars(blocks[..|blocks| - 1]) + |blocks[|blocks| - 1].content|
  }

  /** The contents that are not empty, with blank lines between. */
  function JoinContents(blocks: seq<Block>): string {
    if blocks == [] then ""
    else
      var front, last := JoinContents(blocks[..|blocks| - 1]), blocks[|blocks| - 1].content;
      if last == "" then front else if front == "" then last else front + "\n\n" + last
  }

  // ---- The document as the chunks must tell it -------------------------------------------------

  /** A block that is not a heading, with the outline in force where it stands and the number of headings before it. */
  datatype Placed = Placed(block: Block, outline: seq<string>, section: nat)

  function Sections(blocks: seq<Block>): nat {
    if blocks == [] then 0
    else Sections(blocks[..|blocks| - 1]) + if blocks[|blocks| - 1].kind == HEADING then 1 else 0
  }

  /** The blocks of a document but for its headings, in order. */
  function Place(blocks: seq<Block>): seq<Placed> {
    if blocks == [] then []
    else
      var front, last := blocks[..|blocks| - 1], blocks[|blocks| - 1];
      Place(front) + if last.kind == HEADING then [] else [Placed(last, OutlineAfter(front), Sections(front))]
  }

  /** Blocks that are chunked together, under one heading. */
  datatype Group = Group(outline: seq<string>, section: nat, blocks: seq<Block>)

  function Members(g: Group): seq<Placed> {
    seq(|g.blocks|, i requires 0 <= i < |g.blocks| => Placed(g.blocks[i], g.outline, g.section))
  }

  function AllMembers(groups: seq<Group>): seq<Placed> {
    if groups == [] then [] else AllMembers(groups[..|groups| - 1]) + Members(groups[|groups| - 1])
  }

  /** A group is one block, or text of at most `target` characters. */
  predicate GroupOk(g: Group, target: nat) {
    && g.blocks != []
    && (|g.blocks| > 1 ==> TotalChars(g.blocks) <= target && forall i :: 0 <= i < |g.blocks| ==> IsText(g.blocks[i]))
  }

  /** Text of one section is only cut where the next block does not fit any more. */
  predicate Full(g: Group, next: Group, target: nat)
    requires g.blocks != [] && next.blocks != []
  {
    g.section == next.section && IsText(g.blocks[0]) && IsText(next.blocks[0]) ==>
      TotalChars(g.blocks) + |next.blocks[0].content| > target
  }

  // ---- What a group becomes --------------------------------------------------------------------

  /** Where the batch that starts at row `from` ends. */
  function BatchEnd(from: nat, size: nat, maxRows: nat): (end: nat)
    requires maxRows >= 1 && from < size
    ensures from < end <= size && end - from <= maxRows && (end < size ==> end - from == maxRows)
  {
    if from + maxRows < size then from + maxRows else size
  }

  /** The pieces of a table from row `from` on. */
  function PiecesFrom(b: Block, outline: seq<string>, from: nat, maxRows: nat): seq<Body>
    requires maxRows >= 1 && from <= |b.rows|
    decreases |b.rows| - from
  {
    if from == |b.rows| then []
    else
      var end := BatchEnd(from, |b.rows|, maxRows);
      [Piece(b.id, Own(b, outline), b.rows[from..end], from + 1, end)] + PiecesFrom(b, outline, end, maxRows)
  }

  /** A table without rows still yields one empty piece. */
  function Pieces(b: Block, outline: seq<string>, maxRows: nat): seq<Body>
    requires maxRows >= 1
  {
    if b.rows == [] then [Piece(b.id, Own(b, outline), [], 1, 0)] else PiecesFrom(b, outline, 0, maxRows)
  }

  function BodiesOf(g: Group, maxRows: nat): seq<Body>
    requires maxRows >= 1 && g.blocks != []
  {
    var b := g.blocks[0];
    if IsText(b) then [Text(Ids(g.blocks), g.outline, JoinContents(g.blocks))]
    else if b.kind == TABLE then Pieces(b, g.outline, maxRows)
    else [Single(b.id, b.kind, Own(b, g.outline), b.content)]
  }

  function Bodies(groups: seq<Group>, maxRows: nat): seq<Body>
    requires maxRows >= 1 && forall k :: 0 <= k < |groups| ==> groups[k].blocks != []
  {
    if groups == [] then []
    else Bodies(groups[..|groups| - 1], maxRows) + BodiesOf(groups[|groups| - 1], maxRows)
  }

  function Numbered(start: nat, bodies: seq<Body>): seq<Chunk> {
    seq(|bodies|, i requires 0 <= i < |bodies| => Chunk(start + i, bodies[i]))
  }

  ghost predicate GroupsOk(groups: seq<Group>, target: nat) {
    && (forall k :: 0 <= k < |groups| ==> GroupOk(groups[k], target))
    && (forall j, k :: 0 <= j < |groups| && k == j + 1 < |groups| ==> Full(groups[j], groups[k], target))
  }

  /** The groups take up the document, no block twice or out of order, and the chunks are what the groups become. */
  ghost predicate Chunked(placed: seq<Placed>, groups: seq<Group>, chunks: seq<Chunk>, target: nat, maxRows: nat) {
    && maxRows >= 1 && GroupsOk(groups, target) && AllMembers(groups) == placed
    && chunks == Numbered(0, Bodies(groups, maxRows))
  }

  lemma {:induction false} NumberedAdd(bodies: seq<Body>, more: seq<Body>)
    ensures Numbered(0, bodies + more) == Numbered(0, bodies) + Numbered(|bodies|, more)
  {
  }

  lemma {:induction false} NumberedOne(start: nat, bodies: seq<Body>, body: Body)
    ensures Numbered(start, bodies + [body]) == Numbered(start, bodies) + [Chunk(start + |bodies|, body)]
  {
  }

  lemma {:induction false} PiecesStep(b: Block, outline: seq<string>, from: nat, maxRows: nat, made: seq<Body>)
    requires maxRows >= 1 && from < |b.rows|
    ensures var end := BatchEnd(from, |b.rows|, maxRows);
            made + PiecesFrom(b, outline, from, maxRows)
            == (made + [Piece(b.id, Own(b, outline), b.rows[from..end], from + 1, end)])
               + PiecesFrom(b, outline, end, maxRows)
  {
  }

  lemma {:induction false} BodiesAdd(groups: seq<Group>, g: Group, maxRows: nat)
    requires maxRows >= 1 && g.blocks != [] && forall k :: 0 <= k < |groups| ==> groups[k].blocks != []
    ensures Bodies(groups + [g], maxRows) == Bodies(groups, maxRows) + BodiesOf(g, maxRows)
  {
    assert (groups + [g])[..|groups|] == groups;
  }

  lemma {:induction false} AllMembersAdd(groups: seq<Group>, g: Group)
    ensures AllMembers(groups + [g]) == AllMembers(groups) + Members(g)
  {
    assert (groups + [g])[..|groups|] == groups;
  }

  lemma {:induction false} GroupsAdd(groups: seq<Group>, g: Group, target: nat)
    requires GroupsOk(groups, target) && GroupOk(g, target)
    requires groups != [] ==> Full(groups[|groups| - 1], g, target)
    ensures GroupsOk(groups + [g], target)
  {
    var groups' := groups + [g];
    assert forall k :: 0 <= k < |groups| ==> groups'[k] == groups[k];
  }

  lemma {:induction false} ChunkedAdd(placed: seq<Placed>, groups: seq<Group>, chunks: seq<Chunk>, g: Group,
                                      target: nat, maxRows: nat)
    requires Chunked(placed, groups, chunks, target, maxRows) && GroupOk(g, target)
    requires groups != [] ==> Full(groups[|groups| - 1], g, target)
    ensures Chunked(placed + Members(g), groups + [g], chunks + Numbered(|chunks|, BodiesOf(g, maxRows)),
                    target, maxRows)
  {
    AllMembersAdd(groups, g);
    GroupsAdd(groups, g, target);
    BodiesAdd(groups, g, maxRows);
    NumberedAdd(Bodies(groups, maxRows), BodiesOf(g, maxRows));
  }

  lemma {:induction false} PlaceStep(blocks: seq<Block>, i: nat)
    requires i < |blocks|
    ensures blocks[i].kind == HEADING ==>
              && Place(blocks[..i + 1]) == Place(blocks[..i]) && OutlineAfter(blocks[..i + 1]) == OutlineOf(blocks[i])
              && Sections(blocks[..i + 1]) == Sections(blocks[..i]) + 1
    ensures blocks[i].kind != HEADING ==>
              && Place(blocks[..i + 1])
                 == Place(blocks[..i]) + [Placed(blocks[i], OutlineAfter(blocks[..i]), Sections(blocks[..i]))]
              && OutlineAfter(blocks[..i + 1]) == OutlineAfter(blocks[..i])
              && Sections(blocks[..i + 1]) == Sections(blocks[..i])
  {
    assert blocks[..i + 1][..i] == blocks[..i];
  }

  // ---- The chunker -----------------------------------------------------------------------------

  /** Text blocks may wait together as long as they fit. */
  predicate Waiting(buffer: seq<Block>, target: nat) {
    && (forall i :: 0 <= i < |buffer| ==> IsText(buffer[i]))
    && (|buffer| > 1 ==> TotalChars(buffer) <= target)
  }

  lemma {:induction false} WaitLonger(outline: seq<string>, section: nat, buffer: seq<Block>, b: Block, target: nat)
    requires Waiting(buffer, target) && IsText(b)
    requires buffer != [] ==> TotalChars(buffer) + |b.content| <= target
    ensures Waiting(buffer + [b], target)
    ensures Members(Group(outline, section, buffer + [b]))
            == Members(Group(outline, section, buffer)) + [Placed(b, outline, section)]
  {
    assert (buffer + [b])[..|buffer|] == buffer;
  }

  /** A group of text that is chunked after all others. */
  lemma {:induction false} TextAdd(placed: seq<Placed>, groups: seq<Group>, chunks: seq<Chunk>, g: Group,
                                   target: nat, maxRows: nat)
    requires Chunked(placed, groups, chunks, target, maxRows) && g.blocks != [] && Waiting(g.blocks, target)
    requires groups != [] ==> Full(groups[|groups| - 1], g, target)
    ensures Chunked(placed + Members(g), groups + [g],
                    chunks + [Chunk(|chunks|, Text(Ids(g.blocks), g.outline, JoinContents(g.blocks)))], target, maxRows)
  {
    assert IsText(g.blocks[0]);
    TextBody(g, |chunks|, maxRows);
    ChunkedAdd(placed, groups, chunks, g, target, maxRows);
  }

  lemma {:induction false} TextBody(g: Group, start: nat, maxRows: nat)
    requires maxRows >= 1 && g.blocks != [] && IsText(g.blocks[0])
    ensures Numbered(start, BodiesOf(g, maxRows))
            == [Chunk(start, Text(Ids(g.blocks), g.outline, JoinContents(g.blocks)))]
  {
  }

  lemma {:induction false} NoMembers(placed: seq<Placed>, outline: seq<string>, section: nat)
    ensures placed + Members(Group(outline, section, [])) == placed
  {
    assert Members(Group(outline, section, [])) == [];
  }

  /** Where a chunker stands: what it has made of which blocks, and the text that waits. */
  datatype Stand = Stand(chunks: seq<Chunk>, outline: seq<string>, textBuffer: seq<Block>, flushed: seq<Placed>,
                         groups: seq<Group>, section: nat)

  /** What the chunker has taken so far: what is chunked, then what waits. */
  function TakenAt(st: Stand): seq<Placed> {
    st.flushed + Members(Group(st.outline, st.section, st.textBuffer))
  }

  predicate FullBefore(groups: seq<Group>, g: Group, target: nat)
    requires g.blocks != [] && forall k :: 0 <= k < |groups| ==> groups[k].blocks != []
  {
    groups != [] ==> Full(groups[|groups| - 1], g, target)
  }

  ghost predicate Sound(st: Stand, target: nat, maxRows: nat) {
    && Chunked(st.flushed, st.groups, st.chunks, target, maxRows) && Waiting(st.textBuffer, target)
    && (forall k :: 0 <= k < |st.groups| ==> st.groups[k].section <= st.section)
    && (st.textBuffer != [] ==> FullBefore(st.groups, Group(st.outline, st.section, st.textBuffer), target))
  }

  /** If no text waits, none of this section was chunked last. */
  ghost predicate ReadyAt(st: Stand, target: nat, maxRows: nat) {
    && Sound(st, target, maxRows)
    && (st.groups != [] && st.textBuffer == [] ==>
          var last := st.groups[|st.groups| - 1]; last.section < st.section || !IsText(last.blocks[0]))
  }

  /** The text that waits becomes a chunk. */
  function Flushed(st: Stand): Stand {
    if st.textBuffer == [] then st
    else
      var g := Group(st.outline, st.section, st.textBuffer);
      var body := Text(Ids(g.blocks), g.outline, JoinContents(g.blocks));
      st.(chunks := st.chunks + [Chunk(|st.chunks|, body)], textBuffer := [], flushed := st.flushed + Members(g),
          groups := st.groups + [g])
  }

  lemma {:induction false} FlushSound(st: Stand, target: nat, maxRows: nat)
    requires Sound(st, target, maxRows)
    ensures var now := Flushed(st);
            Sound(now, target, maxRows) && TakenAt(now) == now.flushed == TakenAt(st)
  {
    var g := Group(st.outline, st.section, st.textBuffer);
    NoMembers(st.flushed, st.outline, st.section);
    if st.textBuffer != [] {
      TextAdd(st.flushed, st.groups, st.chunks, g, target, maxRows);
      NoMembers(st.flushed + Members(g), st.outline, st.section);
    }
  }

  /** A heading ends what waits, and starts a section. */
  function Headed(st: Stand, heading: Block): Stand {
    Flushed(st).(outline := OutlineOf(heading), section := st.section + 1)
  }

  lemma {:induction false} HeadingSound(st: Stand, heading: Block, target: nat, maxRows: nat)
    requires Sound(st, target, maxRows)
    ensures ReadyAt(Headed(st, heading), target, maxRows) && TakenAt(Headed(st, heading)) == TakenAt(st)
  {
    FlushSound(st, target, maxRows);
    NoMembers(Flushed(st).flushed, OutlineOf(heading), st.section + 1);
  }

  lemma {:induction false} AloneSound(st: Stand, b: Block, target: nat, maxRows: nat)
    requires Sound(st, target, maxRows) && st.textBuffer == [] && b.kind != HEADING && !IsText(b)
    ensures var g := Group(st.outline, st.section, [b]);
            var now := st.(chunks := st.chunks + Numbered(|st.chunks|, BodiesOf(g, maxRows)),
                           flushed := st.flushed + Members(g), groups := st.groups + [g]);
            ReadyAt(now, target, maxRows) && TakenAt(now) == TakenAt(st) + [Placed(b, st.outline, st.section)]
  {
    var g := Group(st.outline, st.section, [b]);
    NoMembers(st.flushed, st.outline, st.section);
    NoMembers(st.flushed + Members(g), st.outline, st.section);
    assert Members(g) == [Placed(b, st.outline, st.section)];
    ChunkedAdd(st.flushed, st.groups, st.chunks, g, target, maxRows);
  }

  lemma {:induction false} TextSound(st: Stand, b: Block, target: nat, maxRows: nat)
    requires Sound(st, target, maxRows) && IsText(b)
    requires st.textBuffer != [] ==> TotalChars(st.textBuffer) + |b.content| <= target
    requires st.textBuffer == [] ==> FullBefore(st.groups, Group(st.outline, st.section, [b]), target)
    ensures var now := st.(textBuffer := st.textBuffer + [b]);
            ReadyAt(now, target, maxRows) && TakenAt(now) == TakenAt(st) + [Placed(b, st.outline, st.section)]
  {
    WaitLonger(st.outline, st.section, st.textBuffer, b, target);
    if st.textBuffer == [] {
      assert st.textBuffer + [b] == [b];
    }
  }

  /** A heading starts a section under its outline; any other block is taken under the outline in force. */
  predicate Took(st: Stand, now: Stand, b: Block) {
    if b.kind == HEADING then
      TakenAt(now) == TakenAt(st) && now.outline == OutlineOf(b) && now.section == st.section + 1
    else
      && TakenAt(now) == TakenAt(st) + [Placed(b, st.outline, st.section)]
      && now.outline == st.outline && now.section == st.section
  }

  /** The chunker has taken the first i blocks. */
  predicate HasTaken(st: Stand, blocks: seq<Block>, i: nat)
    requires i <= |blocks|
  {
    && TakenAt(st) == Place(blocks[..i])
    && st.outline == OutlineAfter(blocks[..i]) && st.section == Sections(blocks[..i])
  }

  lemma {:induction false} TakesNext(st: Stand, now: Stand, blocks: seq<Block>, i: nat)
    requires i < |blocks| && HasTaken(st, blocks, i) && Took(st, now, blocks[i])
    ensures HasTaken(now, blocks, i + 1)
  {
    PlaceStep(blocks, i);
  }

  class GenericStructuredChunker {
    const targetChars: nat
    const tableMaxRows: nat
    var chunks: seq<Chunk>
    var outline: seq<string>
    var textBuffer: seq<Block>
    ghost var flushed: seq<Placed>
    ghost var groups: seq<Group>
    ghost var section: nat

    ghost function State(): Stand
      reads this
    {
      Stand(chunks, outline, textBuffer, flushed, groups, section)
    }

    ghost predicate Valid()
      reads this
    {
      Sound(State(), targetChars, tableMaxRows)
    }

    ghost predicate Ready()
      reads this
    {
      ReadyAt(State(), targetChars, tableMaxRows)
    }

    ghost function Taken(): seq<Placed>
      reads this
    {
      TakenAt(State())
    }

    constructor (target: int, maxRows: int)
      ensures targetChars == (if target < 128 then 128 else target)
      ensures tableMaxRows == if maxRows < 1 then 1 else maxRows
      ensures Ready() && Taken() == [] && outline == [] && section == 0
    {
      targetChars := if target < 128 then 128 else target;
      tableMaxRows := if maxRows < 1 then 1 else maxRows;
      chunks, outline, textBuffer, flushed, groups, section := [], [], [], [], [], 0;
    }

    method Record(body: Body)
      modifies this`chunks
      ensures chunks == old(chunks) + [Chunk(|old(chunks)|, body)]
    {
      chunks := chunks + [Chunk(|chunks|, body)];
    }

    method FlushText()
      requires Valid()
      modifies this`chunks, this`textBuffer, this`flushed, this`groups
      ensures Valid() && textBuffer == [] && Taken() == flushed == old(Taken())
      ensures State() == Flushed(old(State()))
    {
      FlushSound(State(), targetChars, tableMaxRows);
      if textBuffer == [] {
        return;
      }
      ghost var g := Group(outline, section, textBuffer);
      Record(Text(Ids(textBuffer), outline, JoinContents(textBuffer)));
      flushed, groups := flushed + Members(g), groups + [g];
      textBuffer := [];
    }

    /** The row batches of a table. */
    method AddTable(b: Block)
      requires tableMaxRows >= 1
      modifies this`chunks
      ensures chunks == old(chunks) + Numbered(|old(chunks)|, Pieces(b, outline, tableMaxRows))
    {
      if b.rows == [] {
        Record(Piece(b.id, Own(b, outline), [], 1, 0));
        return;
      }
      var start := 0;
      ghost var made: seq<Body> := [];
      while start < |b.rows|
        invariant 0 <= start <= |b.rows|
        invariant Pieces(b, outline, tableMaxRows) == made + PiecesFrom(b, outline, start, tableMaxRows)
        invariant chunks == old(chunks) + Numbered(|old(chunks)|, made)
      {
        var end := BatchEnd(start, |b.rows|, tableMaxRows);
        var piece := Piece(b.id, Own(b, outline), b.rows[start..end], start + 1, end);
        NumberedOne(|old(chunks)|, made, piece);
        PiecesStep(b, outline, start, tableMaxRows, made);
        Record(piece);
        made := made + [piece];
        start := end;
      }
    }

    /** A table, image or code block is chunked on its own. */
    method TakeAlone(b: Block)
      requires Valid() && b.kind != HEADING && !IsText(b) && textBuffer == []
      modifies this`chunks, this`flushed, this`groups
      ensures Ready() && Taken() == old(Taken()) + [Placed(b, outline, section)]
    {
      AloneSound(State(), b, targetChars, tableMaxRows);
      ghost var g := Group(outline, section, [b]);
      if b.kind == TABLE {
        AddTable(b);
      } else {
        Record(Single(b.id, b.kind, Own(b, outline), b.content));
      }
      flushed, groups := flushed + Members(g), groups + [g];
    }

    method TakeText(b: Block)
      requires Ready() && IsText(b)
      modifies this
      ensures Ready() && outline == old(outline) && section == old(section)
      ensures Taken() == old(Taken()) + [Placed(b, outline, section)]
    {
      if textBuffer != [] && TotalChars(textBuffer) + |b.content| > targetChars {
        FlushText();
      }
      TextSound(State(), b, targetChars, tableMaxRows);
      textBuffer := textBuffer + [b];
    }

    method TakeHeading(b: Block)
      requires Valid()
      modifies this
      ensures State() == Headed(old(State()), b)
    {
      FlushText();
      outline, section := OutlineOf(b), section + 1;
    }

    /** The body of the loop over blocks. */
    method AddBlock(b: Block)
      requires Ready()
      modifies this
      ensures Ready() && Took(old(State()), State(), b)
    {
      if b.kind == HEADING {
        HeadingSound(State(), b, targetChars, tableMaxRows);
        TakeHeading(b);
      } else if b.kind == TABLE || b.kind == IMAGE || b.kind == CODE {
        FlushText();
        TakeAlone(b);
      } else {
        TakeText(b);
      }
    }
  }

  /** Chunking a whole document. */
  method ChunkDocument(blocks: seq<Block>, target: int, maxRows: int)
    returns (chunks: seq<Chunk>, ghost groups: seq<Group>)
    ensures Chunked(Place(blocks), groups, chunks,
                    if target < 128 then 128 else target, if maxRows < 1 then 1 else maxRows)
  {
    var c := new GenericStructuredChunker(target, maxRows);
    for i := 0 to |blocks|
      invariant fresh(c) && c.Ready() && HasTaken(c.State(), blocks, i)
    {
      ghost var before := c.State();
      c.AddBlock(blocks[i]);
      TakesNext(before, c.State(), blocks, i);
    }
    assert blocks[..|blocks|] == blocks;
    c.FlushText();
    chunks, groups := c.chunks, c.groups;
  }

  // ---- What the chunks keep of the document ----------------------------------------------------

  /** The ids of the blocks that are not headings. */
  function KeptIds(blocks: seq<Block>): seq<string> {
    if blocks == [] then []
    else
      var last := blocks[|blocks| - 1];
      KeptIds(blocks[..|blocks| - 1]) + if last.kind == HEADING then [] else [last.id]
  }

  /** The ids a body names, where the later pieces of a table repeat its first. */
  function FirstIds(body: Body): seq<string> {
    match body
    case Text(ids, _, _) => ids
    case Piece(id, _, _, rowStart, _) => if rowStart > 1 then [] else [id]
    case Single(id, _, _, _) => [id]
  }

  function AllFirstIds(bodies: seq<Body>): seq<string> {
    if bodies == [] then [] else FirstIds(bodies[0]) + AllFirstIds(bodies[1..])
  }

  function PlacedIds(placed: seq<Placed>): seq<string> {
    seq(|placed|, i requires 0 <= i < |placed| => placed[i].block.id)
  }

  function BodiesIn(chunks: seq<Chunk>): seq<Body> {
    seq(|chunks|, i requires 0 <= i < |chunks| => chunks[i].body)
  }

  lemma {:induction false} PlaceKeepsIds(blocks: seq<Block>)
    ensures PlacedIds(Place(blocks)) == KeptIds(blocks)
  {
    if blocks != [] {
      PlaceKeepsIds(blocks[..|blocks| - 1]);
    }
  }

  lemma {:induction false} FirstIdsAppend(a: seq<Body>, b: seq<Body>)
    ensures AllFirstIds(a + b) == AllFirstIds(a) + AllFirstIds(b)
  {
    if a == [] {
      assert a + b == b;
    } else {
      assert (a + b)[1..] == a[1..] + b;
      FirstIdsAppend(a[1..], b);
    }
  }

  lemma {:induction false} LaterPiecesAddNoId(b: Block, outline: seq<string>, from: nat, maxRows: nat)
    requires maxRows >= 1 && 0 < from <= |b.rows|
    ensures AllFirstIds(PiecesFrom(b, outline, from, maxRows)) == []
    decreases |b.rows| - from
  {
    if from < |b.rows| {
      LaterPiecesAddNoId(b, outline, BatchEnd(from, |b.rows|, maxRows), maxRows);
    }
  }

  /** A table of any size adds its id once. */
  lemma {:induction false} TableAddsItsId(b: Block, outline: seq<string>, maxRows: nat)
    requires maxRows >= 1
    ensures AllFirstIds(Pieces(b, outline, maxRows)) == [b.id]
  {
    if b.rows != [] {
      LaterPiecesAddNoId(b, outline, BatchEnd(0, |b.rows|, maxRows), maxRows);
    }
  }

  lemma {:induction false} GroupIds(g: Group, target: nat, maxRows: nat)
    requires maxRows >= 1 && GroupOk(g, target)
    ensures AllFirstIds(BodiesOf(g, maxRows)) == PlacedIds(Members(g))
  {
    if g.blocks[0].kind == TABLE {
      TableAddsItsId(g.blocks[0], g.outline, maxRows);
    }
  }

  lemma {:induction false} PlacedIdsAppend(a: seq<Placed>, b: seq<Placed>)
    ensures PlacedIds(a + b) == PlacedIds(a) + PlacedIds(b)
  {
  }

  lemma {:induction false} GroupsIds(groups: seq<Group>, target: nat, maxRows: nat)
    requires maxRows >= 1 && forall k :: 0 <= k < |groups| ==> GroupOk(groups[k], target) && groups[k].blocks != []
    ensures AllFirstIds(Bodies(groups, maxRows)) == PlacedIds(AllMembers(groups))
  {
    if groups != [] {
      var front, g := groups[..|groups| - 1], groups[|groups| - 1];
      GroupsIds(front, target, maxRows);
      GroupIds(g, target, maxRows);
      FirstIdsAppend(Bodies(front, maxRows), BodiesOf(g, maxRows));
      PlacedIdsAppend(AllMembers(front), Members(g));
    }
  }

  /** The source ids of the chunks list every block but the headings, once and in order, and every chunk knows its
      place. */
  lemma {:induction false} EveryBlockOnce(blocks: seq<Block>, groups: seq<Group>, chunks: seq<Chunk>, target: nat,
                                          maxRows: nat)
    requires Chunked(Place(blocks), groups, chunks, target, maxRows)
    ensures AllFirstIds(BodiesIn(chunks)) == KeptIds(blocks)
    ensures forall i :: 0 <= i < |chunks| ==> chunks[i].index == i
  {
    GroupsIds(groups, target, maxRows);
    PlaceKeepsIds(blocks);
    assert BodiesIn(chunks) == Bodies(groups, maxRows);
  }

  function JoinRows(pieces: seq<Body>): seq<Row> {
    if pieces == [] then [] else (if pieces[0].Piece? then pieces[0].rows else []) + JoinRows(pieces[1..])
  }

  /** Pieces of one table that follow each other from row `from` to row `to`, all full but the last. */
  predicate Tiles(pieces: seq<Body>, from: nat, to: nat, maxRows: nat) {
    if pieces == [] then from == to
    else
      && pieces[0].Piece? && 1 <= |pieces[0].rows| <= maxRows
      && pieces[0].rowStart == from + 1 && pieces[0].rowEnd == from + |pieces[0].rows|
      && (|pieces| > 1 ==> |pieces[0].rows| == maxRows)
      && Tiles(pieces[1..], pieces[0].rowEnd, to, maxRows)
  }

  lemma {:induction false} TilesPush(first: Body, rest: seq<Body>, from: nat, to: nat, maxRows: nat)
    requires first.Piece? && 1 <= |first.rows| <= maxRows && first.rowStart == from + 1
    requires first.rowEnd == from + |first.rows|
    requires Tiles(rest, first.rowEnd, to, maxRows) && (rest != [] ==> |first.rows| == maxRows)
    ensures Tiles([first] + rest, from, to, maxRows) && JoinRows([first] + rest) == first.rows + JoinRows(rest)
  {
    assert ([first] + rest)[1..] == rest;
  }

  lemma {:induction false} PiecesTileFrom(b: Block, outline: seq<string>, from: nat, maxRows: nat)
    requires maxRows >= 1 && from <= |b.rows|
    ensures Tiles(PiecesFrom(b, outline, from, maxRows), from, |b.rows|, maxRows)
    ensures JoinRows(PiecesFrom(b, outline, from, maxRows)) == b.rows[from..]
    decreases |b.rows| - from
  {
    if from < |b.rows| {
      var end := BatchEnd(from, |b.rows|, maxRows);
      var first := Piece(b.id, Own(b, outline), b.rows[from..end], from + 1, end);
      var rest := PiecesFrom(b, outline, end, maxRows);
      PiecesTileFrom(b, outline, end, maxRows);
      TilesPush(first, rest, from, |b.rows|, maxRows);
      assert b.rows[from..] == b.rows[from..end] + b.rows[end..];
    }
  }

  /** Cutting a table loses no row and repeats none; the row numbers say which rows a piece holds. */
  lemma {:induction false} TableIsTiled(b: Block, outline: seq<string>, maxRows: nat)
    requires maxRows >= 1 && b.rows != []
    ensures var pieces := Pieces(b, outline, maxRows);
            Tiles(pieces, 0, |b.rows|, maxRows) && JoinRows(pieces) == b.rows
  {
    PiecesTileFrom(b, outline, 0, maxRows);
  }

  lemma {:induction false} JoinedLength(blocks: seq<Block>)
    requires blocks != []
    ensures |JoinContents(blocks)| <= TotalChars(blocks) + 2 * (|blocks| - 1)
  {
    if |blocks| > 1 {
      JoinedLength(blocks[..|blocks| - 1]);
    }
  }

  lemma {:induction false} BodyOfAGroup(groups: seq<Group>, maxRows: nat, c: nat) returns (k: nat)
    requires maxRows >= 1 && (forall k :: 0 <= k < |groups| ==> groups[k].blocks != []) && c < |Bodies(groups, maxRows)|
    ensures k < |groups| && Bodies(groups, maxRows)[c] in BodiesOf(groups[k], maxRows)
  {
    var n := |groups| - 1;
    if c < |Bodies(groups[..n], maxRows)| {
      k := BodyOfAGroup(groups[..n], maxRows, c);
    } else {
      k := n;
    }
  }

  /** A text chunk is one block, or its blocks hold at most `target` characters. */
  lemma {:induction false} TextChunksFit(blocks: seq<Block>, groups: seq<Group>, chunks: seq<Chunk>, target: nat,
                                         maxRows: nat, c: nat)
    requires Chunked(Place(blocks), groups, chunks, target, maxRows) && c < |chunks| && chunks[c].body.Text?
    ensures |chunks[c].body.ids| == 1 || |chunks[c].body.content| <= target + 2 * (|chunks[c].body.ids| - 1)
  {
    var k := BodyOfAGroup(groups, maxRows, c);
    assert chunks[c].body in BodiesOf(groups[k], maxRows);
    if |groups[k].blocks| > 1 {
      assert GroupOk(groups[k], target) && IsText(groups[k].blocks[0]);
      JoinedLength(groups[k].blocks);
    } else {
      ShortGroup(groups[k], maxRows, chunks[c].body);
    }
  }

  lemma {:induction false} PiecesArePieces(b: Block, outline: seq<string>, from: nat, maxRows: nat, body: Body)
    requires maxRows >= 1 && from <= |b.rows| && body in PiecesFrom(b, outline, from, maxRows)
    ensures body.Piece?
    decreases |b.rows| - from
  {
    assert from < |b.rows|;
    var end := BatchEnd(from, |b.rows|, maxRows);
    if body in PiecesFrom(b, outline, end, maxRows) {
      PiecesArePieces(b, outline, end, maxRows, body);
    }
  }

  lemma {:induction false} ShortGroup(g: Group, maxRows: nat, body: Body)
    requires maxRows >= 1 && |g.blocks| == 1 && body in BodiesOf(g, maxRows) && body.Text?
    ensures |body.ids| == 1
  {
    var b := g.blocks[0];
    if !IsText(b) && b.kind == TABLE && b.rows != [] && |body.ids| != 1 {
      PiecesArePieces(b, g.outline, 0, maxRows, body);
    }
  }
}
