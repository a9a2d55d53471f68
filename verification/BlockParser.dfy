/** The block-aware parser: one pass over the lines of a document, with at most one block open at a time. */
module BlockParser {

  /** What the regular expressions say of a line: any predicates will do. */
  datatype Rules = Rules(
    fence: string -> bool,
    row: string -> bool,
    separator: string -> bool,
    blank: string -> bool,
    heading: string -> bool,
    atomic: string -> bool,
    item: string -> bool)

  datatype Kind = HEADING | TABLE | CODE | LIST | IMAGE | PARA

  datatype Block = Block(kind: Kind, start: nat, end: nat)

  /** The first newline at or after pos, or the end of the text. */
  function LineEnd(text: string, pos: nat): (e: nat)
    requires pos <= |text|
    ensures pos <= e <= |text| && (forall k :: pos <= k < e ==> text[k] != '\n') && (e < |text| ==> text[e] == '\n')
    decreases |text| - pos
  {
    if pos == |text| || text[pos] == '\n' then pos else LineEnd(text, pos + 1)
  }

  function Line(text: string, pos: nat): string
    requires pos <= |text|
  {
    text[pos..LineEnd(text, pos)]
  }

  /** Where the line after the one at pos starts. */
  function NextLine(text: string, pos: nat): (e: nat)
    requires pos <= |text|
    ensures pos <= e <= |text| && (pos < |text| ==> pos < e)
  {
    var e := LineEnd(text, pos);
    if e < |text| then e + 1 else e
  }

  predicate LineStart(text: string, p: nat) {
    p <= |text| && (p == 0 || p == |text| || text[p - 1] == '\n')
  }

  /** p starts a line in lo..hi. */
  predicate StartsIn(text: string, p: nat, lo: nat, hi: nat) {
    lo <= p < hi && p < |text| && LineStart(text, p)
  }

  lemma {:induction false} NextLineStarts(text: string, pos: nat)
    requires pos < |text| && LineStart(text, pos)
    ensures LineStart(text, NextLine(text, pos))
    ensures forall p: nat :: StartsIn(text, p, pos, NextLine(text, pos)) ==> p == pos
  {
  }

  /** A line that continues a paragraph: no rule claims it. */
  predicate Plain(r: Rules, line: string) {
    !r.fence(line) && !r.row(line) && !r.separator(line) && !r.blank(line) && !r.heading(line) && !r.atomic(line)
    && !r.item(line)
  }

  datatype Opening = Nothing | Opens(kind: Kind)

  /** What a line starts if no block is open: the tests in their order. */
  function OpeningOf(r: Rules, line: string): Opening {
    if r.fence(line) then Opens(CODE)
    else if r.row(line) || r.separator(line) then Opens(TABLE)
    else if r.blank(line) then Nothing
    else if r.heading(line) then Opens(HEADING)
    else if r.atomic(line) then Opens(IMAGE)
    else if r.item(line) then Opens(LIST)
    else Opens(PARA)
  }

  /** The kind that a rule stands for; separators are lines of tables, and blank lines stand for nothing. */
  predicate Claims(r: Rules, line: string, opening: Opening) {
    match opening
    case Nothing => r.blank(line)
    case Opens(CODE) => r.fence(line)
    case Opens(TABLE) => r.row(line) || r.separator(line)
    case Opens(HEADING) => r.heading(line)
    case Opens(IMAGE) => r.atomic(line)
    case Opens(LIST) => r.item(line)
    case Opens(PARA) => Plain(r, line)
  }

  /** A line opens a block of a kind that claims it, and if there is only one, of that. */
  lemma {:induction false} OpensWhatClaims(r: Rules, line: string, opening: Opening)
    ensures Claims(r, line, OpeningOf(r, line))
    ensures Claims(r, line, opening) && (forall other :: Claims(r, line, other) ==> other == opening)
            ==> OpeningOf(r, line) == opening
  {
    assert Claims(r, line, OpeningOf(r, line));
  }

  /** Every line from lo to hi satisfies the test of its kind of block. */
  ghost predicate LinesAre(text: string, r: Rules, kind: Kind, lo: nat, hi: nat) {
    forall p: nat :: StartsIn(text, p, lo, hi) ==> Belongs(r, kind, Line(text, p))
  }

  /** A line that an open block goes on with. */
  predicate Belongs(r: Rules, kind: Kind, line: string) {
    match kind
    case CODE => !r.fence(line)
    case TABLE => !r.fence(line) && (r.row(line) || r.blank(line))
    case LIST => r.item(line) || r.blank(line)
    case PARA => Plain(r, line)
    case _ => false
  }

  /** The block ends with the text, or in front of a line that it does not go on with. */
  predicate Maximal(text: string, r: Rules, b: Block) {
    b.end <= |text| && (b.end == |text| || !Belongs(r, b.kind, Line(text, b.end)))
  }

  predicate ItemAt(text: string, r: Rules, p: nat) {
    p < |text| && r.item(Line(text, p))
  }

  /** The block ends with a blank line that no item follows. */
  ghost predicate EndsBlank(text: string, r: Rules, b: Block) {
    exists p: nat :: StartsIn(text, p, b.start, b.end) && NextLine(text, p) == b.end && r.blank(Line(text, p))
                     && !ItemAt(text, r, b.end)
  }

  /** An item follows on the line that starts at p, if that is blank. */
  predicate ItemAfter(text: string, r: Rules, p: nat)
    requires p <= |text|
  {
    r.blank(Line(text, p)) ==> NextLine(text, p) < |text| && r.item(Line(text, NextLine(text, p)))
  }

  /** Within lo..hi a blank line stands alone between items; only the last line may be blank with no item behind it. */
  ghost predicate SingleBlanks(text: string, r: Rules, lo: nat, hi: nat) {
    forall p: nat :: StartsIn(text, p, lo, hi) ==> NextLine(text, p) == hi || ItemAfter(text, r, p)
  }

  /** The code between the fences of a block ends at `last`, with the closing fence or with the text. */
  ghost predicate RunsTo(text: string, r: Rules, first: nat, last: nat, b: Block) {
    && first <= last <= b.end && LinesAre(text, r, CODE, first, last)
    && ((last == b.end == |text|) || Closes(text, r, last, b))
  }

  predicate Closes(text: string, r: Rules, last: nat, b: Block) {
    StartsIn(text, last, b.start, b.end) && r.fence(Line(text, last)) && b.end == NextLine(text, last)
  }

  /** The lines of a block, and where it ends. A code block runs to the next fence or to the end of the text; tables and
      paragraphs as far as they can; a list, too, unless a blank line ends it that no item follows; headings and images
      are single lines. */
  ghost predicate KindOk(text: string, r: Rules, b: Block)
    requires b.start < b.end <= |text|
  {
    match b.kind
    case CODE =>
      exists last: nat :: RunsTo(text, r, NextLine(text, b.start), last, b)
    case TABLE =>
      LinesAre(text, r, TABLE, NextLine(text, b.start), b.end) && Maximal(text, r, b)
    case LIST =>
      && LinesAre(text, r, LIST, b.start, b.end) && SingleBlanks(text, r, b.start, b.end)
      && (Maximal(text, r, b) || EndsBlank(text, r, b))
    case PARA =>
      LinesAre(text, r, PARA, b.start, b.end) && Maximal(text, r, b)
    case _ =>
      b.end == NextLine(text, b.start)
  }

  /** Blocks are non-empty, on line boundaries, and of the kind that their first line opens. */
  ghost predicate BlockOk(text: string, r: Rules, b: Block) {
    && b.start < b.end <= |text| && LineStart(text, b.start) && LineStart(text, b.end)
    && OpeningOf(r, Line(text, b.start)) == Opens(b.kind) && KindOk(text, r, b)
  }

  ghost predicate InOrder(blocks: seq<Block>) {
    forall i, j :: 0 <= i < j < |blocks| ==> blocks[i].end <= blocks[j].start
  }

  predicate Holds(b: Block, p: nat) {
    b.start <= p < b.end
  }

  /** Every line below `upTo` that opens a block of its own is in one. */
  ghost predicate Covered(text: string, r: Rules, blocks: seq<Block>, upTo: nat) {
    forall p: nat :: StartsIn(text, p, 0, upTo) && OpeningOf(r, Line(text, p)).Opens? ==>
      exists i :: 0 <= i < |blocks| && Holds(blocks[i], p)
  }

  ghost predicate Parsed(text: string, r: Rules, blocks: seq<Block>, upTo: nat) {
    && (forall i :: 0 <= i < |blocks| ==> BlockOk(text, r, blocks[i]) && blocks[i].end <= upTo)
    && InOrder(blocks) && Covered(text, r, blocks, upTo)
  }

  lemma {:induction false} CoveredAdd(text: string, r: Rules, blocks: seq<Block>, b: Block)
    requires Covered(text, r, blocks, b.start)
    ensures Covered(text, r, blocks + [b], b.end)
  {
    var blocks' := blocks + [b];
    forall p: nat | StartsIn(text, p, 0, b.end) && OpeningOf(r, Line(text, p)).Opens?
      ensures exists i :: 0 <= i < |blocks'| && Holds(blocks'[i], p)
    {
      if p < b.start {
        assert StartsIn(text, p, 0, b.start);
        var i :| 0 <= i < |blocks| && Holds(blocks[i], p);
        assert Holds(blocks'[i], p);
      } else {
        assert Holds(blocks'[|blocks|], p);
      }
    }
  }

  lemma {:induction false} InOrderAdd(blocks: seq<Block>, b: Block)
    requires InOrder(blocks) && forall i :: 0 <= i < |blocks| ==> blocks[i].end <= b.start
    ensures InOrder(blocks + [b])
  {
  }

  lemma {:induction false} Append(text: string, r: Rules, blocks: seq<Block>, b: Block)
    requires Parsed(text, r, blocks, b.start) && BlockOk(text, r, b)
    ensures Parsed(text, r, blocks + [b], b.end)
  {
    CoveredAdd(text, r, blocks, b);
    InOrderAdd(blocks, b);
  }

  /** A line that stays outside all blocks opens none. */
  lemma {:induction false} SkipBlank(text: string, r: Rules, blocks: seq<Block>, pos: nat)
    requires Parsed(text, r, blocks, pos) && pos < |text| && LineStart(text, pos)
    requires OpeningOf(r, Line(text, pos)).Nothing?
    ensures Parsed(text, r, blocks, NextLine(text, pos))
  {
    NextLineStarts(text, pos);
  }

  lemma {:induction false} ExtendLines(text: string, r: Rules, kind: Kind, lo: nat, pos: nat)
    requires LinesAre(text, r, kind, lo, pos) && pos < |text| && LineStart(text, pos)
    requires Belongs(r, kind, Line(text, pos))
    ensures LinesAre(text, r, kind, lo, NextLine(text, pos))
  {
    NextLineStarts(text, pos);
  }

  // The parser.

  /** Which block is open, and where it started. */
  datatype Mode = Idle | InPara(from: nat) | InTable(from: nat) | InCode(from: nat)

  function ModeOf(inPara: bool, paraStart: int, inCode: bool, codeStart: int, inTable: bool, tableStart: int): Mode {
    if inCode && codeStart >= 0 then InCode(codeStart)
    else if inTable && tableStart >= 0 then InTable(tableStart)
    else if inPara && paraStart >= 0 then InPara(paraStart)
    else Idle
  }

  predicate Exclusive(inPara: bool, inCode: bool, inTable: bool) {
    !(inPara && inCode) && !(inPara && inTable) && !(inCode && inTable)
  }

  /** The lines of the open block so far. */
  ghost predicate OpenOk(text: string, r: Rules, blocks: seq<Block>, pos: nat, mode: Mode)
    requires pos <= |text|
  {
    match mode
    case Idle => true
    case InPara(from) =>
      from < pos && LineStart(text, from) && LinesAre(text, r, PARA, from, pos)
      && OpeningOf(r, Line(text, from)) == Opens(PARA)
    case InTable(from) =>
      from < pos && LineStart(text, from) && NextLine(text, from) <= pos
      && OpeningOf(r, Line(text, from)) == Opens(TABLE) && LinesAre(text, r, TABLE, NextLine(text, from), pos)
    case InCode(from) =>
      from < pos && LineStart(text, from) && NextLine(text, from) <= pos
      && OpeningOf(r, Line(text, from)) == Opens(CODE) && LinesAre(text, r, CODE, NextLine(text, from), pos)
  }

  function OwedFrom(mode: Mode, pos: nat): nat {
    if mode.Idle? then pos else mode.from
  }

  /** Blocks so far, up to the open block or the current line. */
  ghost predicate State(text: string, r: Rules, blocks: seq<Block>, pos: nat, mode: Mode) {
    && LineStart(text, pos) && OpenOk(text, r, blocks, pos, mode)
    && Parsed(text, r, blocks, OwedFrom(mode, pos))
  }

  /** Everything before the line at pos is in closed blocks; the line itself is about to be taken. */
  ghost predicate Closed(text: string, r: Rules, blocks: seq<Block>, pos: nat) {
    pos < |text| && LineStart(text, pos) && Parsed(text, r, blocks, pos)
  }

  lemma {:induction false} Close(text: string, r: Rules, blocks: seq<Block>, pos: nat, mode: Mode) returns (b: Block)
    requires State(text, r, blocks, pos, mode) && (mode.InPara? || mode.InTable?)
    requires pos < |text| ==> !Belongs(r, if mode.InPara? then PARA else TABLE, Line(text, pos))
    ensures b == Block(if mode.InPara? then PARA else TABLE, mode.from, pos)
    ensures Parsed(text, r, blocks + [b], pos)
  {
    b := Block(if mode.InPara? then PARA else TABLE, mode.from, pos);
    Append(text, r, blocks, b);
  }

  lemma {:induction false} OpenAt(text: string, r: Rules, blocks: seq<Block>, pos: nat, mode: Mode)
    requires Closed(text, r, blocks, pos) && (mode == InCode(pos) || mode == InTable(pos))
    requires OpeningOf(r, Line(text, pos)) == Opens(if mode.InCode? then CODE else TABLE)
    ensures State(text, r, blocks, NextLine(text, pos), mode)
  {
    NextLineStarts(text, pos);
  }

  lemma {:induction false} OpenPara(text: string, r: Rules, blocks: seq<Block>, pos: nat)
    requires State(text, r, blocks, pos, Idle) && pos < |text| && Plain(r, Line(text, pos))
    ensures State(text, r, blocks, NextLine(text, pos), InPara(pos))
  {
    NextLineStarts(text, pos);
  }

  lemma {:induction false} CloseCode(text: string, r: Rules, blocks: seq<Block>, pos: nat, mode: Mode)
    requires State(text, r, blocks, pos, mode) && mode.InCode? && pos < |text| && r.fence(Line(text, pos))
    ensures State(text, r, blocks + [Block(CODE, mode.from, NextLine(text, pos))], NextLine(text, pos), Idle)
  {
    NextLineStarts(text, pos);
    var b := Block(CODE, mode.from, NextLine(text, pos));
    assert Closes(text, r, pos, b);
    assert RunsTo(text, r, NextLine(text, b.start), pos, b);
    Append(text, r, blocks, b);
  }

  lemma {:induction false} Continue(text: string, r: Rules, blocks: seq<Block>, pos: nat, mode: Mode)
    requires State(text, r, blocks, pos, mode) && pos < |text| && !mode.Idle?
    requires Belongs(r, if mode.InPara? then PARA else if mode.InTable? then TABLE else CODE, Line(text, pos))
    ensures State(text, r, blocks, NextLine(text, pos), mode)
  {
    NextLineStarts(text, pos);
    match mode
    case InPara(from) => ExtendLines(text, r, PARA, from, pos);
    case InTable(from) => ExtendLines(text, r, TABLE, NextLine(text, from), pos);
    case InCode(from) => ExtendLines(text, r, CODE, NextLine(text, from), pos);
  }

  lemma {:induction false} TakeBlank(text: string, r: Rules, blocks: seq<Block>, pos: nat)
    requires Closed(text, r, blocks, pos) && OpeningOf(r, Line(text, pos)).Nothing?
    ensures State(text, r, blocks, NextLine(text, pos), Idle)
  {
    NextLineStarts(text, pos);
    SkipBlank(text, r, blocks, pos);
  }

  /** A whole block other than a paragraph starts at pos. */
  lemma {:induction false} TakeBlock(text: string, r: Rules, blocks: seq<Block>, b: Block)
    requires Closed(text, r, blocks, b.start) && BlockOk(text, r, b) && b.kind != PARA
    ensures State(text, r, blocks + [b], b.end, Idle)
  {
    Append(text, r, blocks, b);
  }

  /** So far every blank line of a list has an item behind it. */
  ghost predicate BlanksLead(text: string, r: Rules, lo: nat, hi: nat) {
    forall p: nat :: StartsIn(text, p, lo, hi) ==> ItemAfter(text, r, p)
  }

  lemma {:induction false} BlanksStep(text: string, r: Rules, lo: nat, pos: nat)
    requires BlanksLead(text, r, lo, pos) && pos < |text| && LineStart(text, pos)
    ensures SingleBlanks(text, r, lo, NextLine(text, pos))
    ensures ItemAfter(text, r, pos) ==> BlanksLead(text, r, lo, NextLine(text, pos))
  {
    var next := NextLine(text, pos);
    NextLineStarts(text, pos);
    forall p: nat | StartsIn(text, p, lo, next) && p != pos ensures ItemAfter(text, r, p) {
      assert StartsIn(text, p, lo, pos) || StartsIn(text, p, pos, next);
    }
  }

  /** Items from pos on, across single blank lines that another item follows; a blank line that ends the list goes with
      it. */
  method TakeList(text: string, r: Rules, start: nat) returns (pos: nat)
    requires start < |text| && LineStart(text, start) && r.item(Line(text, start)) && !r.blank(Line(text, start))
    ensures start < pos <= |text| && LineStart(text, pos) && LinesAre(text, r, LIST, start, pos)
    ensures SingleBlanks(text, r, start, pos)
    ensures Maximal(text, r, Block(LIST, start, pos)) || EndsBlank(text, r, Block(LIST, start, pos))
  {
    pos := start;
    while pos < |text|
      invariant start <= pos <= |text| && LineStart(text, pos) && LinesAre(text, r, LIST, start, pos)
      invariant pos == start ==> r.item(Line(text, pos)) && !r.blank(Line(text, pos))
      invariant BlanksLead(text, r, start, pos)
    {
      NextLineStarts(text, pos);
      BlanksStep(text, r, start, pos);
      var line := Line(text, pos);
      if r.blank(line) {
        ExtendLines(text, r, LIST, start, pos);
        assert StartsIn(text, pos, start, NextLine(text, pos));
        pos := NextLine(text, pos);
        if pos < |text| && r.item(Line(text, pos)) {
          continue;
        } else {
          assert EndsBlank(text, r, Block(LIST, start, pos));
          break;
        }
      }
      if r.item(line) {
        ExtendLines(text, r, LIST, start, pos);
        pos := NextLine(text, pos);
      } else {
        break;
      }
    }
  }

  /** `if in_para: blocks.append(PARA)`. */
  method ClosePara(text: string, r: Rules, blocks: seq<Block>, pos: nat, inPara: bool, paraStart: int)
    returns (blocks': seq<Block>)
    requires pos < |text| && (inPara ==> paraStart >= 0)
    requires State(text, r, blocks, pos, ModeOf(inPara, paraStart, false, -1, false, -1))
    requires inPara ==> !Plain(r, Line(text, pos))
    ensures blocks' == if inPara then blocks + [Block(PARA, paraStart, pos)] else blocks
    ensures Closed(text, r, blocks', pos)
  {
    blocks' := blocks;
    if inPara {
      var _ := Close(text, r, blocks, pos, InPara(paraStart));
      blocks' := blocks + [Block(PARA, paraStart, pos)];
    }
  }

  /** The line at pos is no fence, and no code block or table is open. */
  method TakeFree(text: string, r: Rules, blocks: seq<Block>, pos: nat, inPara: bool, paraStart: int)
    returns (blocks': seq<Block>, pos': nat, inPara': bool, paraStart': int, inTable': bool)
    requires pos < |text| && (inPara ==> paraStart >= 0) && !r.fence(Line(text, pos))
    requires State(text, r, blocks, pos, ModeOf(inPara, paraStart, false, -1, false, -1))
    ensures pos < pos' <= |text| && !(inPara' && inTable') && (inPara' ==> paraStart' >= 0)
    ensures State(text, r, blocks', pos', ModeOf(inPara', paraStart', false, -1, inTable', pos))
  {
    var next, line := NextLine(text, pos), Line(text, pos);
    NextLineStarts(text, pos);
    blocks', pos', inPara', paraStart', inTable' := blocks, next, inPara, paraStart, false;
    if r.row(line) || r.separator(line) {
      blocks' := ClosePara(text, r, blocks, pos, inPara, paraStart);
      OpenAt(text, r, blocks', pos, InTable(pos));
      inPara', inTable' := false, true;
    } else if r.blank(line) {
      blocks' := ClosePara(text, r, blocks, pos, inPara, paraStart);
      TakeBlank(text, r, blocks', pos);
      inPara' := false;
    } else if r.heading(line) {
      blocks' := ClosePara(text, r, blocks, pos, inPara, paraStart);
      TakeBlock(text, r, blocks', Block(HEADING, pos, next));
      inPara', blocks' := false, blocks' + [Block(HEADING, pos, next)];
    } else if r.atomic(line) {
      blocks' := ClosePara(text, r, blocks, pos, inPara, paraStart);
      TakeBlock(text, r, blocks', Block(IMAGE, pos, next));
      inPara', blocks' := false, blocks' + [Block(IMAGE, pos, next)];
    } else if r.item(line) {
      blocks' := ClosePara(text, r, blocks, pos, inPara, paraStart);
      pos' := TakeList(text, r, pos);
      TakeBlock(text, r, blocks', Block(LIST, pos, pos'));
      inPara', blocks' := false, blocks' + [Block(LIST, pos, pos')];
    } else if inPara {
      Continue(text, r, blocks, pos, InPara(paraStart));
    } else {
      OpenPara(text, r, blocks, pos);
      inPara', paraStart' := true, pos;
    }
  }

  method ParseBlocks(text: string, r: Rules) returns (blocks: seq<Block>)
    ensures Parsed(text, r, blocks, |text|)
  {
    blocks := [];
    var pos := 0;
    var inPara, paraStart, inCode, codeStart, inTable, tableStart := false, -1, false, -1, false, -1;
    while pos < |text|
      invariant Exclusive(inPara, inCode, inTable)
      invariant (inPara ==> paraStart >= 0) && (inCode ==> codeStart >= 0) && (inTable ==> tableStart >= 0)
      invariant State(text, r, blocks, pos, ModeOf(inPara, paraStart, inCode, codeStart, inTable, tableStart))
      decreases |text| - pos, if inTable then 1 else 0
    {
      ghost var mode := ModeOf(inPara, paraStart, inCode, codeStart, inTable, tableStart);
      var next, line := NextLine(text, pos), Line(text, pos);
      if r.fence(line) {
        if inCode {
          CloseCode(text, r, blocks, pos, mode);
          blocks := blocks + [Block(CODE, codeStart, next)];
          inCode := false;
        } else {
          if inPara {
            var _ := Close(text, r, blocks, pos, mode);
            blocks := blocks + [Block(PARA, paraStart, pos)];
            inPara := false;
          }
          if inTable {
            var _ := Close(text, r, blocks, pos, mode);
            blocks := blocks + [Block(TABLE, tableStart, pos)];
            inTable := false;
          }
          OpenAt(text, r, blocks, pos, InCode(pos));
          inCode, codeStart := true, pos;
        }
        pos := next;
      } else if inCode {
        Continue(text, r, blocks, pos, mode);
        pos := next;
      } else if inTable {
        if !r.row(line) && !r.blank(line) {
          // The line is not consumed: it is looked at again without the table.
          var _ := Close(text, r, blocks, pos, mode);
          blocks := blocks + [Block(TABLE, tableStart, pos)];
          inTable := false;
        } else {
          Continue(text, r, blocks, pos, mode);
          pos := next;
        }
      } else {
        tableStart := pos;
        blocks, pos, inPara, paraStart, inTable := TakeFree(text, r, blocks, pos, inPara, paraStart);
      }
    }
    blocks := CloseLast(text, r, blocks, inPara, paraStart, inCode, codeStart, inTable, tableStart);
  }

  /** The block that is still open at the end of the text. */
  method CloseLast(text: string, r: Rules, blocks: seq<Block>,
                   inPara: bool, paraStart: int, inCode: bool, codeStart: int, inTable: bool, tableStart: int)
    returns (blocks': seq<Block>)
    requires Exclusive(inPara, inCode, inTable)
    requires (inPara ==> paraStart >= 0) && (inCode ==> codeStart >= 0) && (inTable ==> tableStart >= 0)
    requires State(text, r, blocks, |text|, ModeOf(inPara, paraStart, inCode, codeStart, inTable, tableStart))
    ensures Parsed(text, r, blocks', |text|)
  {
    ghost var mode := ModeOf(inPara, paraStart, inCode, codeStart, inTable, tableStart);
    blocks' := blocks;
    if inCode {
      assert RunsTo(text, r, NextLine(text, codeStart), |text|, Block(CODE, codeStart, |text|));
      Append(text, r, blocks, Block(CODE, codeStart, |text|));
      blocks' := blocks + [Block(CODE, codeStart, |text|)];
    } else if inTable {
      var _ := Close(text, r, blocks, |text|, mode);
      blocks' := blocks + [Block(TABLE, tableStart, |text|)];
    } else if inPara {
      var _ := Close(text, r, blocks, |text|, mode);
      blocks' := blocks + [Block(PARA, paraStart, |text|)];
    }
  }

  lemma {:induction false} OneHolder(blocks: seq<Block>, i: nat, j: nat, p: nat)
    requires InOrder(blocks) && i < |blocks| && j < |blocks| && Holds(blocks[i], p) && Holds(blocks[j], p)
    ensures i == j
  {
  }

  lemma {:induction false} WholeLine(text: string, r: Rules, b: Block, p: nat)
    requires BlockOk(text, r, b) && Holds(b, p) && LineStart(text, p)
    ensures NextLine(text, p) <= b.end
  {
    NextLineStarts(text, p);
    assert !StartsIn(text, b.end, p, NextLine(text, p));
  }

  /** So every line that is not blank is in exactly one block, and wholly in it. */
  lemma {:induction false} ExactlyOneBlock(text: string, r: Rules, blocks: seq<Block>, p: nat)
    requires Parsed(text, r, blocks, |text|) && StartsIn(text, p, 0, |text|) && !r.blank(Line(text, p))
    ensures exists i :: 0 <= i < |blocks| && Holds(blocks[i], p) && NextLine(text, p) <= blocks[i].end
                     && forall j :: 0 <= j < |blocks| && Holds(blocks[j], p) ==> j == i
  {
    var i :| 0 <= i < |blocks| && Holds(blocks[i], p);
    WholeLine(text, r, blocks[i], p);
    forall j | 0 <= j < |blocks| && Holds(blocks[j], p) ensures j == i {
      OneHolder(blocks, i, j, p);
    }
  }

  // ---- The blocks are determined by the text ---------------------------------------------------

  lemma {:induction false} CodeEnds(text: string, r: Rules, a: Block, b: Block)
    requires BlockOk(text, r, a) && BlockOk(text, r, b) && a.start == b.start && a.kind == b.kind == CODE
    ensures a.end == b.end
  {
    var first := NextLine(text, a.start);
    var i: nat :| RunsTo(text, r, first, i, a);
    var j: nat :| RunsTo(text, r, first, j, b);
    CodeRunsOn(text, r, a, b, first, i, j);
    CodeRunsOn(text, r, b, a, first, j, i);
  }

  lemma {:induction false} CodeRunsOn(text: string, r: Rules, a: Block, b: Block, first: nat, i: nat, j: nat)
    requires RunsTo(text, r, first, i, a) && RunsTo(text, r, first, j, b) && a.end <= |text| && b.end <= |text|
    ensures i >= j
  {
    if i < j && Closes(text, r, i, a) {
      assert StartsIn(text, i, first, j);
    }
  }

  /** A block cannot end in front of a line that another one with the same start goes on with. */
  lemma {:induction false} RunsAsFar(text: string, r: Rules, a: Block, b: Block)
    requires BlockOk(text, r, a) && BlockOk(text, r, b) && a.start == b.start && a.kind == b.kind
    requires a.kind == TABLE || a.kind == PARA || a.kind == LIST
    ensures a.end >= b.end
  {
    if a.end < b.end {
      WholeLine(text, r, a, a.start);
      assert StartsIn(text, a.end, NextLine(text, b.start), b.end);
      assert StartsIn(text, a.end, b.start, b.end);
      assert Belongs(r, b.kind, Line(text, a.end));
      if EndsBlank(text, r, a) {
        var p: nat :| StartsIn(text, p, a.start, a.end) && NextLine(text, p) == a.end && r.blank(Line(text, p))
                      && !ItemAt(text, r, a.end);
        assert StartsIn(text, p, b.start, b.end);
      }
    }
  }

  lemma {:induction false} EndsAgree(text: string, r: Rules, a: Block, b: Block)
    requires BlockOk(text, r, a) && BlockOk(text, r, b) && a.start == b.start
    ensures a == b
  {
    if a.kind == CODE {
      CodeEnds(text, r, a, b);
    } else if a.kind == TABLE || a.kind == PARA || a.kind == LIST {
      RunsAsFar(text, r, a, b);
      RunsAsFar(text, r, b, a);
    }
  }

  predicate Agree(a: seq<Block>, b: seq<Block>, n: nat) {
    n <= |a| && n <= |b| && forall j :: 0 <= j < n ==> a[j] == b[j]
  }

  lemma {:induction false} HolderNotBefore(a: seq<Block>, b: seq<Block>, i: nat, j: nat)
    requires InOrder(a) && InOrder(b) && i < |a| && Agree(a, b, i) && j < |b| && Holds(b[j], a[i].start)
    requires forall k :: 0 <= k < |b| ==> b[k].start < b[k].end
    ensures i <= j && b[i].start <= a[i].start
  {
  }

  /** The next block of the one parse starts no earlier than that of the other. */
  lemma {:induction false} NoEarlierStart(text: string, r: Rules, a: seq<Block>, b: seq<Block>, i: nat)
    requires Parsed(text, r, a, |text|) && Parsed(text, r, b, |text|) && i < |a| && Agree(a, b, i)
    ensures i < |b| && b[i].start <= a[i].start
  {
    assert BlockOk(text, r, a[i]);
    assert StartsIn(text, a[i].start, 0, |text|);
    var j :| 0 <= j < |b| && Holds(b[j], a[i].start);
    assert forall k :: 0 <= k < |b| ==> BlockOk(text, r, b[k]);
    HolderNotBefore(a, b, i, j);
  }

  lemma {:induction false} BlocksAreOk(text: string, r: Rules, a: seq<Block>, i: nat)
    requires Parsed(text, r, a, |text|) && i < |a|
    ensures BlockOk(text, r, a[i])
  {
  }

  lemma {:induction false} SameStart(text: string, r: Rules, a: seq<Block>, b: seq<Block>, i: nat)
    requires Parsed(text, r, a, |text|) && Parsed(text, r, b, |text|) && i < |a| && i < |b| && Agree(a, b, i)
    ensures a[i].start == b[i].start
  {
    NoEarlierStart(text, r, a, b, i);
    assert Agree(b, a, i);
    NoEarlierStart(text, r, b, a, i);
  }

  lemma {:induction false} NextAgrees(text: string, r: Rules, a: seq<Block>, b: seq<Block>, i: nat)
    requires Parsed(text, r, a, |text|) && Parsed(text, r, b, |text|) && i < |a| && Agree(a, b, i)
    ensures Agree(a, b, i + 1)
  {
    NoEarlierStart(text, r, a, b, i);
    SameStart(text, r, a, b, i);
    BlocksAreOk(text, r, a, i);
    BlocksAreOk(text, r, b, i);
    EndsAgree(text, r, a[i], b[i]);
  }

  lemma {:induction false} AgreeUpTo(text: string, r: Rules, a: seq<Block>, b: seq<Block>, i: nat)
    requires Parsed(text, r, a, |text|) && Parsed(text, r, b, |text|) && i <= |a|
    ensures Agree(a, b, i)
  {
    if i > 0 {
      AgreeUpTo(text, r, a, b, i - 1);
      NextAgrees(text, r, a, b, i - 1);
    }
  }

  /** There is one parse of a text. */
  lemma {:induction false} ParseUnique(text: string, r: Rules, a: seq<Block>, b: seq<Block>)
    requires Parsed(text, r, a, |text|) && Parsed(text, r, b, |text|)
    ensures a == b
  {
    AgreeUpTo(text, r, a, b, |a|);
    AgreeUpTo(text, r, b, a, |b|);
  }

  /** Two paragraphs never touch, and two tables only if a separator that is no row stands between them. */
  lemma {:induction false} NeverTouch(text: string, r: Rules, blocks: seq<Block>, i: nat)
    requires Parsed(text, r, blocks, |text|) && i + 1 < |blocks| && blocks[i].end == blocks[i + 1].start
    requires blocks[i].kind == blocks[i + 1].kind && (blocks[i].kind == PARA || blocks[i].kind == TABLE)
    ensures blocks[i].kind == TABLE
    ensures var line := Line(text, blocks[i].end); r.separator(line) && !r.row(line) && !r.blank(line)
  {
    BlocksAreOk(text, r, blocks, i);
    BlocksAreOk(text, r, blocks, i + 1);
  }
}
