/** The block-aware packer: adjacent small chunks are merged, everything else passes through. */
module ChunkPacker {

  datatype Chunk = Chunk(content: string, blockType: string, embedding: string, outline: seq<string>)

  const MERGEABLE := {"PARAGRAPH", "LIST", "IMAGE", ""}

  // Merging a buffer.

  function Join(parts: seq<string>): string {
    if parts == [] then "" else if |parts| == 1 then parts[0]
      else Join(parts[..|parts| - 1]) + "\n\n" + parts[|parts| - 1]
  }

  function Contents(buf: seq<Chunk>): seq<string> {
    seq(|buf|, i requires 0 <= i < |buf| => buf[i].content)
  }

  /** What is embedded for a chunk: its explicit text, or its content. */
  function Embedded(c: Chunk): string {
    if c.embedding != "" then c.embedding else c.content
  }

  function Embeddings(buf: seq<Chunk>): seq<string> {
    seq(|buf|, i requires 0 <= i < |buf| => Embedded(buf[i]))
  }

  function Types(buf: seq<Chunk>): set<string> {
    set c | c in buf && c.blockType != "" :: c.blockType
  }

  /** The longest common prefix of two outlines. */
  function Common(a: seq<string>, b: seq<string>): seq<string> {
    if a == [] || b == [] || a[0] != b[0] then [] else [a[0]] + Common(a[1..], b[1..])
  }

  function CommonOutline(buf: seq<Chunk>): seq<string>
    requires buf != []
  {
    if |buf| == 1 then buf[0].outline else Common(CommonOutline(buf[..|buf| - 1]), buf[|buf| - 1].outline)
  }

  /** m merges the buffer. A buffer of one is passed through. */
  ghost predicate Merges(m: Chunk, buf: seq<Chunk>)
    requires buf != []
  {
    if |buf| == 1 then m == buf[0]
    else
      && m.content == Join(Contents(buf))
      && m.embedding == (if exists c :: c in buf && c.embedding != "" then Join(Embeddings(buf)) else "")
      && m.outline == CommonOutline(buf)
      && (Types(buf) == {m.blockType} || (|Types(buf)| != 1 && m.blockType == "PARAGRAPH"))
  }

  ghost predicate PrefixOfAll(p: seq<string>, buf: seq<Chunk>) {
    forall c :: c in buf ==> p <= c.outline
  }

  lemma {:induction false} CommonIsGreatest(a: seq<string>, b: seq<string>, q: seq<string>)
    ensures q <= Common(a, b) <==> q <= a && q <= b
  {
    if q != [] && a != [] && b != [] {
      PrefixCons(q, a);
      PrefixCons(q, b);
      if a[0] == b[0] {
        CommonIsGreatest(a[1..], b[1..], q[1..]);
        PrefixCons(q, Common(a, b));
        assert Common(a, b)[1..] == Common(a[1..], b[1..]);
      }
    }
  }

  lemma {:induction false} PrefixCons(q: seq<string>, s: seq<string>)
    requires q != [] && s != []
    ensures q <= s <==> q[0] == s[0] && q[1..] <= s[1..]
  {
    if q[0] == s[0] && q[1..] <= s[1..] {
      assert forall i :: 1 <= i < |q| ==> q[i] == q[1..][i - 1] == s[1..][i - 1];
    }
    if q <= s {
      assert s[1..][..|q| - 1] == s[..|q|][1..];
    }
  }

  /** The merged outline is the greatest prefix that all members share. */
  lemma {:induction false} OutlineIsGreatest(buf: seq<Chunk>, q: seq<string>)
    requires buf != []
    ensures q <= CommonOutline(buf) <==> PrefixOfAll(q, buf)
  {
    if |buf| > 1 {
      var front, last := buf[..|buf| - 1], buf[|buf| - 1];
      assert buf == front + [last];
      OutlineIsGreatest(front, q);
      CommonIsGreatest(CommonOutline(front), last.outline, q);
    } else {
      assert buf == [buf[0]];
    }
  }

  /** The inner `while`: how far two outlines agree. */
  method CommonLength(a: seq<string>, b: seq<string>) returns (k: nat)
    ensures k <= |a| && k <= |b| && a[..k] == b[..k] && (k < |a| && k < |b| ==> a[k] != b[k])
  {
    k := 0;
    while k < |a| && k < |b| && a[k] == b[k]
      invariant k <= |a| && k <= |b| && a[..k] == b[..k]
    {
      k := k + 1;
    }
  }

  lemma {:induction false} CommonAt(a: seq<string>, b: seq<string>, k: nat)
    requires k <= |a| && k <= |b| && a[..k] == b[..k] && (k < |a| && k < |b| ==> a[k] != b[k])
    ensures Common(a, b) == a[..k]
  {
    if k > 0 {
      assert a[0] == a[..k][0] && b[0] == b[..k][0];
      assert a[1..][..k - 1] == a[..k][1..] && b[1..][..k - 1] == b[..k][1..];
      CommonAt(a[1..], b[1..], k - 1);
    }
  }

  method MergeBuffer(buf: seq<Chunk>) returns (m: Chunk)
    requires buf != []
    ensures Merges(m, buf)
  {
    if |buf| == 1 {
      return buf[0];
    }
    var embedding := if exists c :: c in buf && c.embedding != "" then Join(Embeddings(buf)) else "";
    var path := buf[0].outline;
    assert buf[..1] == [buf[0]];
    for i := 1 to |buf|
      invariant path == CommonOutline(buf[..i])
    {
      var k := CommonLength(path, buf[i].outline);
      CommonAt(path, buf[i].outline, k);
      assert buf[..i + 1][..i] == buf[..i];
      path := path[..k];
    }
    assert buf[..|buf|] == buf;
    var types := Types(buf);
    var blockType := "PARAGRAPH";
    if |types| == 1 {
      blockType :| blockType in types;
      OnlyElement(types, blockType);
    }
    m := Chunk(Join(Contents(buf)), blockType, embedding, path);
  }

  lemma {:induction false} OnlyElement(s: set<string>, x: string)
    requires |s| == 1 && x in s
    ensures s == {x}
  {
    assert |s - {x}| == 0;
  }

  // Packing.

  function Total(buf: seq<Chunk>): nat {
    if buf == [] then 0 else Total(buf[..|buf| - 1]) + |buf[|buf| - 1].content|
  }

  function Flatten<T>(groups: seq<seq<T>>): seq<T> {
    if groups == [] then [] else Flatten(groups[..|groups| - 1]) + groups[|groups| - 1]
  }

  predicate Small(c: Chunk, minSize: int) {
    c.blockType in MERGEABLE && |c.content| < minSize
  }

  ghost predicate AllSmall(buf: seq<Chunk>, minSize: int) {
    forall c :: c in buf ==> Small(c, minSize)
  }

  /** Two or more small chunks that are enough, or too many. */
  predicate Enough(g: seq<Chunk>, minSize: int, maxSize: int) {
    |g| > 1 && (Total(g) >= minSize || Total(g) > maxSize)
  }

  /** A group is one chunk as it was, or small mergeable chunks that were not enough without the last. */
  ghost predicate GroupOk(g: seq<Chunk>, minSize: int, maxSize: int) {
    |g| == 1 || (|g| > 1 && AllSmall(g, minSize) && !Enough(g[..|g| - 1], minSize, maxSize))
  }

  /** A group that no further small chunk should have joined. */
  ghost predicate Full(g: seq<Chunk>, minSize: int, maxSize: int) {
    !AllSmall(g, minSize) || Enough(g, minSize, maxSize)
  }

  /** A merged group has less than twice the minimum. */
  lemma {:induction false} GroupTotal(g: seq<Chunk>, minSize: int, maxSize: int)
    requires GroupOk(g, minSize, maxSize) && |g| > 1
    ensures Total(g) < 2 * minSize
  {
    var front, last := g[..|g| - 1], g[|g| - 1];
    assert last in g && Small(last, minSize);
    if |front| == 1 {
      assert front[0] in g && Total(front) == Total(front[..0]) + |front[0].content|;
    }
  }

  ghost predicate PackedAt(packed: seq<Chunk>, groups: seq<seq<Chunk>>, i: nat, minSize: int, maxSize: int) {
    i < |groups| == |packed| && GroupOk(groups[i], minSize, maxSize) && Merges(packed[i], groups[i])
  }

  ghost predicate SeamAt(groups: seq<seq<Chunk>>, i: nat, minSize: int, maxSize: int) {
    i + 1 < |groups| && groups[i + 1] != [] && (Full(groups[i], minSize, maxSize) || !Small(groups[i + 1][0], minSize))
  }

  /** Chunk by chunk the result is the groups, merged; where two groups meet, they could not have been one. */
  ghost predicate Packs(packed: seq<Chunk>, groups: seq<seq<Chunk>>, minSize: int, maxSize: int) {
    && |packed| == |groups|
    && (forall i: nat {:trigger PackedAt(packed, groups, i, minSize, maxSize)} :: i < |groups| ==>
         PackedAt(packed, groups, i, minSize, maxSize))
    && (forall i: nat {:trigger SeamAt(groups, i, minSize, maxSize)} :: i + 1 < |groups| ==>
         SeamAt(groups, i, minSize, maxSize))
  }

  lemma {:induction false} FlattenAdd<T>(groups: seq<seq<T>>, g: seq<T>)
    ensures Flatten(groups + [g]) == Flatten(groups) + g
  {
    assert (groups + [g])[..|groups|] == groups;
  }

  lemma {:induction false} TotalAdd(buf: seq<Chunk>, c: Chunk)
    ensures Total(buf + [c]) == Total(buf) + |c.content|
  {
    assert (buf + [c])[..|buf|] == buf;
  }

  lemma {:induction false} PacksAdd(packed: seq<Chunk>, groups: seq<seq<Chunk>>, m: Chunk, g: seq<Chunk>, minSize: int,
                                    maxSize: int)
    requires Packs(packed, groups, minSize, maxSize) && GroupOk(g, minSize, maxSize) && Merges(m, g)
    requires groups != [] ==> Full(groups[|groups| - 1], minSize, maxSize) || !Small(g[0], minSize)
    ensures Packs(packed + [m], groups + [g], minSize, maxSize)
  {
    var packed', groups' := packed + [m], groups + [g];
    forall i: nat | i < |groups'| ensures PackedAt(packed', groups', i, minSize, maxSize) {
      assert i < |groups| ==> PackedAt(packed, groups, i, minSize, maxSize);
    }
    forall i: nat | i + 1 < |groups'| ensures SeamAt(groups', i, minSize, maxSize) {
      assert i + 1 < |groups| ==> SeamAt(groups, i, minSize, maxSize);
    }
  }

  /** Between two chunks of the input: what is packed, and the small chunks waiting in the buffer. */
  ghost predicate Packing(done: seq<Chunk>, packed: seq<Chunk>, groups: seq<seq<Chunk>>, buffer: seq<Chunk>,
                          minSize: int, maxSize: int) {
    && Packs(packed, groups, minSize, maxSize) && Flatten(groups) + buffer == done
    && (groups != [] ==> Full(groups[|groups| - 1], minSize, maxSize))
    && AllSmall(buffer, minSize) && !Enough(buffer, minSize, maxSize)
    && (|buffer| > 1 ==> !Enough(buffer[..|buffer| - 1], minSize, maxSize))
  }

  lemma {:induction false} FlushBuffer(done: seq<Chunk>, packed: seq<Chunk>, groups: seq<seq<Chunk>>,
                                       buffer: seq<Chunk>, m: Chunk, minSize: int, maxSize: int)
    requires Packing(done, packed, groups, buffer, minSize, maxSize) && buffer != [] && Merges(m, buffer)
    ensures Packs(packed + [m], groups + [buffer], minSize, maxSize) && Flatten(groups + [buffer]) == done
  {
    FlattenAdd(groups, buffer);
    PacksAdd(packed, groups, m, buffer, minSize, maxSize);
  }

  /** A chunk that merges with nothing. */
  lemma {:induction false} PassThrough(done: seq<Chunk>, packed: seq<Chunk>, groups: seq<seq<Chunk>>, c: Chunk,
                                       minSize: int, maxSize: int)
    requires Packs(packed, groups, minSize, maxSize) && Flatten(groups) == done && !Small(c, minSize)
    ensures Packing(done + [c], packed + [c], groups + [[c]], [], minSize, maxSize)
  {
    FlattenAdd(groups, [c]);
    PacksAdd(packed, groups, c, [c], minSize, maxSize);
    assert [c][0] in [c];
  }

  lemma {:induction false} PackNone(minSize: int, maxSize: int)
    ensures Packs([], [], minSize, maxSize) && Flatten<Chunk>([]) == []
  {
  }

  lemma {:induction false} PackOne(c: Chunk, minSize: int, maxSize: int)
    ensures Packs([c], [[c]], minSize, maxSize) && Flatten([[c]]) == [c]
  {
    PackNone(minSize, maxSize);
    PacksAdd([], [], c, [c], minSize, maxSize);
    FlattenAdd([], [c]);
    assert [] + [[c]] == [[c]] && [] + [c] == [c];
  }

  method PackChunks(chunks: seq<Chunk>, minSize: int, maxSize: int)
    returns (packed: seq<Chunk>, ghost groups: seq<seq<Chunk>>)
    ensures Packs(packed, groups, minSize, maxSize) && Flatten(groups) == chunks
  {
    if |chunks| == 0 {
      packed, groups := chunks, [];
      PackNone(minSize, maxSize);
    } else if |chunks| == 1 {
      packed, groups := chunks, [[chunks[0]]];
      PackOne(chunks[0], minSize, maxSize);
      assert chunks == [chunks[0]];
    } else {
      packed, groups := PackAll(chunks, minSize, maxSize);
    }
  }

  /** The loop over chunks. */
  method PackAll(chunks: seq<Chunk>, minSize: int, maxSize: int)
    returns (packed: seq<Chunk>, ghost groups: seq<seq<Chunk>>)
    ensures Packs(packed, groups, minSize, maxSize) && Flatten(groups) == chunks
  {
    packed, groups := [], [];
    var buffer: seq<Chunk> := [];
    for i := 0 to |chunks|
      invariant Packing(chunks[..i], packed, groups, buffer, minSize, maxSize)
    {
      assert chunks[..i + 1] == chunks[..i] + [chunks[i]];
      packed, groups, buffer := TakeChunk(chunks[..i], packed, groups, buffer, chunks[i], minSize, maxSize);
    }
    assert chunks[..|chunks|] == chunks;
    if buffer != [] {
      packed, groups := Flush(chunks, packed, groups, buffer, minSize, maxSize);
    }
  }

  /** The body of the loop over chunks. */
  method TakeChunk(ghost done: seq<Chunk>, packed: seq<Chunk>, ghost groups: seq<seq<Chunk>>, buffer: seq<Chunk>,
                   c: Chunk, minSize: int, maxSize: int)
    returns (packed': seq<Chunk>, ghost groups': seq<seq<Chunk>>, buffer': seq<Chunk>)
    requires Packing(done, packed, groups, buffer, minSize, maxSize)
    ensures Packing(done + [c], packed', groups', buffer', minSize, maxSize)
  {
    buffer' := [];
    if c.blockType !in MERGEABLE {
      packed', groups' := FlushAndPass(done, packed, groups, buffer, c, minSize, maxSize);
    } else if |c.content| < minSize {
      packed', groups', buffer' := AddSmall(done, packed, groups, buffer, c, minSize, maxSize);
    } else {
      packed', groups' := FlushAndPass(done, packed, groups, buffer, c, minSize, maxSize);
    }
  }

  /** An atomic or a large chunk ends the buffer and goes through as it is. */
  method FlushAndPass(ghost done: seq<Chunk>, packed: seq<Chunk>, ghost groups: seq<seq<Chunk>>, buffer: seq<Chunk>,
                      c: Chunk, minSize: int, maxSize: int)
    returns (packed': seq<Chunk>, ghost groups': seq<seq<Chunk>>)
    requires Packing(done, packed, groups, buffer, minSize, maxSize) && !Small(c, minSize)
    ensures Packing(done + [c], packed', groups', [], minSize, maxSize)
  {
    packed', groups' := packed, groups;
    if buffer != [] {
      packed', groups' := Flush(done, packed, groups, buffer, minSize, maxSize);
    }
    assert Flatten(groups') == done;
    PassThrough(done, packed', groups', c, minSize, maxSize);
    packed', groups' := packed' + [c], groups' + [[c]];
  }

  method Flush(ghost done: seq<Chunk>, packed: seq<Chunk>, ghost groups: seq<seq<Chunk>>, buffer: seq<Chunk>,
               minSize: int, maxSize: int)
    returns (packed': seq<Chunk>, ghost groups': seq<seq<Chunk>>)
    requires Packing(done, packed, groups, buffer, minSize, maxSize) && buffer != []
    ensures Packs(packed', groups', minSize, maxSize) && Flatten(groups') == done
    ensures groups' == groups + [buffer]
  {
    var m := MergeBuffer(buffer);
    FlushBuffer(done, packed, groups, buffer, m, minSize, maxSize);
    packed', groups' := packed + [m], groups + [buffer];
  }

  lemma {:induction false} BufferGrows(done: seq<Chunk>, packed: seq<Chunk>, groups: seq<seq<Chunk>>,
                                       buffer: seq<Chunk>, c: Chunk, minSize: int, maxSize: int)
    requires Packing(done, packed, groups, buffer, minSize, maxSize) && Small(c, minSize)
    requires buffer != [] ==> Total(buffer) + |c.content| < minSize && Total(buffer) + |c.content| <= maxSize
    ensures Packing(done + [c], packed, groups, buffer + [c], minSize, maxSize)
  {
    TotalAdd(buffer, c);
    assert (buffer + [c])[..|buffer|] == buffer;
    assert Flatten(groups) + (buffer + [c]) == done + [c];
  }

  lemma {:induction false} BufferFull(done: seq<Chunk>, packed: seq<Chunk>, groups: seq<seq<Chunk>>, buffer: seq<Chunk>,
                                      c: Chunk, m: Chunk, minSize: int, maxSize: int)
    requires Packing(done, packed, groups, buffer, minSize, maxSize) && Small(c, minSize) && buffer != []
    requires Total(buffer) + |c.content| >= minSize || Total(buffer) + |c.content| > maxSize
    requires Merges(m, buffer + [c])
    ensures Packing(done + [c], packed + [m], groups + [buffer + [c]], [], minSize, maxSize)
  {
    TotalAdd(buffer, c);
    assert (buffer + [c])[..|buffer|] == buffer;
    FlattenAdd(groups, buffer + [c]);
    PacksAdd(packed, groups, m, buffer + [c], minSize, maxSize);
    assert Flatten(groups) + (buffer + [c]) == done + [c];
  }

  /** A small mergeable chunk joins the buffer, which is flushed once it is large enough. */
  method AddSmall(ghost done: seq<Chunk>, packed: seq<Chunk>, ghost groups: seq<seq<Chunk>>, buffer: seq<Chunk>,
                  c: Chunk, minSize: int, maxSize: int)
    returns (packed': seq<Chunk>, ghost groups': seq<seq<Chunk>>, buffer': seq<Chunk>)
    requires Packing(done, packed, groups, buffer, minSize, maxSize) && Small(c, minSize)
    ensures Packing(done + [c], packed', groups', buffer', minSize, maxSize)
  {
    TotalAdd(buffer, c);
    packed', groups', buffer' := packed, groups, buffer + [c];
    var combined := Total(buffer');
    if buffer != [] && (combined >= minSize || combined > maxSize) {
      var m := MergeBuffer(buffer');
      BufferFull(done, packed, groups, buffer, c, m, minSize, maxSize);
      packed', groups', buffer' := packed + [m], groups + [buffer'], [];
    } else {
      BufferGrows(done, packed, groups, buffer, c, minSize, maxSize);
    }
  }

  /** Nothing of the input is lost to merging: contents are joined in order. */
  lemma {:induction false} JoinLength(parts: seq<string>)
    requires parts != []
    ensures |Join(parts)| == PartsLength(parts) + 2 * (|parts| - 1)
  {
    if |parts| > 1 {
      JoinLength(parts[..|parts| - 1]);
    }
  }

  function PartsLength(parts: seq<string>): nat {
    if parts == [] then 0 else PartsLength(parts[..|parts| - 1]) + |parts[|parts| - 1]|
  }

  // ---- What a merged chunk holds ---------------------------------------------------------------

  /** A join of two lists is the join of the one, a blank line, and the join of the other. */
  lemma {:induction false} JoinSplits(a: seq<string>, b: seq<string>)
    requires a != [] && b != []
    ensures Join(a + b) == Join(a) + "\n\n" + Join(b)
  {
    var front, last := b[..|b| - 1], b[|b| - 1];
    assert (a + b)[..|a + b| - 1] == a + front;
    if front == [] {
      assert a + front == a && Join(b) == last;
    } else {
      JoinSplits(a, front);
      assert Join(a + b) == Join(a) + "\n\n" + Join(front) + "\n\n" + last;
    }
  }

  lemma {:induction false} JoinOfOne(part: string)
    ensures Join([part]) == part
  {
  }

  /** A merge of two buffers in a row holds the texts of the first, a blank line, and those of the second. */
  lemma {:induction false} MergeSplits(m: Chunk, a: seq<Chunk>, b: seq<Chunk>, x: Chunk, y: Chunk)
    requires a != [] && b != [] && Merges(m, a + b) && Merges(x, a) && Merges(y, b)
    ensures m.content == x.content + "\n\n" + y.content
  {
    MergedContent(x, a);
    MergedContent(y, b);
    assert Contents(a + b) == Contents(a) + Contents(b);
    JoinSplits(Contents(a), Contents(b));
  }

  lemma {:induction false} MergedContent(m: Chunk, buf: seq<Chunk>)
    requires buf != [] && Merges(m, buf)
    ensures m.content == Join(Contents(buf))
  {
    if |buf| == 1 {
      assert Contents(buf) == [buf[0].content];
      JoinOfOne(buf[0].content);
    }
  }

  predicate Differ(c: Chunk, d: Chunk) {
    c.blockType != d.blockType && c.blockType != "" && d.blockType != ""
  }

  /** A merge is of the kind that all members that have one share, and a paragraph otherwise. */
  lemma {:induction false} MergedKind(m: Chunk, buf: seq<Chunk>, kind: string)
    requires |buf| > 1 && Merges(m, buf) && kind != ""
    ensures (exists c :: c in buf && c.blockType == kind) && (forall c :: c in buf ==> c.blockType in {"", kind})
            ==> m.blockType == kind
    ensures (forall c :: c in buf ==> c.blockType == "") ==> m.blockType == "PARAGRAPH"
    ensures (exists c, d :: c in buf && d in buf && Differ(c, d)) ==> m.blockType == "PARAGRAPH"
  {
    if (exists c :: c in buf && c.blockType == kind) && (forall c :: c in buf ==> c.blockType in {"", kind}) {
      assert Types(buf) == {kind};
    }
    if forall c :: c in buf ==> c.blockType == "" {
      assert Types(buf) == {};
    }
    if c, d :| c in buf && d in buf && Differ(c, d) {
      assert c.blockType in Types(buf) && d.blockType in Types(buf);
    }
  }

  /** Explicit texts are embedded, contents where there is none; without any, nothing is. */
  lemma {:induction false} MergedEmbedding(m: Chunk, buf: seq<Chunk>, texts: seq<string>)
    requires |buf| > 1 && Merges(m, buf) && |texts| == |buf|
    requires forall i :: 0 <= i < |buf| ==>
               texts[i] == if buf[i].embedding == "" then buf[i].content else buf[i].embedding
    ensures (forall c :: c in buf ==> c.embedding == "") ==> m.embedding == ""
    ensures (exists c :: c in buf && c.embedding != "") ==> m.embedding == Join(texts)
  {
    assert texts == Embeddings(buf);
  }
}
