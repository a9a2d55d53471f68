/** What holds of the live chunks and assets of every document, over all runs of the ingestion. */
module GenerationRuns {
  import opened Finite
  import opened Options
  import opened Generations

  // ---- One switch ------------------------------------------------------------------------------

  /** No row of the document carries the generation. */
  ghost predicate Unused(t: Tables, doc: DocId, generation: Generation) {
    && (forall id :: id in t.chunks && t.chunks[id].doc == doc ==> t.chunks[id].generation != generation)
    && (forall id :: id in t.assets && t.assets[id].doc == doc ==> t.assets[id].generation != generation)
  }

  function LiveOfGeneration(rows: map<Id, Row>, doc: DocId, generation: Generation): set<Id> {
    set id | id in LiveIds(rows, doc) && rows[id].generation == generation
  }

  lemma {:induction false} NewChunkRows(doc: DocId, generation: Generation, ids: seq<Id>, contents: seq<string>)
    requires |ids| == |contents| && Distinct(ids)
    ensures NewChunks(doc, generation, ids, contents).Keys == Elements(ids)
    ensures forall i :: 0 <= i < |ids| ==>
              NewChunks(doc, generation, ids, contents)[ids[i]] == Row(doc, generation, PENDING, false, contents[i])
  {
    NewChunksKeys(doc, generation, ids, contents);
    if ids != [] {
      var n := |ids| - 1;
      NewChunkRows(doc, generation, ids[..n], contents[..n]);
      forall i | 0 <= i < n
        ensures NewChunks(doc, generation, ids, contents)[ids[i]] == Row(doc, generation, PENDING, false, contents[i])
      {
        assert ids[..n][i] == ids[i] && contents[..n][i] == contents[i];
        assert ids[i] in NewChunks(doc, generation, ids[..n], contents[..n]);
      }
    }
  }

  /** What an ingestion leaves of the chunk table, row by row. */
  lemma {:induction false} ChunkRows(t: Tables, doc: DocId, generation: Generation, a: Attempt)
    requires Fits(a, t, doc, generation)
    ensures var rows := ChunksAfter(t, doc, generation, a);
            && rows.Keys == t.chunks.Keys + Elements(a.ids)
            && (forall i :: 0 <= i < |a.ids| ==> rows[a.ids[i]] == Row(doc, generation, ACTIVE, false, a.contents[i]))
            && (forall id :: id in t.chunks ==>
                 rows[id] == if Outdated(t.chunks[id], doc, generation) then Retire(t.chunks[id]) else t.chunks[id])
  {
    NewChunkRows(doc, generation, a.ids, a.contents);
    var rows := t.chunks + NewChunks(doc, generation, a.ids, a.contents);
    forall i | 0 <= i < |a.ids|
      ensures ChunksAfter(t, doc, generation, a)[a.ids[i]] == Row(doc, generation, ACTIVE, false, a.contents[i])
    {
      assert a.ids[i] in Elements(a.ids) && rows[a.ids[i]] == Row(doc, generation, PENDING, false, a.contents[i]);
    }
    forall id | id in t.chunks ensures id !in Elements(a.ids) && rows[id] == t.chunks[id] {
    }
  }

  lemma {:induction false} NewIdRow(t: Tables, doc: DocId, generation: Generation, a: Attempt, id: Id)
    requires Fits(a, t, doc, generation) && id in Elements(a.ids)
    ensures id !in t.chunks && id in ChunksAfter(t, doc, generation, a)
    ensures var row := ChunksAfter(t, doc, generation, a)[id];
            row.doc == doc && row.generation == generation && Live(row)
  {
    ChunkRows(t, doc, generation, a);
    var i :| 0 <= i < |a.ids| && a.ids[i] == id;
  }

  /** The new chunks are live, and beside them only what was live under the same generation. */
  lemma {:induction false} LiveAfterSwitch(t: Tables, doc: DocId, generation: Generation, a: Attempt)
    requires Fits(a, t, doc, generation)
    ensures LiveIds(ChunksAfter(t, doc, generation, a), doc)
              == Elements(a.ids) + LiveOfGeneration(t.chunks, doc, generation)
    ensures Elements(a.ids) !! LiveOfGeneration(t.chunks, doc, generation)
  {
    ChunkRows(t, doc, generation, a);
    var now := ChunksAfter(t, doc, generation, a);
    forall id
      ensures id in LiveIds(now, doc) <==> id in Elements(a.ids) || id in LiveOfGeneration(t.chunks, doc, generation)
    {
      if id in Elements(a.ids) {
        NewIdRow(t, doc, generation, a, id);
      }
    }
  }

  /** A switch keeps the content that was given, and other documents are as they were. */
  lemma {:induction false} SwitchKeepsContent(t: Tables, doc: DocId, generation: Generation, a: Attempt)
    requires Fits(a, t, doc, generation)
    ensures var now := ChunksAfter(t, doc, generation, a);
            && (forall i :: 0 <= i < |a.ids| ==>
                 a.ids[i] in now && now[a.ids[i]] == Row(doc, generation, ACTIVE, false, a.contents[i]))
            && (forall id :: id in now && now[id].doc != doc ==> id in t.chunks && now[id] == t.chunks[id])
            && (forall id :: id in t.chunks && t.chunks[id].doc != doc ==> id in now && now[id] == t.chunks[id])
            && (forall other :: other != doc ==> LiveIds(now, other) == LiveIds(t.chunks, other))
  {
    ChunkRows(t, doc, generation, a);
    var now := ChunksAfter(t, doc, generation, a);
    forall id | id in now && now[id].doc != doc ensures id in t.chunks && now[id] == t.chunks[id] {
      assert id !in Elements(a.ids);
    }
  }

  /** Success makes exactly the new chunks live if and only if no live chunk of the document carried the generation
      before. */
  lemma {:induction false} ExactlyTheNewChunks(t: Tables, doc: DocId, generation: Generation, a: Attempt, s: Settings)
    requires Fits(a, t, doc, generation)
    ensures LiveIds(Switched(t, doc, generation, a, s).chunks, doc) == Elements(a.ids)
            <==> LiveOfGeneration(t.chunks, doc, generation) == {}
  {
    LiveAfterSwitch(t, doc, generation, a);
    var same := LiveOfGeneration(t.chunks, doc, generation);
    if same != {} {
      var id :| id in same;
      assert id in Elements(a.ids) + same;
    }
  }

  lemma {:induction false} AssetRows(t: Tables, doc: DocId, generation: Generation, a: Attempt)
    requires Unused(t, doc, generation)
    ensures var rows := AssetsAfter(t, doc, generation, a);
            && rows.Keys == t.assets.Keys + a.saved
            && (forall id :: id in a.saved ==> rows[id] == Row(doc, generation, ACTIVE, false, ""))
            && (forall id :: id in t.assets && id !in a.saved ==>
                 rows[id] == if Outdated(t.assets[id], doc, generation) then Retire(t.assets[id]) else t.assets[id])
  {
    var mid := t.assets + NewAssets(doc, generation, a.saved);
    assert forall id :: id in a.saved ==> mid[id] == Row(doc, generation, PENDING, false, "");
    assert forall id :: id in mid && id !in a.saved ==> mid[id] == t.assets[id];
    var rows := Retired(mid, doc, generation);
    assert WaitingIds(rows, doc, generation) == a.saved;
  }

  /** The live assets are those that were saved in this run. */
  lemma {:induction false} LiveAssetsAfterSwitch(t: Tables, doc: DocId, generation: Generation, a: Attempt)
    requires Fits(a, t, doc, generation) && Unused(t, doc, generation)
    ensures LiveIds(AssetsAfter(t, doc, generation, a), doc) == a.saved
    ensures forall other :: other != doc ==>
              LiveIds(AssetsAfter(t, doc, generation, a), other) == LiveIds(t.assets, other)
  {
    AssetRows(t, doc, generation, a);
  }

  predicate ChannelFailed(a: Attempt, s: Settings, c: Channel) {
    match c
    case ELASTICSEARCH => s.esEnabled && !a.esOk
    case GRAPH => s.graphEnabled && !a.graphOk
  }

  predicate Required(s: Settings, c: Channel) {
    match c
    case ELASTICSEARCH => s.esRequired
    case GRAPH => s.graphRequired
  }

  /** Every channel that failed gets one repair job, no other does, and only optional ones can. */
  lemma {:induction false} RepairsQueued(t: Tables, doc: DocId, generation: Generation, a: Attempt, s: Settings)
    requires |a.ids| == |a.contents| && a.contents != [] && Succeeds(a, s)
    ensures var more := RepairJobs(doc, generation, a, s);
            && Switched(t, doc, generation, a, s).jobs == t.jobs + more && Distinct(more)
            && (forall c :: Job(doc, generation, c) in more <==> ChannelFailed(a, s, c))
            && (forall job :: job in more ==>
                 job.doc == doc && job.generation == generation && !Required(s, job.channel))
  {
    forall c ensures Job(doc, generation, c) in RepairJobs(doc, generation, a, s) <==> ChannelFailed(a, s, c) {
      if c == GRAPH && ChannelFailed(a, s, c) {
        var more := RepairJobs(doc, generation, a, s);
        assert more[|more| - 1] == Job(doc, generation, GRAPH);
      }
    }
  }

  /** The count that is kept with a document is that of its live chunks, unless an empty run left old chunks live
      or the generation was live before. */
  lemma {:induction false} CountIsTrueExactly(t: Tables, vectors: set<Id>, doc: DocId, generation: Generation,
                                              a: Attempt, s: Settings)
    requires Fits(a, t, doc, generation) && doc in t.docs && Succeeds(a, s) && a.committed
    ensures var now := Ingested(t, vectors, doc, generation, a, s).0;
            now.docs[doc].chunkCount == |LiveIds(now.chunks, doc)|
            <==> if a.contents == [] then LiveIds(t.chunks, doc) == {}
              else LiveOfGeneration(t.chunks, doc, generation) == {}
  {
    if a.contents != [] {
      LiveAfterSwitch(t, doc, generation, a);
      DistinctSize(a.ids);
      var same := LiveOfGeneration(t.chunks, doc, generation);
      assert |Elements(a.ids) + same| == |Elements(a.ids)| + |same|;
    }
  }

  // ---- All runs --------------------------------------------------------------------------------

  /** What is live carries the active generation of its document, and every live chunk has a vector. */
  ghost predicate Consistent(t: Tables, vectors: set<Id>) {
    && (forall id :: id in t.chunks && Live(t.chunks[id]) ==> id in vectors && Current(t.docs, t.chunks[id]))
    && (forall id :: id in t.assets && Live(t.assets[id]) ==> Current(t.docs, t.assets[id]))
  }

  predicate Current(docs: map<DocId, Doc>, row: Row) {
    row.doc in docs ==> row.generation == docs[row.doc].active
  }

  /** Empty tables are where runs may start. */
  lemma {:induction false} EmptyConsistent()
    ensures var t := Tables(map[], map[], map[], []); Consistent(t, {}) && PendingUnused(t)
  {
  }

  /** A generation that is still to come has no rows yet. */
  ghost predicate PendingUnused(t: Tables) {
    forall doc :: doc in t.docs && t.docs[doc].pending.Some? ==> Unused(t, doc, t.docs[doc].pending.value)
  }

  /** A job is queued with a generation of its own; a request runs at once, under the pending generation if there is
      one. Runs of a document that overlap wait for each other from the update of its row on, so that only what they
      read before can be out of date: a late request has read the pending generation before others committed. */
  datatype Step = Enqueue(doc: DocId, generation: Generation)
                | Request(doc: DocId, generation: Generation, a: Attempt)
                | LateRequest(doc: DocId, generation: Generation, seen: Option<Generation>, a: Attempt)
                | RunJob(doc: DocId, generation: Generation, a: Attempt)

  function GenerationFor(t: Tables, step: Step): Generation
    requires step.doc in t.docs
  {
    match step
    case Request(doc, generation, _) => ChosenGeneration(t, doc, generation)
    case LateRequest(_, generation, Some(seen), _) => seen
    case _ => step.generation
  }

  predicate MakesUp(step: Step) {
    !step.RunJob? && (step.LateRequest? ==> step.seen.None?)
  }

  /** Generations that are made up are new. A job brings the one it was queued with. */
  ghost predicate May(t: Tables, step: Step) {
    && step.doc in t.docs
    && (MakesUp(step) ==> Unused(t, step.doc, step.generation))
    && (!step.Enqueue? ==> Fits(step.a, t, step.doc, GenerationFor(t, step)))
  }

  function Next(t: Tables, vectors: set<Id>, step: Step, s: Settings): (Tables, set<Id>)
    requires step.doc in t.docs && (!step.Enqueue? ==> |step.a.ids| == |step.a.contents|)
  {
    match step
    case Enqueue(doc, generation) => (Pending(t, doc, generation), vectors)
    case RunJob(doc, generation, a) => Ingested(t, vectors, doc, generation, a, s)
    case Request(doc, generation, a) => Requested(t, vectors, doc, generation, a, s)
    case LateRequest(doc, generation, seen, a) => RequestedLate(t, vectors, doc, generation, seen, a, s)
  }

  /** A pending generation that was read is not written again. */
  function RequestedLate(t: Tables, vectors: set<Id>, doc: DocId, made: Generation, seen: Option<Generation>,
                         a: Attempt, s: Settings): (Tables, set<Id>)
    requires |a.ids| == |a.contents| && doc in t.docs
  {
    match seen
    case Some(generation) => Ingested(t, vectors, doc, generation, a, s)
    case None =>
      var (now, vectors') := Ingested(Pending(t, doc, made), vectors, doc, made, a, s);
      (if Succeeds(a, s) && a.committed then now else t, vectors')
  }

  /** A request that is not overtaken is no different from one that is handled at once. */
  lemma {:induction false} LateIsRequest(t: Tables, vectors: set<Id>, doc: DocId, made: Generation, a: Attempt,
                                         s: Settings)
    requires doc in t.docs && |a.ids| == |a.contents|
    ensures RequestedLate(t, vectors, doc, made, t.docs[doc].pending, a, s) == Requested(t, vectors, doc, made, a, s)
  {
    if t.docs[doc].pending.Some? {
      var docs := t.docs[doc := t.docs[doc].(pending := Some(t.docs[doc].pending.value))];
      assert docs == t.docs;
    }
  }

  lemma {:induction false} PendingKeeps(t: Tables, vectors: set<Id>, doc: DocId, generation: Generation)
    requires Consistent(t, vectors) && PendingUnused(t) && doc in t.docs && Unused(t, doc, generation)
    ensures Consistent(Pending(t, doc, generation), vectors) && PendingUnused(Pending(t, doc, generation))
  {
    var now := Pending(t, doc, generation);
    forall d | d in now.docs && now.docs[d].pending.Some? ensures Unused(now, d, now.docs[d].pending.value) {
      assert d != doc ==> Unused(t, d, t.docs[d].pending.value);
    }
  }

  lemma {:induction false} SwitchKeepsChunks(t: Tables, vectors: set<Id>, doc: DocId, generation: Generation,
                                             a: Attempt, s: Settings)
    requires Fits(a, t, doc, generation) && Consistent(t, vectors) && a.inserted == Elements(a.ids)
    ensures var now := Switched(t, doc, generation, a, s);
            forall id :: id in now.chunks && Live(now.chunks[id]) ==>
              id in vectors + a.inserted && Current(now.docs, now.chunks[id])
  {
    ChunkRows(t, doc, generation, a);
    var now := Switched(t, doc, generation, a, s);
    forall id | id in now.chunks && Live(now.chunks[id])
      ensures id in vectors + a.inserted && Current(now.docs, now.chunks[id])
    {
      if id in Elements(a.ids) {
        var i :| 0 <= i < |a.ids| && a.ids[i] == id;
      } else {
        assert !Outdated(t.chunks[id], doc, generation);
      }
    }
  }

  lemma {:induction false} SwitchKeepsAssets(t: Tables, vectors: set<Id>, doc: DocId, generation: Generation,
                                             a: Attempt, s: Settings)
    requires Fits(a, t, doc, generation) && Consistent(t, vectors)
    ensures var now := Switched(t, doc, generation, a, s);
            forall id :: id in now.assets && Live(now.assets[id]) ==> Current(now.docs, now.assets[id])
  {
    var now := Switched(t, doc, generation, a, s);
    var mid := t.assets + NewAssets(doc, generation, a.saved);
    forall id | id in now.assets && Live(now.assets[id]) ensures Current(now.docs, now.assets[id]) {
      if id !in a.saved && mid[id].doc == doc {
        assert mid[id] == t.assets[id];
        assert !Outdated(mid[id], doc, generation);
      }
    }
  }

  lemma {:induction false} ChunksKeepUnused(t: Tables, doc: DocId, generation: Generation, a: Attempt, d: DocId,
                                            g: Generation)
    requires Fits(a, t, doc, generation) && d != doc && Unused(t, d, g)
    ensures var rows := ChunksAfter(t, doc, generation, a);
            forall id :: id in rows && rows[id].doc == d ==> rows[id].generation != g
  {
    ChunkRows(t, doc, generation, a);
    var rows := ChunksAfter(t, doc, generation, a);
    forall id | id in rows && rows[id].doc == d ensures rows[id].generation != g {
      assert id !in Elements(a.ids);
    }
  }

  lemma {:induction false} AssetsKeepUnused(t: Tables, doc: DocId, generation: Generation, a: Attempt, d: DocId,
                                            g: Generation)
    requires d != doc && Unused(t, d, g)
    ensures var rows := AssetsAfter(t, doc, generation, a);
            forall id :: id in rows && rows[id].doc == d ==> rows[id].generation != g
  {
    var mid := t.assets + NewAssets(doc, generation, a.saved);
    assert forall id :: id in mid && mid[id].doc == d ==> id !in a.saved && mid[id] == t.assets[id];
  }

  lemma {:induction false} SwitchKeepsUnused(t: Tables, doc: DocId, generation: Generation, a: Attempt, s: Settings,
                                             d: DocId, g: Generation)
    requires Fits(a, t, doc, generation) && d != doc && Unused(t, d, g)
    ensures Unused(Switched(t, doc, generation, a, s), d, g)
  {
    ChunksKeepUnused(t, doc, generation, a, d, g);
    AssetsKeepUnused(t, doc, generation, a, d, g);
  }

  lemma {:induction false} SwitchKeepsPending(t: Tables, doc: DocId, generation: Generation, a: Attempt, s: Settings)
    requires Fits(a, t, doc, generation) && PendingUnused(t) && doc in t.docs
    ensures PendingUnused(Switched(t, doc, generation, a, s))
  {
    var now := Switched(t, doc, generation, a, s);
    forall d | d in now.docs && now.docs[d].pending.Some? ensures Unused(now, d, now.docs[d].pending.value) {
      SwitchKeepsUnused(t, doc, generation, a, s, d, t.docs[d].pending.value);
    }
  }

  lemma {:induction false} CountKeeps(t: Tables, vectors: set<Id>, doc: DocId, count: nat)
    requires Consistent(t, vectors) && PendingUnused(t)
    ensures var now := t.(docs := Counted(t.docs, doc, count)); Consistent(now, vectors) && PendingUnused(now)
  {
    var now := t.(docs := Counted(t.docs, doc, count));
    forall d | d in now.docs && now.docs[d].pending.Some? ensures Unused(now, d, now.docs[d].pending.value) {
      assert Unused(t, d, t.docs[d].pending.value);
    }
  }

  lemma {:induction false} MoreVectors(t: Tables, vectors: set<Id>, more: set<Id>)
    requires Consistent(t, vectors) && vectors <= more
    ensures Consistent(t, more)
  {
  }

  lemma {:induction false} IngestedKeeps(t: Tables, vectors: set<Id>, doc: DocId, generation: Generation, a: Attempt,
                                         s: Settings)
    requires Consistent(t, vectors) && PendingUnused(t) && doc in t.docs && Fits(a, t, doc, generation)
    ensures var (now, vectors') := Ingested(t, vectors, doc, generation, a, s);
            Consistent(now, vectors') && PendingUnused(now)
  {
    MoreVectors(t, vectors, VectorsAfter(vectors, a, s));
    if Succeeds(a, s) && a.committed {
      if a.contents == [] {
        CountKeeps(t, vectors, doc, 0);
      } else {
        SwitchKeepsChunks(t, vectors, doc, generation, a, s);
        SwitchKeepsAssets(t, vectors, doc, generation, a, s);
        SwitchKeepsPending(t, doc, generation, a, s);
      }
    }
  }

  /** A request always works under a generation that has no rows. */
  lemma {:induction false} RequestIsFresh(t: Tables, step: Step)
    requires PendingUnused(t) && step.Request? && May(t, step)
    ensures Unused(t, step.doc, GenerationFor(t, step))
  {
  }

  lemma {:induction false} StepKeeps(t: Tables, vectors: set<Id>, step: Step, s: Settings)
    requires Consistent(t, vectors) && PendingUnused(t) && May(t, step)
    ensures var (now, vectors') := Next(t, vectors, step, s); Consistent(now, vectors') && PendingUnused(now)
  {
    match step
    case Enqueue(doc, generation) => PendingKeeps(t, vectors, doc, generation);
    case RunJob(doc, generation, a) => IngestedKeeps(t, vectors, doc, generation, a, s);
    case Request(doc, _, a) =>
      var generation := GenerationFor(t, step);
      RequestIsFresh(t, step);
      PendingKeeps(t, vectors, doc, generation);
      IngestedKeeps(Pending(t, doc, generation), vectors, doc, generation, a, s);
      MoreVectors(t, vectors, VectorsAfter(vectors, a, s));
    case LateRequest(doc, _, Some(seen), a) => IngestedKeeps(t, vectors, doc, seen, a, s);
    case LateRequest(doc, made, None, a) =>
      PendingKeeps(t, vectors, doc, made);
      IngestedKeeps(Pending(t, doc, made), vectors, doc, made, a, s);
      MoreVectors(t, vectors, VectorsAfter(vectors, a, s));
  }

  ghost predicate MayAll(t: Tables, vectors: set<Id>, steps: seq<Step>, s: Settings)
    decreases |steps|
  {
    steps == [] || (May(t, steps[0]) && var (now, v) := Next(t, vectors, steps[0], s); MayAll(now, v, steps[1..], s))
  }

  ghost function NextAll(t: Tables, vectors: set<Id>, steps: seq<Step>, s: Settings): (Tables, set<Id>)
    requires MayAll(t, vectors, steps, s)
    decreases |steps|
  {
    if steps == [] then (t, vectors)
    else var (now, v) := Next(t, vectors, steps[0], s); NextAll(now, v, steps[1..], s)
  }

  /** Whatever succeeds or fails, in every run what is live is current and indexed. */
  lemma {:induction false} RunsKeepConsistent(t: Tables, vectors: set<Id>, steps: seq<Step>, s: Settings)
    requires Consistent(t, vectors) && PendingUnused(t) && MayAll(t, vectors, steps, s)
    ensures var (now, v) := NextAll(t, vectors, steps, s); Consistent(now, v) && PendingUnused(now)
    decreases |steps|
  {
    if steps != [] {
      StepKeeps(t, vectors, steps[0], s);
      var (now, v) := Next(t, vectors, steps[0], s);
      RunsKeepConsistent(now, v, steps[1..], s);
    }
  }

  /** In every run a request is all or nothing: it leaves the tables alone, or its chunks and assets alone are live. */
  lemma {:induction false} RequestSwitchesOrNothing(t: Tables, vectors: set<Id>, steps: seq<Step>, step: Step,
                                                    s: Settings)
    requires Consistent(t, vectors) && PendingUnused(t) && MayAll(t, vectors, steps, s)
    requires var (before, _) := NextAll(t, vectors, steps, s); step.Request? && May(before, step)
    ensures var (before, v) := NextAll(t, vectors, steps, s);
            var (after, _) := Next(before, v, step, s);
            var (doc, a) := (step.doc, step.a);
            if !Succeeds(a, s) || !a.committed then after == before
            else if a.contents == [] then after.chunks == before.chunks && after.assets == before.assets
            else && LiveIds(after.chunks, doc) == Elements(a.ids) && LiveIds(after.assets, doc) == a.saved
                 && after.docs[doc] == Doc(GenerationFor(before, step), None, |a.ids|)
  {
    RunsKeepConsistent(t, vectors, steps, s);
    var (before, v) := NextAll(t, vectors, steps, s);
    var generation := GenerationFor(before, step);
    RequestIsFresh(before, step);
    if Succeeds(step.a, s) && step.a.committed && step.a.contents != [] {
      var pending := Pending(before, step.doc, generation);
      ExactlyTheNewChunks(pending, step.doc, generation, step.a, s);
      LiveAssetsAfterSwitch(pending, step.doc, generation, step.a);
    }
  }

  /** A late request makes exactly its own chunks live if and only if no chunk is live under the generation that it read
      as pending, or that it made up. */
  lemma {:induction false} LateRequestExactly(t: Tables, vectors: set<Id>, step: Step, s: Settings)
    requires step.LateRequest? && May(t, step) && step.a.contents != [] && Succeeds(step.a, s) && step.a.committed
    ensures LiveIds(Next(t, vectors, step, s).0.chunks, step.doc) == Elements(step.a.ids)
            <==> LiveOfGeneration(t.chunks, step.doc, GenerationFor(t, step)) == {}
  {
    if step.seen.Some? {
      ExactlyTheNewChunks(t, step.doc, step.seen.value, step.a, s);
    } else {
      ExactlyTheNewChunks(Pending(t, step.doc, step.generation), step.doc, step.generation, step.a, s);
    }
  }

  /** A run under a generation that is live already leaves the old chunks live beside the new ones, and counts only
      these. */
  lemma {:induction false} SameGenerationDoubles(t: Tables, vectors: set<Id>, doc: DocId, generation: Generation,
                                                 a: Attempt, s: Settings)
    requires Fits(a, t, doc, generation) && doc in t.docs && a.contents != [] && Succeeds(a, s) && a.committed
    requires LiveOfGeneration(t.chunks, doc, generation) == LiveIds(t.chunks, doc) != {}
    ensures var now := Ingested(t, vectors, doc, generation, a, s).0;
            && LiveIds(now.chunks, doc) == Elements(a.ids) + LiveIds(t.chunks, doc)
            && |LiveIds(now.chunks, doc)| > now.docs[doc].chunkCount
  {
    LiveAfterSwitch(t, doc, generation, a);
    DistinctSize(a.ids);
    var live := LiveIds(t.chunks, doc);
    assert |Elements(a.ids) + live| == |Elements(a.ids)| + |live|;
  }

  /** This happens: a request takes the generation of a job that is still queued, and then the job runs. */
  lemma {:induction false} RequestThenJobDoubles(t: Tables, vectors: set<Id>, doc: DocId, generation: Generation,
                                                 a: Attempt, b: Attempt, s: Settings, between: Tables, v: set<Id>)
    requires doc in t.docs && PendingUnused(t) && t.docs[doc].pending == Some(generation)
    requires Fits(a, t, doc, generation) && a.contents != [] && Succeeds(a, s) && a.committed
    requires (between, v) == Next(t, vectors, Request(doc, generation, a), s)
    requires Fits(b, between, doc, generation) && b.contents != [] && Succeeds(b, s) && b.committed
    ensures doc in between.docs
    ensures var after := Next(between, v, RunJob(doc, generation, b), s).0;
            && LiveIds(after.chunks, doc) == Elements(b.ids) + Elements(a.ids)
            && |LiveIds(after.chunks, doc)| > after.docs[doc].chunkCount
  {
    RequestMakesLive(t, vectors, doc, generation, a, s);
    JobDoubles(between, v, doc, generation, b, s, Elements(a.ids));
  }

  lemma {:induction false} JobDoubles(t: Tables, vectors: set<Id>, doc: DocId, generation: Generation, b: Attempt,
                                      s: Settings, live: set<Id>)
    requires Fits(b, t, doc, generation) && doc in t.docs && b.contents != [] && Succeeds(b, s) && b.committed
    requires LiveOfGeneration(t.chunks, doc, generation) == LiveIds(t.chunks, doc) == live != {}
    ensures var after := Next(t, vectors, RunJob(doc, generation, b), s).0;
            && LiveIds(after.chunks, doc) == Elements(b.ids) + live
            && |LiveIds(after.chunks, doc)| > after.docs[doc].chunkCount
  {
    SameGenerationDoubles(t, vectors, doc, generation, b, s);
  }

  lemma {:induction false} FreshMakesLive(t: Tables, doc: DocId, generation: Generation, a: Attempt)
    requires Fits(a, t, doc, generation) && Unused(t, doc, generation)
    ensures var now := ChunksAfter(t, doc, generation, a);
            LiveIds(now, doc) == LiveOfGeneration(now, doc, generation) == Elements(a.ids)
  {
    LiveAfterSwitch(t, doc, generation, a);
    var now := ChunksAfter(t, doc, generation, a);
    assert LiveOfGeneration(t.chunks, doc, generation) == {};
    forall id | id in Elements(a.ids) ensures now[id].generation == generation {
      NewIdRow(t, doc, generation, a, id);
    }
    assert LiveOfGeneration(now, doc, generation) == Elements(a.ids);
  }

  lemma {:induction false} RequestMakesLive(t: Tables, vectors: set<Id>, doc: DocId, generation: Generation, a: Attempt,
                                            s: Settings)
    requires doc in t.docs && PendingUnused(t) && t.docs[doc].pending == Some(generation)
    requires Fits(a, t, doc, generation) && a.contents != [] && Succeeds(a, s) && a.committed
    ensures var between := Next(t, vectors, Request(doc, generation, a), s).0;
            && doc in between.docs && Elements(a.ids) != {}
            && LiveIds(between.chunks, doc) == LiveOfGeneration(between.chunks, doc, generation) == Elements(a.ids)
  {
    assert Unused(t, doc, generation);
    FreshMakesLive(Pending(t, doc, generation), doc, generation, a);
    assert a.ids[0] in Elements(a.ids);
  }

  /** This happens, too: two requests that overlap read the same pending generation, and their chunks are live side by
      side. */
  lemma {:induction false} OverlappingRequestsDouble(t: Tables, vectors: set<Id>, doc: DocId, generation: Generation,
                                                     a: Attempt, b: Attempt, s: Settings, between: Tables, v: set<Id>)
    requires doc in t.docs && PendingUnused(t) && t.docs[doc].pending == Some(generation)
    requires Fits(a, t, doc, generation) && a.contents != [] && Succeeds(a, s) && a.committed
    requires (between, v) == Next(t, vectors, LateRequest(doc, generation, Some(generation), a), s)
    requires Fits(b, between, doc, generation) && b.contents != [] && Succeeds(b, s) && b.committed
    ensures doc in between.docs
    ensures var after := Next(between, v, LateRequest(doc, generation, Some(generation), b), s).0;
            && LiveIds(after.chunks, doc) == Elements(b.ids) + Elements(a.ids)
            && |LiveIds(after.chunks, doc)| > after.docs[doc].chunkCount
  {
    LateMakesLive(t, vectors, doc, generation, a, s);
    LateDoubles(between, v, doc, generation, b, s, Elements(a.ids));
  }

  lemma {:induction false} LateDoubles(t: Tables, vectors: set<Id>, doc: DocId, generation: Generation, b: Attempt,
                                       s: Settings, live: set<Id>)
    requires Fits(b, t, doc, generation) && doc in t.docs && b.contents != [] && Succeeds(b, s) && b.committed
    requires LiveOfGeneration(t.chunks, doc, generation) == LiveIds(t.chunks, doc) == live != {}
    ensures var after := Next(t, vectors, LateRequest(doc, generation, Some(generation), b), s).0;
            && LiveIds(after.chunks, doc) == Elements(b.ids) + live
            && |LiveIds(after.chunks, doc)| > after.docs[doc].chunkCount
  {
    SameGenerationDoubles(t, vectors, doc, generation, b, s);
  }

  lemma {:induction false} LateMakesLive(t: Tables, vectors: set<Id>, doc: DocId, generation: Generation, a: Attempt,
                                         s: Settings)
    requires doc in t.docs && PendingUnused(t) && t.docs[doc].pending == Some(generation)
    requires Fits(a, t, doc, generation) && a.contents != [] && Succeeds(a, s) && a.committed
    ensures var between := Next(t, vectors, LateRequest(doc, generation, Some(generation), a), s).0;
            && doc in between.docs && Elements(a.ids) != {}
            && LiveIds(between.chunks, doc) == LiveOfGeneration(between.chunks, doc, generation) == Elements(a.ids)
  {
    LateIsRequest(t, vectors, doc, generation, a, s);
    RequestMakesLive(t, vectors, doc, generation, a, s);
  }

  // ---- What a run depends on -------------------------------------------------------------------

  /** Saving new rows makes none of them live. */
  lemma {:induction false} SavedIsNotLive(t: Tables, doc: DocId, generation: Generation, a: Attempt, d: DocId)
    requires Fits(a, t, doc, generation)
    ensures LiveIds(t.chunks + NewChunks(doc, generation, a.ids, a.contents), d) == LiveIds(t.chunks, d)
    ensures forall id :: id in a.saved ==> !Live(NewAssets(doc, generation, a.saved)[id])
  {
    NewChunksKeys(doc, generation, a.ids, a.contents);
    NewChunksWait(doc, generation, a.ids, a.contents);
  }

  lemma {:induction false} NewChunksWait(doc: DocId, generation: Generation, ids: seq<Id>, contents: seq<string>)
    requires |ids| == |contents|
    ensures forall id :: id in NewChunks(doc, generation, ids, contents) ==>
              !Live(NewChunks(doc, generation, ids, contents)[id])
  {
    if ids != [] {
      NewChunksWait(doc, generation, ids[..|ids| - 1], contents[..|ids| - 1]);
    }
  }

  /** An attempt succeeds exactly if all that it needs works: with no chunks parsing alone, and otherwise all but
      optional channels and optional assets. */
  lemma {:induction false} SucceedsExactly(a: Attempt, s: Settings)
    ensures Succeeds(a, s) <==>
              && a.parsed
              && (a.contents != [] ==>
                    && a.embedded && a.flushed && a.insertOk && a.activated && (s.assetsRequired ==> a.assetsOk)
                    && forall c :: ChannelFailed(a, s, c) ==> !Required(s, c))
  {
    if a.contents != [] && (forall c :: ChannelFailed(a, s, c) ==> !Required(s, c)) {
      assert ChannelFailed(a, s, ELASTICSEARCH) ==> !Required(s, ELASTICSEARCH);
      assert ChannelFailed(a, s, GRAPH) ==> !Required(s, GRAPH);
    }
  }
}
