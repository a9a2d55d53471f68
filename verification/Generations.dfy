/** Ingesting a document: new chunks are saved aside, indexed, and then switched live in place of the old generation. */
module Generations {
  import opened Finite
  import opened Options

  type Id = string
  type DocId = string
  type Generation = string

  datatype Status = PENDING | ACTIVE | SUPERSEDED

  /** A row of the chunk table or of the asset table. */
  datatype Row = Row(doc: DocId, generation: Generation, status: Status, deleted: bool, content: string)

  datatype Doc = Doc(active: Generation, pending: Option<Generation>, chunkCount: nat)

  datatype Channel = ELASTICSEARCH | GRAPH

  datatype Job = Job(doc: DocId, generation: Generation, channel: Channel)

  /** The tables of the database. */
  datatype Tables = Tables(chunks: map<Id, Row>, assets: map<Id, Row>, docs: map<DocId, Doc>, jobs: seq<Job>)

  datatype Settings = Settings(assetsRequired: bool, esEnabled: bool, esRequired: bool, graphEnabled: bool,
                               graphRequired: bool)

  /** What the services around one ingestion do. `saved` and `inserted` are what reached the stores even if the call
      failed. */
  datatype Attempt = Attempt(parsed: bool, contents: seq<string>, embedded: bool, saved: set<Id>, assetsOk: bool,
                             flushed: bool, ids: seq<Id>, inserted: set<Id>, insertOk: bool, esOk: bool, graphOk: bool,
                             activated: bool, committed: bool)

  predicate Live(row: Row) {
    row.status == ACTIVE && !row.deleted
  }

  function LiveIds(rows: map<Id, Row>, doc: DocId): set<Id> {
    set id | id in rows && rows[id].doc == doc && Live(rows[id])
  }

  /** Chunk ids are new; asset ids are made from document, generation and content. */
  ghost predicate Fits(a: Attempt, t: Tables, doc: DocId, generation: Generation) {
    && |a.ids| == |a.contents| && Distinct(a.ids) && (forall id :: id in a.ids ==> id !in t.chunks)
    && (forall id :: id in a.saved && id in t.assets ==>
         t.assets[id].doc == doc && t.assets[id].generation == generation)
    && a.inserted <= Elements(a.ids) && (a.insertOk ==> a.inserted == Elements(a.ids))
  }

  // ---- The specification -----------------------------------------------------------------------

  predicate IndexesOk(a: Attempt, s: Settings) {
    (s.esEnabled && s.esRequired ==> a.esOk) && (s.graphEnabled && s.graphRequired ==> a.graphOk)
  }

  predicate AssetsOk(a: Attempt, s: Settings) {
    a.assetsOk || !s.assetsRequired
  }

  /** The attempt comes to its vectors. */
  predicate Inserts(a: Attempt, s: Settings) {
    a.parsed && a.contents != [] && a.embedded && AssetsOk(a, s) && a.flushed
  }

  predicate Succeeds(a: Attempt, s: Settings) {
    a.parsed && (a.contents == [] || (Inserts(a, s) && a.insertOk && IndexesOk(a, s) && a.activated))
  }

  function Retire(row: Row): Row {
    row.(status := SUPERSEDED, deleted := true)
  }

  predicate Outdated(row: Row, doc: DocId, generation: Generation) {
    row.doc == doc && row.generation != generation && Live(row)
  }

  predicate Waiting(row: Row, doc: DocId, generation: Generation) {
    row.doc == doc && row.generation == generation && row.status == PENDING && !row.deleted
  }

  function Retired(rows: map<Id, Row>, doc: DocId, generation: Generation): map<Id, Row> {
    map id | id in rows :: if Outdated(rows[id], doc, generation) then Retire(rows[id]) else rows[id]
  }

  function Activated(rows: map<Id, Row>, ids: set<Id>): map<Id, Row> {
    map id | id in rows :: if id in ids then rows[id].(status := ACTIVE) else rows[id]
  }

  function WaitingIds(rows: map<Id, Row>, doc: DocId, generation: Generation): set<Id> {
    set id | id in rows && Waiting(rows[id], doc, generation)
  }

  function NewChunks(doc: DocId, generation: Generation, ids: seq<Id>, contents: seq<string>): map<Id, Row>
    requires |ids| == |contents|
  {
    if ids == [] then map[]
    else
      var n := |ids| - 1;
      NewChunks(doc, generation, ids[..n], contents[..n])[ids[n] := Row(doc, generation, PENDING, false, contents[n])]
  }

  function NewAssets(doc: DocId, generation: Generation, saved: set<Id>): map<Id, Row> {
    map id | id in saved :: Row(doc, generation, PENDING, false, "")
  }

  function RepairJobs(doc: DocId, generation: Generation, a: Attempt, s: Settings): seq<Job> {
    (if s.esEnabled && !a.esOk then [Job(doc, generation, ELASTICSEARCH)] else [])
    + if s.graphEnabled && !a.graphOk then [Job(doc, generation, GRAPH)] else []
  }

  function ChunksAfter(t: Tables, doc: DocId, generation: Generation, a: Attempt): map<Id, Row>
    requires |a.ids| == |a.contents|
  {
    Activated(Retired(t.chunks + NewChunks(doc, generation, a.ids, a.contents), doc, generation), Elements(a.ids))
  }

  function AssetsAfter(t: Tables, doc: DocId, generation: Generation, a: Attempt): map<Id, Row> {
    var rows := Retired(t.assets + NewAssets(doc, generation, a.saved), doc, generation);
    Activated(rows, WaitingIds(rows, doc, generation))
  }

  function Counted(docs: map<DocId, Doc>, doc: DocId, count: nat): map<DocId, Doc> {
    if doc in docs then docs[doc := docs[doc].(chunkCount := count)] else docs
  }

  /** The tables after the switch alone, when the new rows are in place. */
  function SwitchedOver(t: Tables, doc: DocId, generation: Generation, ids: seq<Id>, esOk: bool,
                        graphOk: bool): Tables {
    var rows := Retired(t.assets, doc, generation);
    Tables(Activated(Retired(t.chunks, doc, generation), Elements(ids)),
           Activated(rows, WaitingIds(rows, doc, generation)),
           if doc in t.docs then t.docs[doc := t.docs[doc].(active := generation, pending := None)] else t.docs,
           t.jobs + (if esOk then [] else [Job(doc, generation, ELASTICSEARCH)])
           + if graphOk then [] else [Job(doc, generation, GRAPH)])
  }

  /** The tables with the rows of an attempt, before the switch. */
  function Prepared(t: Tables, doc: DocId, generation: Generation, a: Attempt): Tables
    requires |a.ids| == |a.contents|
  {
    t.(chunks := t.chunks + NewChunks(doc, generation, a.ids, a.contents),
       assets := t.assets + NewAssets(doc, generation, a.saved), docs := Counted(t.docs, doc, |a.contents|))
  }

  lemma {:induction false} SwitchIsPrepared(t: Tables, doc: DocId, generation: Generation, a: Attempt, s: Settings,
                                            esOk: bool, graphOk: bool)
    requires |a.ids| == |a.contents| && esOk == (s.esEnabled ==> a.esOk) && graphOk == (s.graphEnabled ==> a.graphOk)
    ensures SwitchedOver(Prepared(t, doc, generation, a), doc, generation, a.ids, esOk, graphOk)
              == Switched(t, doc, generation, a, s)
    ensures Counted(Switched(t, doc, generation, a, s).docs, doc, |a.contents|)
              == Switched(t, doc, generation, a, s).docs
  {
  }

  /** The tables after an attempt that succeeds with some chunks. */
  function Switched(t: Tables, doc: DocId, generation: Generation, a: Attempt, s: Settings): Tables
    requires |a.ids| == |a.contents|
  {
    Tables(ChunksAfter(t, doc, generation, a), AssetsAfter(t, doc, generation, a),
           if doc in t.docs then t.docs[doc := Doc(generation, None, |a.contents|)] else t.docs,
           t.jobs + RepairJobs(doc, generation, a, s))
  }

  function VectorsAfter(vectors: set<Id>, a: Attempt, s: Settings): set<Id> {
    if Inserts(a, s) then vectors + a.inserted else vectors
  }

  // ---- The pipeline ----------------------------------------------------------------------------

  /** `None` stands for an exception. */
  class IngestionPipeline {
    const settings: Settings
    var session: Tables
    var vectors: set<Id>

    constructor (settings: Settings, tables: Tables, vectors: set<Id>)
      ensures this.settings == settings && session == tables && this.vectors == vectors
    {
      this.settings, session, this.vectors := settings, tables, vectors;
    }

    method AddChunks(doc: DocId, generation: Generation, a: Attempt)
      requires |a.ids| == |a.contents|
      modifies this`session
      ensures session == old(session).(chunks := old(session).chunks + NewChunks(doc, generation, a.ids, a.contents))
    {
      for i := 0 to |a.ids|
        invariant session == old(session).(chunks := old(session).chunks
                                                     + NewChunks(doc, generation, a.ids[..i], a.contents[..i]))
      {
        assert a.ids[..i + 1][..i] == a.ids[..i] && a.contents[..i + 1][..i] == a.contents[..i];
        session := session.(chunks := session.chunks[a.ids[i] := Row(doc, generation, PENDING, false, a.contents[i])]);
      }
      assert a.ids[..|a.ids|] == a.ids && a.contents[..|a.ids|] == a.contents;
    }

    /** The two loops over the rows of an older generation. */
    method RetireOlder(rows: map<Id, Row>, doc: DocId, generation: Generation) returns (result: map<Id, Row>)
      ensures result == Retired(rows, doc, generation)
    {
      result := rows;
      var todo := set id | id in rows && Outdated(rows[id], doc, generation);
      while todo != {}
        invariant result.Keys == rows.Keys && todo <= rows.Keys
        invariant forall id :: id in todo ==> Outdated(rows[id], doc, generation)
        invariant forall id :: id in rows ==>
                    result[id] == if Outdated(rows[id], doc, generation) && id !in todo then Retire(rows[id])
                      else rows[id]
      {
        var id :| id in todo;
        result := result[id := Retire(result[id])];
        todo := todo - {id};
      }
    }

    method ActivateRows(rows: map<Id, Row>, ids: set<Id>) returns (result: map<Id, Row>)
      requires ids <= rows.Keys
      ensures result == Activated(rows, ids)
    {
      result := rows;
      var todo := ids;
      while todo != {}
        invariant result.Keys == rows.Keys && todo <= ids
        invariant forall id :: id in rows ==>
                    result[id] == if id in ids && id !in todo then rows[id].(status := ACTIVE) else rows[id]
      {
        var id :| id in todo;
        result := result[id := result[id].(status := ACTIVE)];
        todo := todo - {id};
      }
    }

    /** From saving the assets to the vectors. */
    method SaveAndInsert(doc: DocId, generation: Generation, a: Attempt) returns (ok: bool)
      requires |a.ids| == |a.contents|
      requires a.parsed && a.contents != [] && a.embedded
      modifies this
      ensures ok == (Inserts(a, settings) && a.insertOk) && vectors == VectorsAfter(old(vectors), a, settings)
      ensures ok ==>
                session == old(session).(chunks := old(session).chunks + NewChunks(doc, generation, a.ids, a.contents),
                                              assets := old(session).assets + NewAssets(doc, generation, a.saved))
    {
      session := session.(assets := session.assets + NewAssets(doc, generation, a.saved));
      if !a.assetsOk && settings.assetsRequired {
        return false;
      }
      AddChunks(doc, generation, a);
      if !a.flushed {
        return false;
      }
      vectors := vectors + a.inserted;
      ok := a.insertOk;
    }

    /** Retire the old generation, make the new one live, and queue a repair for each channel that failed. */
    method Activate(doc: DocId, generation: Generation, a: Attempt, esOk: bool, graphOk: bool)
      requires Elements(a.ids) <= session.chunks.Keys
      modifies this`session
      ensures session == SwitchedOver(old(session), doc, generation, a.ids, esOk, graphOk)
    {
      var chunks := RetireOlder(session.chunks, doc, generation);
      chunks := ActivateRows(chunks, set id | id in a.ids);
      var assets := RetireOlder(session.assets, doc, generation);
      assets := ActivateRows(assets, WaitingIds(assets, doc, generation));
      session := session.(chunks := chunks, assets := assets);
      if doc in session.docs {
        session := session.(docs := session.docs[doc := session.docs[doc].(active := generation, pending := None)]);
      }
      if !esOk {
        session := session.(jobs := session.jobs + [Job(doc, generation, ELASTICSEARCH)]);
      }
      if !graphOk {
        session := session.(jobs := session.jobs + [Job(doc, generation, GRAPH)]);
      }
    }

    /** The optional indexes; a required one that fails is an exception. */
    method IndexChannels(a: Attempt) returns (ok: bool, esOk: bool, graphOk: bool)
      ensures ok == IndexesOk(a, settings)
      ensures ok ==> esOk == (settings.esEnabled ==> a.esOk) && graphOk == (settings.graphEnabled ==> a.graphOk)
    {
      esOk, graphOk := true, true;
      if settings.esEnabled {
        esOk := a.esOk;
        if !esOk && settings.esRequired {
          return false, esOk, graphOk;
        }
      }
      if settings.graphEnabled {
        graphOk := a.graphOk;
        if !graphOk && settings.graphRequired {
          return false, esOk, graphOk;
        }
      }
      ok := true;
    }

    method CountChunks(doc: DocId, count: nat)
      modifies this`session
      ensures session == old(session).(docs := Counted(old(session).docs, doc, count))
    {
      if doc in session.docs {
        session := session.(docs := session.docs[doc := session.docs[doc].(chunkCount := count)]);
      }
    }

    method Run(doc: DocId, generation: Generation, a: Attempt) returns (count: Option<nat>)
      requires Fits(a, session, doc, generation)
      modifies this
      ensures count == if Succeeds(a, settings) then Some(|a.contents|) else None
      ensures vectors == VectorsAfter(old(vectors), a, settings)
      ensures count.Some? ==>
                session == if a.contents == [] then old(session)
                  else Switched(old(session), doc, generation, a, settings)
    {
      if !a.parsed {
        return None;
      }
      if a.contents == [] {
        return Some(0);
      }
      if !a.embedded {
        return None;
      }
      var inserted := SaveAndInsert(doc, generation, a);
      if !inserted {
        return None;
      }
      CountChunks(doc, |a.contents|);
      var indexed, esOk, graphOk := IndexChannels(a);
      if !indexed {
        return None;
      }
      NewChunksKeys(doc, generation, a.ids, a.contents);
      assert session == Prepared(old(session), doc, generation, a);
      SwitchIsPrepared(old(session), doc, generation, a, settings, esOk, graphOk);
      Activate(doc, generation, a, esOk, graphOk);
      if !a.activated {
        return None;
      }
      count := Some(|a.contents|);
    }

    /** A run within its transaction: a failure anywhere takes the tables back, but not the vectors. */
    method Ingest(doc: DocId, generation: Generation, a: Attempt) returns (count: Option<nat>)
      requires Fits(a, session, doc, generation) && doc in session.docs
      modifies this
      ensures (session, vectors) == Ingested(old(session), old(vectors), doc, generation, a, settings)
      ensures count == if Succeeds(a, settings) && a.committed then Some(|a.contents|) else None
    {
      var before := session;
      count := Run(doc, generation, a);
      if count.Some? {
        SwitchIsPrepared(old(session), doc, generation, a, settings,
                         settings.esEnabled ==> a.esOk, settings.graphEnabled ==> a.graphOk);
        CountChunks(doc, count.value);
      }
      if count.None? || !a.committed {
        session := before;
        count := None;
      }
    }

    /** Queueing a job reserves a generation for it. */
    method Enqueue(doc: DocId, generation: Generation)
      modifies this`session
      ensures session == Pending(old(session), doc, generation)
    {
      if doc in session.docs {
        session := session.(docs := session.docs[doc := session.docs[doc].(pending := Some(generation))]);
      }
    }

    /** A request that ingests at once, under the pending generation if there is one. */
    method IngestNow(doc: DocId, made: Generation, a: Attempt) returns (count: Option<nat>)
      requires doc in session.docs && Fits(a, session, doc, ChosenGeneration(session, doc, made))
      modifies this
      ensures (session, vectors) == Requested(old(session), old(vectors), doc, made, a, settings)
      ensures count == if Succeeds(a, settings) && a.committed then Some(|a.contents|) else None
    {
      var before := session;
      var generation := ChosenGeneration(session, doc, made);
      Enqueue(doc, generation);
      count := Ingest(doc, generation, a);
      if count.None? {
        session := before;
      }
    }
  }

  lemma {:induction false} NewChunksKeys(doc: DocId, generation: Generation, ids: seq<Id>, contents: seq<string>)
    requires |ids| == |contents|
    ensures NewChunks(doc, generation, ids, contents).Keys == Elements(ids)
  {
    if ids != [] {
      var n := |ids| - 1;
      NewChunksKeys(doc, generation, ids[..n], contents[..n]);
      assert ids == ids[..n] + [ids[n]];
    }
  }

  /** The tables and the vectors after one ingestion. */
  function Ingested(t: Tables, vectors: set<Id>, doc: DocId, generation: Generation, a: Attempt,
                    s: Settings): (Tables, set<Id>)
    requires |a.ids| == |a.contents| && doc in t.docs
  {
    (if !Succeeds(a, s) || !a.committed then t
     else if a.contents == [] then t.(docs := Counted(t.docs, doc, 0))
     else Switched(t, doc, generation, a, s),
     VectorsAfter(vectors, a, s))
  }

  function Pending(t: Tables, doc: DocId, generation: Generation): Tables {
    if doc in t.docs then t.(docs := t.docs[doc := t.docs[doc].(pending := Some(generation))]) else t
  }

  function ChosenGeneration(t: Tables, doc: DocId, made: Generation): Generation
    requires doc in t.docs
  {
    if t.docs[doc].pending.Some? then t.docs[doc].pending.value else made
  }

  /** The tables and the vectors after a request that ingests at once. */
  function Requested(t: Tables, vectors: set<Id>, doc: DocId, made: Generation, a: Attempt,
                     s: Settings): (Tables, set<Id>)
    requires |a.ids| == |a.contents| && doc in t.docs
  {
    var generation := ChosenGeneration(t, doc, made);
    var (now, vectors') := Ingested(Pending(t, doc, generation), vectors, doc, generation, a, s);
    (if Succeeds(a, s) && a.committed then now else t, vectors')
  }
}
