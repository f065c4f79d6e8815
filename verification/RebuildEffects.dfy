/** What an ingest and a rebuild leave in the tables, row by row: agentflow/knowledge/store.py. */
module RebuildEffects {

  import opened KnowledgeStores
  import opened Lists
  import IngestEffects
  import opened Options

  /** The ingest comes as far as the document row. */
  predicate Begun(r: Redo) {
    r.Reread? && !r.fault.AtParse?
  }

  /** The texts it writes rows for. */
  function RowTexts(r: Redo): seq<string>
    requires r.Reread?
  {
    if r.fault.AfterChunks? && r.fault.n < |r.texts| then r.texts[..r.fault.n] else r.texts
  }

  /** It comes back: there is nothing to index, or nothing goes wrong. */
  predicate ComesBack(e: Embedding, model: string, r: Redo) {
    && Begun(r)
    && (|| r.texts == []
        || r.fault.NoFault?
        || (r.fault.AfterChunks? && r.fault.n >= |r.texts|)
        || (r.fault.AtDimensionMeta? && e(model, r.texts[0]) == []))
  }

  /** Its rows stay: it comes back, it breaks between chunk rows, or its rollback fails. */
  predicate Stays(e: Embedding, model: string, r: Redo) {
    && Begun(r)
    && (ComesBack(e, model, r) || (r.fault.AfterChunks? && r.fault.n < |r.texts|) || r.rollbackFails)
  }

  /** `t` is `db` with a document `f` of these texts, numbered from the counters on. */
  ghost predicate HasDocument(db: Db, t: Db, f: string, texts: seq<string>) {
    && t.docs == db.docs[db.nextDoc := f]
    && HasChunkRows(db.chunks, t.chunks, db.nextChunk, db.nextDoc, texts, |texts|)
    && HasTextRows(db.fts, t.fts, db.nextChunk, texts, |texts|)
  }

  /** An ingest under another model than the recorded one is refused and changes nothing; an empty recorded
      name refuses none. */
  lemma OtherModelIsRefused(e: Embedding, s: Store, model: string, r: Redo)
    requires r.Reread?
    ensures ModelAccepted(s.db, model) <==> s.db.model in {None, Some(""), Some(model)}
    ensures s.db.model !in {None, Some(""), Some(model)} ==>
              AddDocument(e, s, model, r.filename, r.texts, r.fault, r.rollbackFails) == (s, false)
  {
  }

  /** What a rebuild starts from: no rows, no recorded model or dimension, the counters where they were, and
      of the old points those a failed reset left. */
  lemma ClearedIs(e: Embedding, s: Store, left: set<nat>)
    requires Sound(e, s)
    ensures var t := Cleared(s, left);
            && t.db == Db(map[], map[], map[], None, None, s.db.nextDoc, s.db.nextChunk)
            && (forall id :: id in t.vectors <==> id in s.vectors && id in left)
            && (forall id :: id in t.vectors ==> t.vectors[id] == s.vectors[id])
  {
    assert s.db.fts - s.db.chunks.Keys == map[];
  }

  /** What an ingest does to the tables, however it ends: its rows are there or the old ones are as before,
      and the counters have moved on either way. */
  lemma AddIs(e: Embedding, s: Store, model: string, r: Redo)
    requires Sound(e, s) && r.Reread? && ModelAccepted(s.db, model)
    ensures var (t, done) := AddDocument(e, s, model, r.filename, r.texts, r.fault, r.rollbackFails);
            && (done <==> ComesBack(e, model, r))
            && (Stays(e, model, r) ==> HasDocument(s.db, t.db, r.filename, RowTexts(r)))
            && (!Stays(e, model, r) ==> IngestEffects.SameRows(s.db, t.db))
            && t.db.nextDoc == s.db.nextDoc + (if Begun(r) then 1 else 0)
            && t.db.nextChunk == s.db.nextChunk + (if Begun(r) then |RowTexts(r)| else 0)
  {
    hide *;
    if !Begun(r) {
      NotBegun(e, s, model, r);
    } else if r.texts == [] {
      NothingToIndex(e, s, model, r);
    } else if r.fault.AfterChunks? && r.fault.n < |r.texts| {
      BrokenRows(e, s, model, r);
    } else {
      AllRows(e, s, model, r);
    }
  }

  lemma NotBegun(e: Embedding, s: Store, model: string, r: Redo)
    requires r.Reread? && !Begun(r)
    ensures AddDocument(e, s, model, r.filename, r.texts, r.fault, r.rollbackFails) == (s, false)
    ensures !ComesBack(e, model, r) && !Stays(e, model, r) && IngestEffects.SameRows(s.db, s.db)
  {
  }

  lemma NothingToIndex(e: Embedding, s: Store, model: string, r: Redo)
    requires Begun(r) && r.texts == [] && ModelAccepted(s.db, model)
    ensures AddDocument(e, s, model, r.filename, r.texts, r.fault, r.rollbackFails)
         == (s.(db := InsertDoc(s.db, r.filename)), true)
    ensures ComesBack(e, model, r) && Stays(e, model, r) && RowTexts(r) == []
    ensures HasDocument(s.db, InsertDoc(s.db, r.filename), r.filename, [])
    ensures InsertDoc(s.db, r.filename).nextDoc == s.db.nextDoc + 1
    ensures InsertDoc(s.db, r.filename).nextChunk == s.db.nextChunk
  {
    NoRows(s.db, s.db.nextDoc, []);
  }

  lemma BrokenRows(e: Embedding, s: Store, model: string, r: Redo)
    requires Begun(r) && r.fault.AfterChunks? && r.fault.n < |r.texts| && ModelAccepted(s.db, model)
    ensures var (t, done) := AddDocument(e, s, model, r.filename, r.texts, r.fault, r.rollbackFails);
            && !done && HasDocument(s.db, t.db, r.filename, RowTexts(r))
            && t.db.nextDoc == s.db.nextDoc + 1 && t.db.nextChunk == s.db.nextChunk + |RowTexts(r)|
    ensures !ComesBack(e, model, r) && Stays(e, model, r)
  {
    InsertChunksShape(InsertDoc(s.db, r.filename), s.db.nextDoc, r.texts, r.fault.n);
    hide InsertChunks, HasChunkRows, HasTextRows;
  }

  /** The guarded part touches nothing but points and meta rows. */
  lemma IndexKeepsRows(e: Embedding, s: Store, base: nat, model: string, texts: seq<string>, fault: Fault)
    requires texts != []
    ensures var (t, done) := IndexDocument(e, s, base, model, texts, fault);
            && t.db == s.db.(model := t.db.model, dimension := t.db.dimension)
            && (done <==> !fault.AtEmbed? && !fault.AtVectorAdd? && !fault.AtModelMeta?
                          && !(fault.AtDimensionMeta? && e(model, texts[0]) != []))
  {
    hide UpsertFirst, Range;
  }

  lemma AllRows(e: Embedding, s: Store, model: string, r: Redo)
    requires Sound(e, s) && Begun(r) && r.texts != [] && ModelAccepted(s.db, model)
    requires !(r.fault.AfterChunks? && r.fault.n < |r.texts|)
    ensures var (t, done) := AddDocument(e, s, model, r.filename, r.texts, r.fault, r.rollbackFails);
            && (done <==> ComesBack(e, model, r))
            && (Stays(e, model, r) ==> HasDocument(s.db, t.db, r.filename, RowTexts(r)))
            && (!Stays(e, model, r) ==> IngestEffects.SameRows(s.db, t.db))
            && t.db.nextDoc == s.db.nextDoc + 1 && t.db.nextChunk == s.db.nextChunk + |RowTexts(r)|
  {
    hide UpsertFirst, Range, IndexDocument, InsertChunks, Sound;
    var db := InsertChunks(InsertDoc(s.db, r.filename), s.db.nextDoc, r.texts, |r.texts|);
    InsertChunksShape(InsertDoc(s.db, r.filename), s.db.nextDoc, r.texts, |r.texts|);
    IndexKeepsRows(e, s.(db := db), s.db.nextChunk, model, r.texts, r.fault);
    IngestEffects.RollbackRestores(e, s, r.filename, r.texts, db.model);
    assert db.(model := db.model) == db;
    hide HasChunkRows, HasTextRows, ChunksOf;
  }

  // ---------------------------------------------------------------- points and the recorded model

  /** The texts whose points the index took before the ingest ended. */
  function Landed(r: Redo): set<nat>
    requires r.Reread?
  {
    if !Begun(r) || r.fault.AtEmbed? || (r.fault.AfterChunks? && r.fault.n < |r.texts|) then {}
    else if r.fault.AtVectorAdd? then r.fault.landed else Range(0, |r.texts|)
  }

  /** The ingest comes as far as recording the model. */
  predicate Records(r: Redo) {
    && Begun(r) && r.texts != []
    && !r.fault.AtEmbed? && !r.fault.AtVectorAdd? && !r.fault.AtModelMeta?
    && !(r.fault.AfterChunks? && r.fault.n < |r.texts|)
  }

  /** The points after an ingest, however it ends, are the old ones and those that landed, each the
      embedding of its own text; and the model is recorded exactly when the ingest came that far. */
  lemma AddPointsAre(e: Embedding, s: Store, model: string, r: Redo)
    requires r.Reread? && ModelAccepted(s.db, model)
    ensures var (t, done) := AddDocument(e, s, model, r.filename, r.texts, r.fault, r.rollbackFails);
            && HasPoints(e, s.vectors, t.vectors, s.db.nextChunk, model, r.texts, Landed(r), |r.texts|)
            && t.db.model == (if Records(r) then Some(model) else s.db.model)
            && t.db.dimension == (if done && r.texts != [] && e(model, r.texts[0]) != []
                                  then Some(|e(model, r.texts[0])|) else s.db.dimension)
  {
    hide InsertChunks, Range;
    if Begun(r) {
      InsertChunksShape(InsertDoc(s.db, r.filename), s.db.nextDoc, r.texts, |RowTexts(r)|);
    }
    UpsertShape(e, s.vectors, s.db.nextChunk, model, r.texts, Landed(r), |r.texts|);
    NothingUpserted(e, s.vectors, s.db.nextChunk, model, r.texts, {}, |r.texts|);
    UpsertShape(e, s.vectors, s.db.nextChunk, model, r.texts, {}, |r.texts|);
    hide UpsertFirst, HasPoints, HasRows;
  }

  /** A delete that failed leaves every point of other documents, and drops of its own what it says. */
  lemma FailedDeleteIs(s: Store, doc: nat, fault: DeleteFault, id: nat)
    requires fault.TablesRefuse? || (fault.IndexRefuses? && ChunksOf(s.db, doc) != {})
    ensures var t := DeleteDocument(s, doc, fault);
            && (id in t.vectors ==> id in s.vectors && t.vectors[id] == s.vectors[id])
            && (id in s.vectors && id !in t.vectors <==>
                  id in s.vectors && id in s.db.chunks && s.db.chunks[id].docId == doc
                  && (fault.IndexRefuses? ==> id in fault.dropped))
  {
  }

  // ---------------------------------------------------------------- the whole rebuild

  /** The id of the document that entry `n` writes: one for every ingest begun before it. */
  function DocAt(base: nat, redo: seq<Redo>, n: nat): nat
    requires n <= |redo|
  {
    if n == 0 then base else DocAt(base, redo, n - 1) + if Begun(redo[n - 1]) then 1 else 0
  }

  /** The id of its first chunk: one for every row written before it, rolled back or not. */
  function ChunkAt(base: nat, redo: seq<Redo>, n: nat): nat
    requires n <= |redo|
  {
    if n == 0 then base else ChunkAt(base, redo, n - 1) + if Begun(redo[n - 1]) then |RowTexts(redo[n - 1])| else 0
  }

  /** Document `id` is the one that entry `i`, of the first `n`, leaves. */
  ghost predicate IsDoc(e: Embedding, model: string, d: nat, redo: seq<Redo>, n: nat, i: nat, id: nat) {
    i < n <= |redo| && Stays(e, model, redo[i]) && id == DocAt(d, redo, i)
  }

  /** Chunk `id` is row `j` of that document. */
  ghost predicate IsRow(e: Embedding, model: string, c: nat, redo: seq<Redo>, n: nat, i: nat, j: nat, id: nat) {
    i < n <= |redo| && Stays(e, model, redo[i]) && j < |RowTexts(redo[i])| && id == ChunkAt(c, redo, i) + j
  }

  /** The documents are those the first `n` entries leave, and no others. */
  ghost predicate DocsAre(e: Embedding, model: string, d: nat, redo: seq<Redo>, n: nat, docs: map<nat, string>) {
    && (forall id: nat :: id in docs ==> exists i: nat :: IsDoc(e, model, d, redo, n, i, id))
    && (forall i: nat, id: nat :: IsDoc(e, model, d, redo, n, i, id) ==>
          id in docs && docs[id] == redo[i].filename)
  }

  /** Chunk `id` holds text `j` of entry `i`, under its document and in its place. */
  ghost predicate RowHolds(d: nat, redo: seq<Redo>, i: nat, j: nat, id: nat, chunks: map<nat, Chunk>) {
    && i < |redo| && redo[i].Reread? && j < |RowTexts(redo[i])|
    && id in chunks && chunks[id] == Chunk(DocAt(d, redo, i), RowTexts(redo[i])[j], j)
  }

  /** And so are the chunks, each text under its document and in its place. */
  ghost predicate RowsAre(e: Embedding, model: string, d: nat, c: nat, redo: seq<Redo>, n: nat,
                          chunks: map<nat, Chunk>) {
    && (forall id: nat :: id in chunks ==> exists i: nat, j: nat :: IsRow(e, model, c, redo, n, i, j, id))
    && (forall i: nat, j: nat, id: nat :: IsRow(e, model, c, redo, n, i, j, id) ==> RowHolds(d, redo, i, j, id, chunks))
  }

  lemma {:induction false} PlacesGrow(d: nat, c: nat, redo: seq<Redo>, i: nat, n: nat)
    requires i < n <= |redo|
    ensures d <= DocAt(d, redo, i) && c <= ChunkAt(c, redo, i)
    ensures DocAt(d, redo, i) + (if Begun(redo[i]) then 1 else 0) <= DocAt(d, redo, n)
    ensures ChunkAt(c, redo, i) + (if Begun(redo[i]) then |RowTexts(redo[i])| else 0) <= ChunkAt(c, redo, n)
    decreases n
  {
    hide RowTexts;
    if i > 0 && i == n - 1 {
      PlacesGrow(d, c, redo, i - 1, i);
    } else if i < n - 1 {
      PlacesGrow(d, c, redo, i, n - 1);
    }
  }

  lemma DocsStep(e: Embedding, model: string, d: nat, redo: seq<Redo>, n: nat, docs: map<nat, string>,
                 more: map<nat, string>)
    requires n < |redo| && DocsAre(e, model, d, redo, n, docs)
    requires more == if Stays(e, model, redo[n]) then docs[DocAt(d, redo, n) := redo[n].filename] else docs
    ensures DocsAre(e, model, d, redo, n + 1, more)
  {
    var m := n + 1;
    hide ComesBack, RowTexts;
    forall id: nat | id in more ensures exists i: nat :: IsDoc(e, model, d, redo, m, i, id) {
      if id in docs {
        var i: nat :| IsDoc(e, model, d, redo, n, i, id);
        assert IsDoc(e, model, d, redo, m, i, id);
      } else {
        assert IsDoc(e, model, d, redo, m, n, id);
      }
    }
    forall i: nat, id: nat | IsDoc(e, model, d, redo, m, i, id)
      ensures id in more && more[id] == redo[i].filename
    {
      if i < n {
        assert IsDoc(e, model, d, redo, n, i, id);
        PlacesGrow(d, 0, redo, i, n);
      }
    }
  }

  /** Each row of entry `n` stands where it should. */
  ghost predicate RowsAt(d: nat, c: nat, redo: seq<Redo>, n: nat, more: map<nat, Chunk>)
    requires n < |redo| && redo[n].Reread?
  {
    forall j: nat, id: nat :: j < |RowTexts(redo[n])| && id == ChunkAt(c, redo, n) + j ==>
      RowHolds(d, redo, n, j, id, more)
  }

  lemma NewRows(e: Embedding, model: string, d: nat, c: nat, redo: seq<Redo>, n: nat, chunks: map<nat, Chunk>,
                more: map<nat, Chunk>)
    requires n < |redo| && redo[n].Reread?
    requires HasChunkRows(chunks, more, ChunkAt(c, redo, n), DocAt(d, redo, n), RowTexts(redo[n]), |RowTexts(redo[n])|)
    ensures RowsAt(d, c, redo, n, more)
    ensures forall id: nat :: id in more ==>
              id in chunks || ChunkAt(c, redo, n) <= id < ChunkAt(c, redo, n) + |RowTexts(redo[n])|
    ensures forall id: nat :: id in chunks && id < ChunkAt(c, redo, n) ==> id in more && more[id] == chunks[id]
  {
    hide RowTexts, ChunkAt, DocAt;
  }

  lemma OldRowIsBelow(e: Embedding, model: string, c: nat, redo: seq<Redo>, n: nat, i: nat, j: nat, id: nat)
    requires IsRow(e, model, c, redo, n, i, j, id)
    ensures id < ChunkAt(c, redo, n) && redo[i].Reread?
  {
    PlacesGrow(0, c, redo, i, n);
  }

  /** A row of the first `m` entries is one of the first `n` or of entry `n`. */
  lemma RowSplits(e: Embedding, model: string, c: nat, redo: seq<Redo>, n: nat, i: nat, j: nat, id: nat)
    requires n < |redo|
    ensures var m := n + 1;
            IsRow(e, model, c, redo, m, i, j, id) <==>
              || IsRow(e, model, c, redo, n, i, j, id)
              || (i == n && Stays(e, model, redo[n]) && j < |RowTexts(redo[n])| && id == ChunkAt(c, redo, n) + j)
  {
  }

  lemma RowExists(e: Embedding, model: string, d: nat, c: nat, redo: seq<Redo>, n: nat, chunks: map<nat, Chunk>,
                  more: map<nat, Chunk>, id: nat, m: nat)
    requires n < |redo| && RowsAre(e, model, d, c, redo, n, chunks)
    requires if Stays(e, model, redo[n])
             then HasChunkRows(chunks, more, ChunkAt(c, redo, n), DocAt(d, redo, n), RowTexts(redo[n]),
                               |RowTexts(redo[n])|)
             else more == chunks
    requires id in more && m == n + 1
    ensures exists i: nat, j: nat :: IsRow(e, model, c, redo, m, i, j, id)
  {
    if Stays(e, model, redo[n]) {
      NewRows(e, model, d, c, redo, n, chunks, more);
    }
    if id in chunks {
      var i: nat, j: nat :| IsRow(e, model, c, redo, n, i, j, id);
      hide *;
      RowSplits(e, model, c, redo, n, i, j, id);
    } else {
      var j: nat := id - ChunkAt(c, redo, n);
      assert Stays(e, model, redo[n]) && j < |RowTexts(redo[n])|;
      hide *;
      RowSplits(e, model, c, redo, n, n, j, id);
    }
  }

  lemma OldRowHolds(e: Embedding, model: string, d: nat, c: nat, redo: seq<Redo>, n: nat, chunks: map<nat, Chunk>,
                    more: map<nat, Chunk>, i: nat, j: nat, id: nat)
    requires RowHolds(d, redo, i, j, id, chunks) && IsRow(e, model, c, redo, n, i, j, id) && n < |redo|
    requires forall id: nat :: id in chunks && id < ChunkAt(c, redo, n) ==> id in more && more[id] == chunks[id]
    ensures RowHolds(d, redo, i, j, id, more)
  {
    OldRowIsBelow(e, model, c, redo, n, i, j, id);
    hide RowTexts, ChunkAt, DocAt, IsRow;
  }

  lemma AllHold(e: Embedding, model: string, d: nat, c: nat, redo: seq<Redo>, n: nat, chunks: map<nat, Chunk>,
                more: map<nat, Chunk>, m: nat, i: nat, j: nat, id: nat)
    requires n < |redo| && RowsAre(e, model, d, c, redo, n, chunks)
    requires if Stays(e, model, redo[n])
             then HasChunkRows(chunks, more, ChunkAt(c, redo, n), DocAt(d, redo, n), RowTexts(redo[n]),
                               |RowTexts(redo[n])|)
             else more == chunks
    requires m == n + 1 && IsRow(e, model, c, redo, m, i, j, id)
    ensures RowHolds(d, redo, i, j, id, more)
  {
    if Stays(e, model, redo[n]) {
      NewRows(e, model, d, c, redo, n, chunks, more);
      assert redo[n].Reread?;
    }
    RowSplits(e, model, c, redo, n, i, j, id);
    hide IsRow, HasChunkRows, Stays, RowTexts, ChunkAt, DocAt, RowHolds;
    if IsRow(e, model, c, redo, n, i, j, id) {
      assert RowHolds(d, redo, i, j, id, chunks);
      if Stays(e, model, redo[n]) {
        OldRowHolds(e, model, d, c, redo, n, chunks, more, i, j, id);
      }
    }
  }

  lemma RowsStep(e: Embedding, model: string, d: nat, c: nat, redo: seq<Redo>, n: nat, chunks: map<nat, Chunk>,
                 more: map<nat, Chunk>, m: nat)
    requires n < |redo| && RowsAre(e, model, d, c, redo, n, chunks)
    requires if Stays(e, model, redo[n])
             then HasChunkRows(chunks, more, ChunkAt(c, redo, n), DocAt(d, redo, n), RowTexts(redo[n]),
                               |RowTexts(redo[n])|)
             else more == chunks
    requires m == n + 1
    ensures RowsAre(e, model, d, c, redo, m, more)
  {
    forall id: nat | id in more ensures exists i: nat, j: nat :: IsRow(e, model, c, redo, m, i, j, id) {
      RowExists(e, model, d, c, redo, n, chunks, more, id, m);
      hide *;
    }
    forall i: nat, j: nat, id: nat | IsRow(e, model, c, redo, m, i, j, id) ensures RowHolds(d, redo, i, j, id, more) {
      AllHold(e, model, d, c, redo, n, chunks, more, m, i, j, id);
      hide *;
    }
    hide IsRow, RowHolds, Stays, HasChunkRows;
  }

  /** The re-ingests of a rebuild, from cleared tables on. */
  lemma {:induction false} ReAddIs(e: Embedding, s: Store, model: string, redo: seq<Redo>, n: nat)
    requires Sound(e, s) && n <= |redo| && s.db.model.None? && s.db.docs == map[] && s.db.chunks == map[]
    ensures var db := ReAdd(e, s, model, redo[..n]).db;
            && db.nextDoc == DocAt(s.db.nextDoc, redo, n) && db.nextChunk == ChunkAt(s.db.nextChunk, redo, n)
            && DocsAre(e, model, s.db.nextDoc, redo, n, db.docs)
            && RowsAre(e, model, s.db.nextDoc, s.db.nextChunk, redo, n, db.chunks)
  {
    hide Sound, Begun, RowTexts, Stays, ComesBack, HasTextRows, HasChunkRows, AddDocument, ModelAccepted;
    if n > 0 {
      var t := ReAdd(e, s, model, redo[..n - 1]);
      ReAddIs(e, s, model, redo, n - 1);
      ReAddSound(e, s, model, redo[..n - 1]);
      IngestEffects.OnlyThisModel(e, s, model, redo[..n - 1]);
      OwnModelAccepted(t.db, model);
      assert redo[..n][..n - 1] == redo[..n - 1] && redo[..n][n - 1] == redo[n - 1];
      var u := ReAdd(e, s, model, redo[..n]);
      if redo[n - 1].Reread? {
        AddIs(e, t, model, redo[n - 1]);
      } else {
        MissingIs(e, model, redo[n - 1]);
      }
      hide ReAdd;
      DocsStep(e, model, s.db.nextDoc, redo, n - 1, t.db.docs, u.db.docs);
      RowsStep(e, model, s.db.nextDoc, s.db.nextChunk, redo, n - 1, t.db.chunks, u.db.chunks, n);
      hide DocsAre, RowsAre;
    }
  }

  lemma OwnModelAccepted(db: Db, model: string)
    requires db.model in {None, Some(model)}
    ensures ModelAccepted(db, model)
  {
  }

  lemma MissingIs(e: Embedding, model: string, r: Redo)
    requires r.Missing?
    ensures !Begun(r) && !Stays(e, model, r)
  {
  }

  /** How many of the first `n` entries come back. */
  function Back(e: Embedding, model: string, redo: seq<Redo>, n: nat): nat
    requires n <= |redo|
  {
    if n == 0 then 0 else Back(e, model, redo, n - 1) + if ComesBack(e, model, redo[n - 1]) then 1 else 0
  }

  /** The number a rebuild reports is that of the entries that come back. */
  lemma {:induction false} ReturnedIs(e: Embedding, s: Store, model: string, redo: seq<Redo>, n: nat)
    requires Sound(e, s) && n <= |redo| && s.db.model.None?
    ensures Returned(e, s, model, redo[..n]) == Back(e, model, redo, n)
  {
    hide Sound, AddDocument, ComesBack, ModelAccepted;
    if n > 0 {
      var t := ReAdd(e, s, model, redo[..n - 1]);
      ReturnedIs(e, s, model, redo, n - 1);
      ReAddSound(e, s, model, redo[..n - 1]);
      IngestEffects.OnlyThisModel(e, s, model, redo[..n - 1]);
      OwnModelAccepted(t.db, model);
      assert redo[..n][..n - 1] == redo[..n - 1] && redo[..n][n - 1] == redo[n - 1];
      if redo[n - 1].Reread? {
        AddIs(e, t, model, redo[n - 1]);
      } else {
        MissingStays(e, model, redo[n - 1]);
      }
      hide ReAdd, HasDocument, Stays, RowTexts, Begun;
    }
  }

  lemma MissingStays(e: Embedding, model: string, r: Redo)
    requires r.Missing?
    ensures !ComesBack(e, model, r)
  {
  }

  /** Main result: after a rebuild the tables hold, under new ids in the order of the entries, the documents
      that came back with all their texts and what unrepaired failures left of others; nothing old survives. */
  lemma RebuildIs(e: Embedding, s: Store, model: string, left: set<nat>, redo: seq<Redo>)
    requires Sound(e, s)
    ensures var db := Rebuild(e, s, model, left, false, redo).db;
            && DocsAre(e, model, s.db.nextDoc, redo, |redo|, db.docs)
            && RowsAre(e, model, s.db.nextDoc, s.db.nextChunk, redo, |redo|, db.chunks)
            && Mirrored(db)
            && (forall id :: id in db.docs ==> id >= s.db.nextDoc)
            && (forall id :: id in db.chunks ==> id >= s.db.nextChunk)
  {
    var cleared := Cleared(s, left);
    RebuildSound(e, s, model, left, false, redo);
    RebuildSound(e, s, model, left, false, []);
    assert ReAdd(e, cleared, model, []) == cleared;
    ReAddIs(e, cleared, model, redo, |redo|);
    assert redo[..|redo|] == redo;
    var db := Rebuild(e, s, model, left, false, redo).db;
    hide ReAdd, RowTexts, Stays, Mirrored;
    forall id | id in db.docs ensures id >= s.db.nextDoc {
      var i: nat :| IsDoc(e, model, s.db.nextDoc, redo, |redo|, i, id);
      PlacesGrow(s.db.nextDoc, 0, redo, i, |redo|);
    }
    forall id | id in db.chunks ensures id >= s.db.nextChunk {
      var i: nat, j: nat :| IsRow(e, model, s.db.nextChunk, redo, |redo|, i, j, id);
      PlacesGrow(0, s.db.nextChunk, redo, i, |redo|);
    }
  }

  /** Every row of a document that came back can be found by its own text: its point holds the embedding by
      the rebuild's model. */
  lemma {:induction false} ReAddPoints(e: Embedding, s: Store, model: string, redo: seq<Redo>, n: nat, i: nat, j: nat)
    requires Sound(e, s) && s.db.model.None? && s.db.docs == map[] && s.db.chunks == map[]
    requires i < n <= |redo| && ComesBack(e, model, redo[i]) && j < |redo[i].texts|
    ensures var t, id := ReAdd(e, s, model, redo[..n]), ChunkAt(s.db.nextChunk, redo, i) + j;
            id in t.vectors && t.vectors[id] == e(model, redo[i].texts[j])
    decreases n
  {
    hide *;
    var before := ReAdd(e, s, model, redo[..n - 1]);
    ReAddIs(e, s, model, redo, n - 1);
    IngestEffects.OnlyThisModel(e, s, model, redo[..n - 1]);
    OwnModelAccepted(before.db, model);
    ReAddLast(e, s, model, redo, n);
    if redo[n - 1].Reread? {
      AddPointsAre(e, before, model, redo[n - 1]);
    }
    var r, id := redo[n - 1], ChunkAt(s.db.nextChunk, redo, i) + j;
    var after := ReAdd(e, s, model, redo[..n]);
    if i < n - 1 {
      ReAddPoints(e, s, model, redo, n - 1, i, j);
      RowPlace(e, s.db.nextChunk, model, redo, i, j, n - 1);
      if r.Reread? {
        OldPoint(e, before.vectors, after.vectors, before.db.nextChunk, model, r.texts, Landed(r), id);
      }
    } else {
      AllLanded(e, model, redo[i], j);
      NewPoint(e, before.vectors, after.vectors, before.db.nextChunk, model, r.texts, Landed(r), j);
    }
  }

  lemma ReAddLast(e: Embedding, s: Store, model: string, redo: seq<Redo>, n: nat)
    requires 0 < n <= |redo|
    ensures var t, r := ReAdd(e, s, model, redo[..n - 1]), redo[n - 1];
            ReAdd(e, s, model, redo[..n])
            == if r.Reread? then AddDocument(e, t, model, r.filename, r.texts, r.fault, r.rollbackFails).0 else t
  {
    assert redo[..n][..n - 1] == redo[..n - 1];
    hide AddDocument;
  }

  lemma RowPlace(e: Embedding, c: nat, model: string, redo: seq<Redo>, i: nat, j: nat, n: nat)
    requires i < n <= |redo| && ComesBack(e, model, redo[i]) && j < |redo[i].texts|
    ensures ChunkAt(c, redo, i) + j < ChunkAt(c, redo, n)
  {
    PlacesGrow(0, c, redo, i, n);
  }

  lemma AllLanded(e: Embedding, model: string, r: Redo, j: nat)
    requires ComesBack(e, model, r) && j < |r.texts|
    ensures r.Reread? && j in Landed(r)
  {
  }

  lemma NewPoint(e: Embedding, before: map<nat, Vector>, after: map<nat, Vector>, base: nat, model: string,
                 texts: seq<string>, which: set<nat>, j: nat)
    requires HasPoints(e, before, after, base, model, texts, which, |texts|) && j < |texts| && j in which
    ensures base + j in after && after[base + j] == e(model, texts[j])
  {
  }

  lemma OldPoint(e: Embedding, before: map<nat, Vector>, after: map<nat, Vector>, base: nat, model: string,
                 texts: seq<string>, which: set<nat>, id: nat)
    requires HasPoints(e, before, after, base, model, texts, which, |texts|) && id < base && id in before
    ensures id in after && after[id] == before[id]
  {
  }

  /** So after a rebuild every text of a document that came back is searchable by its embedding. */
  lemma RebuiltIsSearchable(e: Embedding, s: Store, model: string, left: set<nat>, redo: seq<Redo>, i: nat, j: nat)
    requires Sound(e, s) && i < |redo| && ComesBack(e, model, redo[i]) && j < |redo[i].texts|
    ensures var t, id := Rebuild(e, s, model, left, false, redo), ChunkAt(s.db.nextChunk, redo, i) + j;
            && id in t.db.chunks && t.db.chunks[id] == Chunk(DocAt(s.db.nextDoc, redo, i), redo[i].texts[j], j)
            && id in t.vectors && t.vectors[id] == e(model, redo[i].texts[j])
  {
    hide *;
    RebuildReAdds(e, s, model, left, redo);
    ReAddPoints(e, Cleared(s, left), model, redo, |redo|, i, j);
    RebuildIs(e, s, model, left, redo);
    var db := Rebuild(e, s, model, left, false, redo).db;
    RowIsThere(e, model, s.db.nextDoc, s.db.nextChunk, redo, i, j, db.chunks);
  }

  lemma RebuildReAdds(e: Embedding, s: Store, model: string, left: set<nat>, redo: seq<Redo>)
    requires Sound(e, s)
    ensures var cleared := Cleared(s, left);
            && Sound(e, cleared) && cleared.db.model.None? && cleared.db.docs == map[] && cleared.db.chunks == map[]
            && cleared.db.nextChunk == s.db.nextChunk
            && Rebuild(e, s, model, left, false, redo) == ReAdd(e, cleared, model, redo[..|redo|])
  {
    RebuildSound(e, s, model, left, false, []);
    hide Sound;
    assert ReAdd(e, Cleared(s, left), model, []) == Cleared(s, left);
    assert redo[..|redo|] == redo;
  }

  lemma RowIsThere(e: Embedding, model: string, d: nat, c: nat, redo: seq<Redo>, i: nat, j: nat,
                   chunks: map<nat, Chunk>)
    requires RowsAre(e, model, d, c, redo, |redo|, chunks)
    requires i < |redo| && ComesBack(e, model, redo[i]) && j < |redo[i].texts|
    ensures var id := ChunkAt(c, redo, i) + j;
            id in chunks && chunks[id] == Chunk(DocAt(d, redo, i), redo[i].texts[j], j)
  {
    var id := ChunkAt(c, redo, i) + j;
    hide ChunkAt, DocAt;
    assert IsRow(e, model, c, redo, |redo|, i, j, id);
  }
}
