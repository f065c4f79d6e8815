/** What one ingest, delete or rebuild leaves behind: agentflow/knowledge/store.py over single calls. */
module IngestEffects {

  import opened KnowledgeStores
  import opened Lists
  import opened Options

  /** Document, chunk and full-text rows are those of `s`. */
  predicate SameRows(s: Db, t: Db) {
    t.docs == s.docs && t.chunks == s.chunks && t.fts == s.fts
  }

  /** The new rows and points of a complete growth. */
  lemma GrownRows(e: Embedding, s: Store, model: string, filename: string, texts: seq<string>, i: nat)
    requires i < |texts|
    ensures var g := Grown(e, s, model, filename, texts, |texts|, AllOf(texts));
            var id := s.db.nextChunk + i;
            && id in g.db.chunks && g.db.chunks[id] == Chunk(s.db.nextDoc, texts[i], i)
            && id in g.vectors && g.vectors[id] == e(model, texts[i])
            && s.db.nextDoc in g.db.docs && g.db.docs[s.db.nextDoc] == filename
  {
    InsertChunksShape(InsertDoc(s.db, filename), s.db.nextDoc, texts, |texts|);
    UpsertShape(e, s.vectors, s.db.nextChunk, model, texts, AllOf(texts), |texts|);
    hide InsertChunks, UpsertFirst;
  }

  /** An ingest that returns has stored and indexed every chunk, in order, under its document. */
  lemma IngestedIsSearchable(e: Embedding, s: Store, model: string, filename: string, texts: seq<string>,
                             fault: Fault, rf: bool, i: nat)
    requires AddDocument(e, s, model, filename, texts, fault, rf).1 && i < |texts|
    ensures var t := AddDocument(e, s, model, filename, texts, fault, rf).0;
            var id := s.db.nextChunk + i;
            && id in t.db.chunks && t.db.chunks[id] == Chunk(s.db.nextDoc, texts[i], i)
            && id in t.vectors && t.vectors[id] == e(model, texts[i])
            && s.db.nextDoc in t.db.docs && t.db.docs[s.db.nextDoc] == filename
            && t.db.model == Some(model)
            && (|e(model, texts[0])| > 0 ==> t.db.dimension == Some(|e(model, texts[0])|))
  {
    GrownRows(e, s, model, filename, texts, i);
    hide InsertChunks, UpsertFirst, Range, Cascade, InsertDoc;
  }

  /** Where an ingest fails for good: it got as far as the document row and then broke between chunk rows,
      or broke later and could not roll back. */
  predicate LeavesRows(s: Store, model: string, texts: seq<string>, fault: Fault, rollbackFails: bool) {
    && ModelAccepted(s.db, model) && !fault.AtParse? && texts != []
    && ((fault.AfterChunks? && fault.n < |texts|) || rollbackFails)
  }

  /** Cascading away the new document's rows restores the old ones. */
  lemma RollbackRestores(e: Embedding, s: Store, filename: string, texts: seq<string>, model: Option<string>)
    requires Sound(e, s)
    ensures SameRows(s.db,
                     Cascade(InsertChunks(InsertDoc(s.db, filename), s.db.nextDoc, texts, |texts|).(model := model),
                             s.db.nextDoc))
  {
    var grown := InsertChunks(InsertDoc(s.db, filename), s.db.nextDoc, texts, |texts|);
    InsertChunksShape(InsertDoc(s.db, filename), s.db.nextDoc, texts, |texts|);
    hide InsertChunks, HasTextRows;
    var db := grown.(model := model);
    assert db.docs - {s.db.nextDoc} == s.db.docs;
    NewRowsAre(s.db.chunks, db.chunks, s.db.nextChunk, s.db.nextDoc, texts);
    forall id ensures id in ChunksOf(db, s.db.nextDoc) <==> s.db.nextChunk <= id < s.db.nextChunk + |texts| {
    }
    NewTextsGo(s.db.fts, db.fts, ChunksOf(db, s.db.nextDoc), s.db.nextChunk, texts);
    NewChunksGo(s.db.chunks, db.chunks, ChunksOf(db, s.db.nextDoc), s.db.nextChunk, s.db.nextDoc, texts);
  }

  /** The new document's rows are the new ones. */
  lemma NewRowsAre(c: map<nat, Chunk>, t: map<nat, Chunk>, base: nat, doc: nat, texts: seq<string>)
    requires HasChunkRows(c, t, base, doc, texts, |texts|)
    requires forall id :: id in c ==> id < base && c[id].docId < doc
    ensures forall id :: id in t && t[id].docId == doc <==> base <= id < base + |texts|
  {
  }

  lemma NewChunksGo(c: map<nat, Chunk>, t: map<nat, Chunk>, gone: set<nat>, base: nat, doc: nat, texts: seq<string>)
    requires HasChunkRows(c, t, base, doc, texts, |texts|) && (forall id :: id in c ==> id < base)
    requires forall id :: id in gone <==> base <= id < base + |texts|
    ensures t - gone == c
  {
  }

  lemma NewTextsGo(f: map<nat, string>, t: map<nat, string>, gone: set<nat>, base: nat, texts: seq<string>)
    requires HasTextRows(f, t, base, texts, |texts|) && (forall id :: id in f ==> id < base)
    requires forall id :: id in gone <==> base <= id < base + |texts|
    ensures t - gone == f
  {
  }

  lemma RowsStay(e: Embedding, s: Store, filename: string, texts: seq<string>, n: nat)
    requires Sound(e, s) && n <= |texts|
    ensures s.db.nextDoc in InsertChunks(InsertDoc(s.db, filename), s.db.nextDoc, texts, n).docs
            && s.db.nextDoc !in s.db.docs
  {
    InsertChunksShape(InsertDoc(s.db, filename), s.db.nextDoc, texts, n);
  }

  /** Exactly when a failed ingest leaves the tables as it found them: unless it broke between chunk rows,
      which nothing rolls back, or its rollback failed. */
  lemma FailedIngestIsUndoneIff(e: Embedding, s: Store, model: string, filename: string, texts: seq<string>,
                                fault: Fault, rf: bool)
    requires Sound(e, s) && !AddDocument(e, s, model, filename, texts, fault, rf).1
    ensures SameRows(s.db, AddDocument(e, s, model, filename, texts, fault, rf).0.db)
            <==> !LeavesRows(s, model, texts, fault, rf)
  {
    hide Sound, UpsertFirst, Range, InsertChunks, InsertDoc, Cascade;
    RowsStay(e, s, filename, texts, |texts|);
    if fault.AfterChunks? && fault.n < |texts| {
      RowsStay(e, s, filename, texts, fault.n);
    }
    RollbackRestores(e, s, filename, texts,
                     InsertChunks(InsertDoc(s.db, filename), s.db.nextDoc, texts, |texts|).model);
    RollbackRestores(e, s, filename, texts, Some(model));
  }

  /** A delete that goes through removes the document with all its rows and points, and nothing else. */
  lemma DeleteRemovesTheDocument(e: Embedding, s: Store, doc: nat, id: nat)
    requires Sound(e, s)
    ensures var t := DeleteDocument(s, doc, NoDeleteFault);
            && doc !in t.db.docs
            && (id in t.db.chunks <==> id in s.db.chunks && s.db.chunks[id].docId != doc)
            && (id in t.db.chunks ==> t.db.chunks[id] == s.db.chunks[id])
            && (id in t.vectors <==> id in s.vectors && !(id in s.db.chunks && s.db.chunks[id].docId == doc))
  {
    hide Genuine, Mirrored;
  }

  /** A delete that failed, wherever it broke, can be repeated: it then has the full effect. */
  lemma FailedDeleteCanBeRepeated(s: Store, doc: nat, fault: DeleteFault)
    ensures DeleteDocument(DeleteDocument(s, doc, fault), doc, NoDeleteFault) == DeleteDocument(s, doc, NoDeleteFault)
    ensures fault.TablesRefuse? || (fault.IndexRefuses? && ChunksOf(s.db, doc) != {}) ==>
              DeleteDocument(s, doc, fault).db == s.db
  {
    var ids, t := ChunksOf(s.db, doc), DeleteDocument(s, doc, fault);
    if ids != {} && fault.IndexRefuses? {
      assert t.vectors - ids == s.vectors - ids;
    } else if fault.TablesRefuse? {
      assert t.vectors - ids == s.vectors - ids;
    } else {
      assert ChunksOf(t.db, doc) == {};
      assert t.db.docs - {doc} == t.db.docs && t.db.chunks - {} == t.db.chunks && t.db.fts - {} == t.db.fts;
      assert t.vectors - {} == t.vectors;
    }
  }

  // ---------------------------------------------------------------- rebuilds

  /** Re-ingesting under one model never records another. */
  lemma {:induction false} OnlyThisModel(e: Embedding, s: Store, model: string, redo: seq<Redo>)
    requires s.db.model in {None, Some(model)}
    ensures ReAdd(e, s, model, redo).db.model in {None, Some(model)}
    ensures s.db.model == Some(model) ==> ReAdd(e, s, model, redo).db.model == Some(model)
  {
    hide AddDocument;
    if redo != [] {
      var t := ReAdd(e, s, model, redo[..|redo| - 1]);
      OnlyThisModel(e, s, model, redo[..|redo| - 1]);
      var r := redo[|redo| - 1];
      if r.Reread? {
        AddKeepsModel(e, t, model, r.filename, r.texts, r.fault, r.rollbackFails);
      }
    }
  }

  /** The re-ingest of entry `k` comes back with its document stored. */
  predicate Returns(e: Embedding, s: Store, model: string, redo: seq<Redo>, k: nat)
    requires k < |redo|
  {
    && redo[k].Reread? && redo[k].texts != []
    && var r := redo[k];
       AddDocument(e, ReAdd(e, s, model, redo[..k]), model, r.filename, r.texts, r.fault, r.rollbackFails).1
  }

  /** An entry without a fault comes back: a cleared store refuses no model. */
  lemma IntactEntryReturns(e: Embedding, s: Store, model: string, redo: seq<Redo>, k: nat)
    requires s.db.model in {None, Some(model)} && k < |redo|
    requires redo[k].Reread? && redo[k].texts != [] && redo[k].fault.NoFault?
    ensures Returns(e, s, model, redo, k)
  {
    OnlyThisModel(e, s, model, redo[..k]);
    hide InsertChunks, UpsertFirst, Range, ReAdd;
  }

  lemma {:induction false} ReAddSplits(e: Embedding, s: Store, model: string, redo: seq<Redo>, k: nat)
    requires k <= |redo|
    ensures ReAdd(e, s, model, redo) == ReAdd(e, ReAdd(e, s, model, redo[..k]), model, redo[k..])
  {
    hide AddDocument;
    if k == |redo| {
      assert redo[..k] == redo && redo[k..] == [];
    } else {
      var n := |redo| - 1;
      ReAddSplits(e, s, model, redo[..n], k);
      assert redo[..n][..k] == redo[..k] && redo[..n][k..] == redo[k..][..n - k] && redo[k..][n - k] == redo[n];
    }
  }

  /** A rebuild is accepted whatever model was recorded before: as soon as one of its documents comes back,
      its model has taken over for good, whatever happens to the others. */
  lemma RebuildSwitchesModel(e: Embedding, s: Store, model: string, left: set<nat>, redo: seq<Redo>, k: nat)
    requires k < |redo| && Returns(e, Cleared(s, left), model, redo, k)
    ensures Rebuild(e, s, model, left, false, redo).db.model == Some(model)
  {
    var cleared := Cleared(s, left);
    var t := ReAdd(e, cleared, model, redo[..k]);
    var r := redo[k];
    assert redo[..k + 1][..k] == redo[..k] && redo[..k + 1][k] == r;
    assert ReAdd(e, cleared, model, redo[..k + 1])
        == AddDocument(e, t, model, r.filename, r.texts, r.fault, r.rollbackFails).0;
    IngestedIsSearchable(e, t, model, r.filename, r.texts, r.fault, r.rollbackFails, 0);
    ReAddSplits(e, cleared, model, redo, k + 1);
    hide AddDocument, ReAdd;
    OnlyThisModel(e, ReAdd(e, cleared, model, redo[..k + 1]), model, redo[k + 1..]);
  }

  /** A rebuild whose tables refused to be cleared keeps every row, and repeating it has the full effect: it
      ends as if the refused one had never been, but for points that survive only if both resets left them. */
  lemma RefusedRebuildCanBeRepeated(e: Embedding, s: Store, m: string, left: set<nat>, redo: seq<Redo>,
                                    model: string, again: set<nat>, entries: seq<Redo>)
    ensures Rebuild(e, s, m, left, true, redo).db == s.db
    ensures Rebuild(e, Rebuild(e, s, m, left, true, redo), model, again, false, entries)
         == Rebuild(e, s, model, left * again, false, entries)
  {
    assert Kept(Kept(s.vectors, left), again) == Kept(s.vectors, left * again);
  }

  lemma AddKeepsModel(e: Embedding, s: Store, model: string, filename: string, texts: seq<string>, fault: Fault,
                      rf: bool)
    requires s.db.model in {None, Some(model)}
    ensures AddDocument(e, s, model, filename, texts, fault, rf).0.db.model in {s.db.model, Some(model)}
  {
    InsertChunksShape(InsertDoc(s.db, filename), s.db.nextDoc, texts, |texts|);
    if fault.AfterChunks? && fault.n < |texts| {
      InsertChunksShape(InsertDoc(s.db, filename), s.db.nextDoc, texts, fault.n);
    }
    hide InsertChunks, UpsertFirst, Range;
  }
}
