/** The knowledge store as the source writes it: tables whose rows and triggers change in place, a point
    index, and the ingest, delete and rebuild procedures over both.  Each procedure is proved to do what
    KnowledgeStores says, so NoAliasing and ModelAgreesThroughoutIff speak about these objects. */
module KnowledgeBases {

  import opened KnowledgeStores
  import opened Lists
  import opened Options

  class Database {
    var docs: map<nat, string>
    var chunks: map<nat, Chunk>
    var fts: map<nat, string>
    var model: Option<string>
    var dimension: Option<nat>
    var nextDoc: nat
    var nextChunk: nat

    ghost function Tables(): Db
      reads this
    {
      Db(docs, chunks, fts, model, dimension, nextDoc, nextChunk)
    }

    constructor ()
      ensures Tables() == EmptyStore().db
    {
      docs, chunks, fts, model, dimension, nextDoc, nextChunk := map[], map[], map[], None, None, 1, 1;
    }

    method AddDocument(filename: string) returns (id: nat)
      modifies this
      ensures id == old(nextDoc) && Tables() == InsertDoc(old(Tables()), filename)
    {
      id := nextDoc;
      docs := docs[id := filename];
      nextDoc := nextDoc + 1;
    }

    method AddChunk(doc: nat, content: string, index: nat) returns (id: nat)
      modifies this
      ensures id == old(nextChunk) && Tables() == InsertChunk(old(Tables()), doc, content, index)
    {
      id := nextChunk;
      chunks := chunks[id := Chunk(doc, content, index)];
      nextChunk := nextChunk + 1;
      AfterInsert(id);
    }

    /** Trigger chunks_ai. */
    method AfterInsert(id: nat)
      requires id in chunks
      modifies this`fts
      ensures fts == old(fts)[id := chunks[id].content]
    {
      fts := fts[id := chunks[id].content];
    }

    /** One row deleted, with trigger chunks_ad. */
    method DeleteChunkRow(id: nat)
      modifies this`chunks, this`fts
      ensures chunks == old(chunks) - {id} && fts == old(fts) - {id}
    {
      chunks := chunks - {id};
      fts := fts - {id};
    }

    method DeleteChunkRows(ids: set<nat>)
      modifies this`chunks, this`fts
      ensures chunks == old(chunks) - ids && fts == old(fts) - ids
    {
      var todo := ids;
      while todo != {}
        invariant todo <= ids
        invariant chunks == old(chunks) - (ids - todo) && fts == old(fts) - (ids - todo)
        decreases |todo|
      {
        var id :| id in todo;
        DeleteChunkRow(id);
        todo := todo - {id};
      }
    }

    method DeleteDocumentCascade(doc: nat)
      modifies this
      ensures Tables() == Cascade(old(Tables()), doc)
    {
      docs := docs - {doc};
      DeleteChunkRows(set id | id in chunks && chunks[id].docId == doc);
    }

    method ClearAllKnowledge()
      modifies this
      ensures Tables() == ClearAll(old(Tables()))
    {
      DeleteChunkRows(chunks.Keys);
      assert chunks == map[];
      docs := map[];
      model, dimension := None, None;
    }

    method SetModel(name: string)
      modifies this`model
      ensures model == Some(name)
    {
      model := Some(name);
    }

    method SetDimension(size: nat)
      modifies this`dimension
      ensures dimension == Some(size)
    {
      dimension := Some(size);
    }

    method ChunksByDocument(doc: nat) returns (ids: set<nat>)
      ensures ids == ChunksOf(Tables(), doc)
    {
      ids := set id | id in chunks && chunks[id].docId == doc;
    }
  }

  /** The first `n` id and vector pairs written into the collection, as far as they land. */
  function Put(points: map<nat, Vector>, chunkIds: seq<nat>, vectors: seq<Vector>, landed: set<nat>, n: nat)
    : map<nat, Vector>
    requires n <= |chunkIds| == |vectors|
  {
    if n == 0 then points
    else
      var front := Put(points, chunkIds, vectors, landed, n - 1);
      if n - 1 in landed then front[chunkIds[n - 1] := vectors[n - 1]] else front
  }

  /** For the ids a document's rows just got, that is the upsert of its texts. */
  lemma {:induction false} PutIsUpsert(e: Embedding, points: map<nat, Vector>, base: nat, model: string,
                                       texts: seq<string>, chunkIds: seq<nat>, vectors: seq<Vector>,
                                         landed: set<nat>, n: nat)
    requires n <= |chunkIds| == |vectors| == |texts|
    requires forall i: nat :: i < |texts| ==> chunkIds[i] == base + i && vectors[i] == e(model, texts[i])
    ensures Put(points, chunkIds, vectors, landed, n) == UpsertFirst(e, points, base, model, texts, landed, n)
  {
    if n > 0 {
      PutIsUpsert(e, points, base, model, texts, chunkIds, vectors, landed, n - 1);
    }
  }

  class VectorIndex {
    var points: map<nat, Vector>
    var dimension: Option<nat>

    constructor ()
      ensures points == map[]
    {
      points, dimension := map[], None;
    }

    /** `add`; only the points numbered in `landed` reach the collection. */
    method Add(chunkIds: seq<nat>, vectors: seq<Vector>, landed: set<nat>)
      requires |chunkIds| == |vectors|
      modifies this
      ensures points == Put(old(points), chunkIds, vectors, landed, |chunkIds|)
    {
      if |chunkIds| == 0 {
        return;
      }
      if dimension.None? {
        dimension := Some(|vectors[0]|);
      }
      for n := 0 to |chunkIds|
        invariant points == Put(old(points), chunkIds, vectors, landed, n)
      {
        if n in landed {
          points := points[chunkIds[n] := vectors[n]];
        }
      }
    }

    method Remove(chunkIds: set<nat>, dropped: set<nat>)
      modifies this`points
      ensures points == old(points) - (chunkIds * dropped)
    {
      points := points - (chunkIds * dropped);
    }

    /** `reset`; the points in `left` survive when dropping the collection fails. */
    method Reset(left: set<nat>)
      modifies this
      ensures points == Kept(old(points), left)
    {
      points := map id | id in points && id in left :: points[id];
      dimension := None;
    }
  }

  class KnowledgeStore {
    const db: Database
    const index: VectorIndex
    const embedding: Embedding

    ghost function Abstract(): Store
      reads db, index
    {
      Store(db.Tables(), index.points)
    }

    constructor (e: Embedding)
      ensures fresh(db) && fresh(index) && embedding == e && Abstract() == EmptyStore()
    {
      db := new Database();
      index := new VectorIndex();
      embedding := e;
    }

    /** The rows of `texts` up to where the fault strikes. */
    method InsertRows(doc: nat, texts: seq<string>, n: nat) returns (chunkIds: seq<nat>)
      requires n <= |texts|
      modifies db
      ensures db.Tables() == InsertChunks(old(db.Tables()), doc, texts, n)
      ensures |chunkIds| == n && forall i: nat :: i < n ==> chunkIds[i] == old(db.nextChunk) + i
    {
      chunkIds := [];
      var i := 0;
      while i < n
        invariant i <= n && |chunkIds| == i
        invariant db.nextChunk == old(db.nextChunk) + i
        invariant db.Tables() == InsertChunks(old(db.Tables()), doc, texts, i)
        invariant forall j: nat :: j < i ==> chunkIds[j] == old(db.nextChunk) + j
      {
        var id := db.AddChunk(doc, texts[i], i);
        chunkIds := chunkIds + [id];
        i := i + 1;
      }
    }

    /** The guarded block of `add_document`; false is an exception. */
    method IndexDocument(chunkIds: seq<nat>, model: string, texts: seq<string>, fault: Fault) returns (done: bool)
      requires texts != [] && |chunkIds| == |texts|
      requires forall i: nat :: i < |chunkIds| ==> chunkIds[i] == chunkIds[0] + i
      modifies db`model, db`dimension, index
      ensures (Abstract(), done)
              == KnowledgeStores.IndexDocument(embedding, old(Abstract()), chunkIds[0], model, texts, fault)
    {
      hide UpsertFirst, Range, Put;
      if fault.AtEmbed? {
        return false;
      }
      var vectors := seq(|texts|, i requires 0 <= i < |texts| => embedding(model, texts[i]));
      var landed := if fault.AtVectorAdd? then fault.landed else AllOf(texts);
      PutIsUpsert(embedding, index.points, chunkIds[0], model, texts, chunkIds, vectors, landed, |texts|);
      index.Add(chunkIds, vectors, landed);
      if fault.AtVectorAdd? || fault.AtModelMeta? {
        return false;
      }
      db.SetModel(model);
      if |vectors[0]| != 0 {
        if fault.AtDimensionMeta? {
          return false;
        }
        db.SetDimension(|vectors[0]|);
      }
      return true;
    }

    /** `add_document`. */
    method AddDocument(model: string, filename: string, texts: seq<string>, fault: Fault, rollbackFails: bool)
      returns (done: bool)
      modifies db, index
      ensures (Abstract(), done)
              == KnowledgeStores.AddDocument(embedding, old(Abstract()), model, filename, texts, fault, rollbackFails)
    {
      if !(db.model.None? || db.model.value == "" || db.model.value == model) || fault.AtParse? {
        return false;
      }
      var doc := db.AddDocument(filename);
      if texts == [] {
        return true;
      }
      if fault.AfterChunks? && fault.n < |texts| {
        var ids := InsertRows(doc, texts, fault.n);
        return false;
      }
      var chunkIds := InsertRows(doc, texts, |texts|);
      hide InsertChunks, Cascade, KnowledgeStores.IndexDocument;
      done := IndexDocument(chunkIds, model, texts, fault);
      if !done && !rollbackFails {
        db.DeleteDocumentCascade(doc);
      }
    }

    /** `delete_document`. */
    method DeleteDocument(doc: nat, fault: DeleteFault)
      modifies db, index
      ensures Abstract() == KnowledgeStores.DeleteDocument(old(Abstract()), doc, fault)
    {
      var ids := db.ChunksByDocument(doc);
      if ids != {} {
        index.Remove(ids, if fault.IndexRefuses? then fault.dropped else ids);
        if fault.IndexRefuses? {
          return;
        }
      }
      assert index.points == old(index.points) - ids;
      if fault.TablesRefuse? {
        return;
      }
      db.DeleteDocumentCascade(doc);
    }

    /** `rebuild`: drop everything, then ingest each document again; one that fails does not stop the rest.
        It raises, here `!done`, where the tables refuse to be cleared. */
    method Rebuild(model: string, left: set<nat>, refused: bool, redo: seq<Redo>)
      returns (done: bool, reingested: nat, failed: nat)
      modifies db, index
      ensures Abstract() == KnowledgeStores.Rebuild(embedding, old(Abstract()), model, left, refused, redo)
      ensures done <==> !refused
      ensures done ==> reingested + failed == |redo|
      ensures done ==> reingested == Returned(embedding, Cleared(old(Abstract()), left), model, redo)
    {
      index.Reset(left);
      if refused {
        return false, 0, 0;
      }
      db.ClearAllKnowledge();
      ghost var cleared := Abstract();
      reingested, failed := 0, 0;
      var n := 0;
      while n < |redo|
        invariant n <= |redo| && reingested + failed == n
        invariant Abstract() == ReAdd(embedding, cleared, model, redo[..n])
        invariant reingested == Returned(embedding, cleared, model, redo[..n])
      {
        assert redo[..n + 1][..n] == redo[..n];
        hide KnowledgeStores.AddDocument;
        if redo[n].Missing? {
          failed := failed + 1;
        } else {
          var added := AddDocument(model, redo[n].filename, redo[n].texts, redo[n].fault, redo[n].rollbackFails);
          if added { reingested := reingested + 1; } else { failed := failed + 1; }
        }
        n := n + 1;
      }
      assert redo[..n] == redo;
      done := true;
    }
  }
}
