/** Documents, chunks, full-text rows and vectors: agentflow/knowledge/store.py over the tables and
    triggers of agentflow/database/sqlite.py and the point map of agentflow/knowledge/index.py, with
    failures injected at every write. */
module KnowledgeStores {

  import opened Lists
  import opened Options

  type Vector = seq<real>

  /** The embedding service: (model name, text) to vector. */
  type Embedding = (string, string) -> Vector

  datatype Chunk = Chunk(docId: nat, content: string, index: nat)

  /** The knowledge tables.  `nextDoc` and `nextChunk` are the AUTOINCREMENT counters, which no delete
      ever winds back. */
  datatype Db = Db(
    docs: map<nat, string>,
    chunks: map<nat, Chunk>,
    fts: map<nat, string>,
    model: Option<string>,
    dimension: Option<nat>,
    nextDoc: nat,
    nextChunk: nat)

  datatype Store = Store(db: Db, vectors: map<nat, Vector>)

  function EmptyStore(): Store {
    Store(Db(map[], map[], map[], None, None, 1, 1), map[])
  }

  // ---------------------------------------------------------------- tables

  function InsertDoc(db: Db, filename: string): Db {
    db.(docs := db.docs[db.nextDoc := filename], nextDoc := db.nextDoc + 1)
  }

  /** An inserted row fires the trigger that mirrors it into the full-text table. */
  function InsertChunk(db: Db, doc: nat, content: string, index: nat): Db {
    db.(chunks := db.chunks[db.nextChunk := Chunk(doc, content, index)],
        fts := db.fts[db.nextChunk := content],
        nextChunk := db.nextChunk + 1)
  }

  function InsertChunks(db: Db, doc: nat, texts: seq<string>, n: nat): Db
    requires n <= |texts|
  {
    if n == 0 then db else InsertChunk(InsertChunks(db, doc, texts, n - 1), doc, texts[n - 1], n - 1)
  }

  function ChunksOf(db: Db, doc: nat): set<nat> {
    set id | id in db.chunks && db.chunks[id].docId == doc
  }

  /** Deleting the document row takes its chunks along, and their full-text rows by the trigger. */
  function Cascade(db: Db, doc: nat): Db {
    db.(docs := db.docs - {doc}, chunks := db.chunks - ChunksOf(db, doc), fts := db.fts - ChunksOf(db, doc))
  }

  function ClearAll(db: Db): Db {
    db.(docs := map[], chunks := map[], fts := db.fts - db.chunks.Keys, model := None, dimension := None)
  }

  // ---------------------------------------------------------------- ingest

  /** Where an ingest breaks: before any write, after `n` chunk rows, in the embedding service, in the
      vector index after some points landed, or at either of the two meta writes. */
  datatype Fault =
    | NoFault | AtParse | AfterChunks(n: nat) | AtEmbed | AtVectorAdd(landed: set<nat>) | AtModelMeta
    | AtDimensionMeta

  /** `_check_embedding_model`: an empty recorded name counts as none. */
  predicate ModelAccepted(db: Db, model: string) {
    db.model.None? || db.model.value == "" || db.model.value == model
  }

  /** Upsert those of the first `n` points that are in `which`; point i is chunk id `base + i`. */
  function UpsertFirst(e: Embedding, vectors: map<nat, Vector>, base: nat, model: string, texts: seq<string>,
                       which: set<nat>, n: nat): map<nat, Vector>
    requires n <= |texts|
  {
    if n == 0 then vectors
    else
      var front := UpsertFirst(e, vectors, base, model, texts, which, n - 1);
      if n - 1 in which then front[base + n - 1 := e(model, texts[n - 1])] else front
  }

  function Upsert(e: Embedding, vectors: map<nat, Vector>, base: nat, model: string, texts: seq<string>,
                  which: set<nat>): map<nat, Vector> {
    UpsertFirst(e, vectors, base, model, texts, which, |texts|)
  }

  function AllOf(texts: seq<string>): set<nat> {
    Range(0, |texts|)
  }

  function Rollback(s: Store, doc: nat, fails: bool): Store {
    if fails then s else s.(db := Cascade(s.db, doc))
  }

  /** The guarded part of an ingest: embed, index, record the model; the flag says whether it got through. */
  function IndexDocument(e: Embedding, s: Store, base: nat, model: string, texts: seq<string>, fault: Fault)
    : (Store, bool)
    requires texts != []
  {
    if fault.AtEmbed? then (s, false)
    else
      var landed := if fault.AtVectorAdd? then fault.landed else AllOf(texts);
      var t := s.(vectors := Upsert(e, s.vectors, base, model, texts, landed));
      if fault.AtVectorAdd? || fault.AtModelMeta? then (t, false)
      else
        var u := t.(db := t.db.(model := Some(model)));
        var d := |e(model, texts[0])|;
        if d == 0 then (u, true)
        else if fault.AtDimensionMeta? then (u, false)
        else (u.(db := u.db.(dimension := Some(d))), true)
  }

  /** `add_document`; the flag says whether it returned. */
  function AddDocument(e: Embedding, s: Store, model: string, filename: string, texts: seq<string>, fault: Fault,
                       rollbackFails: bool): (Store, bool) {
    if !ModelAccepted(s.db, model) || fault.AtParse? then (s, false)
    else
      var doc := s.db.nextDoc;
      var base := s.db.nextChunk;
      var withDoc := InsertDoc(s.db, filename);
      if texts == [] then (s.(db := withDoc), true)
      else if fault.AfterChunks? && fault.n < |texts| then (s.(db := InsertChunks(withDoc, doc, texts, fault.n)), false)
      else
        var db := InsertChunks(withDoc, doc, texts, |texts|);
        var (t, done) := IndexDocument(e, s.(db := db), base, model, texts, fault);
        (if done then t else Rollback(t, doc, rollbackFails), done)
  }

  // ---------------------------------------------------------------- delete and rebuild

  /** Where a delete breaks: nowhere, in the index after dropping the points in `dropped` only, or in the
      tables with all points gone. */
  datatype DeleteFault = NoDeleteFault | IndexRefuses(dropped: set<nat>) | TablesRefuse

  /** `delete_document`.  A document without chunks does not need the index. */
  function DeleteDocument(s: Store, doc: nat, fault: DeleteFault): Store {
    var ids := ChunksOf(s.db, doc);
    if ids != {} && fault.IndexRefuses? then s.(vectors := s.vectors - (ids * fault.dropped))
    else if fault.TablesRefuse? then s.(vectors := s.vectors - ids)
    else Store(Cascade(s.db, doc), s.vectors - ids)
  }

  /** One document of a rebuild: its file is gone, or it is read again. */
  datatype Redo = Missing | Reread(filename: string, texts: seq<string>, fault: Fault, rollbackFails: bool)

  function ReAdd(e: Embedding, s: Store, model: string, redo: seq<Redo>): Store {
    if redo == [] then s
    else
      var t := ReAdd(e, s, model, redo[..|redo| - 1]);
      match redo[|redo| - 1]
      case Missing => t
      case Reread(f, texts, fault, rf) => AddDocument(e, t, model, f, texts, fault, rf).0
  }

  /** How many of them came back. */
  function Returned(e: Embedding, s: Store, model: string, redo: seq<Redo>): nat {
    if redo == [] then 0
    else
      var t := ReAdd(e, s, model, redo[..|redo| - 1]);
      Returned(e, s, model, redo[..|redo| - 1]) +
      match redo[|redo| - 1]
      case Missing => 0
      case Reread(f, texts, fault, rf) => if AddDocument(e, t, model, f, texts, fault, rf).1 then 1 else 0
  }

  /** The points that survive a `reset`. */
  function Kept(vectors: map<nat, Vector>, left: set<nat>): map<nat, Vector> {
    map id | id in vectors && id in left :: vectors[id]
  }

  /** What the re-ingests of a rebuild start from. */
  function Cleared(s: Store, left: set<nat>): Store {
    Store(ClearAll(s.db), Kept(s.vectors, left))
  }

  /** `rebuild`.  A failing `reset` is swallowed by the source and may leave any points behind.  Where the
      tables refuse to be cleared, the rebuild ends there with the points already gone. */
  function Rebuild(e: Embedding, s: Store, model: string, left: set<nat>, refused: bool, redo: seq<Redo>): Store {
    if refused then s.(vectors := Kept(s.vectors, left)) else ReAdd(e, Cleared(s, left), model, redo)
  }

  // ---------------------------------------------------------------- runs

  datatype Op =
    | Add(model: string, filename: string, texts: seq<string>, fault: Fault, rollbackFails: bool)
    | Delete(doc: nat, deleteFault: DeleteFault)
    | RebuildAll(model: string, left: set<nat>, refused: bool, redo: seq<Redo>)

  function Apply(e: Embedding, s: Store, op: Op): Store {
    match op
    case Add(m, f, texts, fault, rf) => AddDocument(e, s, m, f, texts, fault, rf).0
    case Delete(doc, fault) => DeleteDocument(s, doc, fault)
    case RebuildAll(m, left, refused, redo) => Rebuild(e, s, m, left, refused, redo)
  }

  function Run(e: Embedding, s: Store, ops: seq<Op>): Store {
    if ops == [] then s else Apply(e, Run(e, s, ops[..|ops| - 1]), ops[|ops| - 1])
  }

  // ---------------------------------------------------------------- invariants

  ghost predicate Genuine(e: Embedding, v: Vector, text: string) {
    exists m :: v == e(m, text)
  }

  /** Ids in use lie below their counters, chunks have their document, every live vector was computed
      from the text of its own chunk, and the full-text rows mirror the chunks. */
  ghost predicate Sound(e: Embedding, s: Store) {
    && (forall id :: id in s.db.chunks ==> id < s.db.nextChunk && s.db.chunks[id].docId in s.db.docs)
    && (forall id :: id in s.vectors ==> id < s.db.nextChunk)
    && (forall id :: id in s.db.docs ==> id < s.db.nextDoc)
    && (forall id :: id in s.vectors && id in s.db.chunks ==> Genuine(e, s.vectors[id], s.db.chunks[id].content))
    && Mirrored(s.db)
  }

  /** The full-text rows are exactly the chunk rows. */
  ghost predicate Mirrored(db: Db) {
    db.fts.Keys == db.chunks.Keys && forall id :: id in db.chunks ==> db.fts[id] == db.chunks[id].content
  }

  /** `t` is `db` with the first `n` texts of document `doc` as rows, numbered from the counter on. */
  ghost predicate HasRows(db: Db, t: Db, doc: nat, texts: seq<string>, n: nat)
    requires n <= |texts|
  {
    && t.docs == db.docs && t.model == db.model && t.dimension == db.dimension && t.nextDoc == db.nextDoc
    && t.nextChunk == db.nextChunk + n
    && HasChunkRows(db.chunks, t.chunks, db.nextChunk, doc, texts, n)
    && HasTextRows(db.fts, t.fts, db.nextChunk, texts, n)
  }

  ghost predicate HasChunkRows(c: map<nat, Chunk>, t: map<nat, Chunk>, base: nat, doc: nat, texts: seq<string>, n: nat)
    requires n <= |texts|
  {
    && (forall id :: id in t <==> id in c || base <= id < base + n)
    && (forall id :: id in t ==>
          t[id] == if base <= id < base + n then Chunk(doc, texts[id - base], id - base) else c[id])
  }

  ghost predicate HasTextRows(f: map<nat, string>, t: map<nat, string>, base: nat, texts: seq<string>, n: nat)
    requires n <= |texts|
  {
    && (forall id :: id in t <==> id in f || base <= id < base + n)
    && (forall id :: id in t ==> t[id] == if base <= id < base + n then texts[id - base] else f[id])
  }

  lemma {:induction false} InsertChunksShape(db: Db, doc: nat, texts: seq<string>, n: nat)
    requires n <= |texts|
    ensures HasRows(db, InsertChunks(db, doc, texts, n), doc, texts, n)
  {
    hide HasChunkRows, HasTextRows;
    if n == 0 {
      NoRows(db, doc, texts);
    } else {
      InsertChunksShape(db, doc, texts, n - 1);
      var t := InsertChunks(db, doc, texts, n - 1);
      NextChunkRow(db.chunks, t.chunks, db.nextChunk, doc, texts, n);
      NextTextRow(db.fts, t.fts, db.nextChunk, texts, n);
    }
  }

  lemma NoRows(db: Db, doc: nat, texts: seq<string>)
    ensures HasChunkRows(db.chunks, db.chunks, db.nextChunk, doc, texts, 0)
            && HasTextRows(db.fts, db.fts, db.nextChunk, texts, 0)
  {
  }

  lemma NextChunkRow(c: map<nat, Chunk>, t: map<nat, Chunk>, base: nat, doc: nat, texts: seq<string>, n: nat)
    requires 0 < n <= |texts| && HasChunkRows(c, t, base, doc, texts, n - 1)
    ensures HasChunkRows(c, t[base + n - 1 := Chunk(doc, texts[n - 1], n - 1)], base, doc, texts, n)
  {
  }

  lemma NextTextRow(f: map<nat, string>, t: map<nat, string>, base: nat, texts: seq<string>, n: nat)
    requires 0 < n <= |texts| && HasTextRows(f, t, base, texts, n - 1)
    ensures HasTextRows(f, t[base + n - 1 := texts[n - 1]], base, texts, n)
  {
  }

  /** The store with a new document, its first `n` chunk rows, and the points in `which`. */
  function Grown(e: Embedding, s: Store, model: string, filename: string, texts: seq<string>, n: nat,
                 which: set<nat>): Store
    requires n <= |texts|
  {
    Store(InsertChunks(InsertDoc(s.db, filename), s.db.nextDoc, texts, n),
          Upsert(e, s.vectors, s.db.nextChunk, model, texts, which))
  }

  /** Which points an upsert leaves, and what they hold. */
  ghost predicate HasPoints(e: Embedding, vectors: map<nat, Vector>, u: map<nat, Vector>, base: nat, model: string,
                            texts: seq<string>, which: set<nat>, n: nat)
    requires n <= |texts|
  {
    && (forall id :: id in u <==> id in vectors || (base <= id < base + n && id - base in which))
    && (forall id :: id in u ==>
          u[id] == if base <= id < base + n && id - base in which then e(model, texts[id - base]) else vectors[id])
  }

  lemma {:induction false} UpsertShape(e: Embedding, vectors: map<nat, Vector>, base: nat, model: string,
                                       texts: seq<string>, which: set<nat>, n: nat)
    requires n <= |texts|
    ensures HasPoints(e, vectors, UpsertFirst(e, vectors, base, model, texts, which, n), base, model, texts, which, n)
  {
    if n > 0 {
      UpsertShape(e, vectors, base, model, texts, which, n - 1);
    }
  }

  lemma {:induction false} NothingUpserted(e: Embedding, vectors: map<nat, Vector>, base: nat, model: string,
                                           texts: seq<string>, which: set<nat>, n: nat)
    requires n <= |texts| && forall i: nat :: i < n ==> i !in which
    ensures UpsertFirst(e, vectors, base, model, texts, which, n) == vectors
  {
    if n > 0 {
      NothingUpserted(e, vectors, base, model, texts, which, n - 1);
    }
  }

  lemma GrownTables(e: Embedding, s: Store, model: string, filename: string, texts: seq<string>, n: nat,
                    which: set<nat>)
    requires Sound(e, s) && n <= |texts|
    ensures var g := Grown(e, s, model, filename, texts, n, which);
            && (forall id :: id in g.db.chunks ==> id < g.db.nextChunk && g.db.chunks[id].docId in g.db.docs)
            && (forall id :: id in g.db.docs ==> id < g.db.nextDoc)
            && Mirrored(g.db)
  {
    InsertChunksShape(InsertDoc(s.db, filename), s.db.nextDoc, texts, n);
    hide Range, InsertChunks, UpsertFirst;
  }

  lemma GrownVectors(e: Embedding, s: Store, model: string, filename: string, texts: seq<string>, n: nat,
                     which: set<nat>)
    requires Sound(e, s) && n <= |texts| && (n < |texts| ==> which == {})
    ensures var g := Grown(e, s, model, filename, texts, n, which);
            && (forall id :: id in g.vectors ==> id < g.db.nextChunk)
            && (forall id :: id in g.vectors && id in g.db.chunks ==>
                  Genuine(e, g.vectors[id], g.db.chunks[id].content))
  {
    InsertChunksShape(InsertDoc(s.db, filename), s.db.nextDoc, texts, n);
    NothingUpserted(e, s.vectors, s.db.nextChunk, model, texts, {}, |texts|);
    UpsertShape(e, s.vectors, s.db.nextChunk, model, texts, which, |texts|);
    var g := Grown(e, s, model, filename, texts, n, which);
    hide InsertChunks, Genuine, UpsertFirst, Mirrored;
    forall id | id in g.vectors && id in g.db.chunks ensures Genuine(e, g.vectors[id], g.db.chunks[id].content) {
      if s.db.nextChunk <= id {
        Fresh(e, model, g.db.chunks[id].content);
      }
    }
  }

  lemma Fresh(e: Embedding, model: string, text: string)
    ensures Genuine(e, e(model, text), text)
  {
  }

  lemma GrownSound(e: Embedding, s: Store, model: string, filename: string, texts: seq<string>, n: nat, which: set<nat>)
    requires Sound(e, s) && n <= |texts| && (n < |texts| ==> which == {})
    ensures Sound(e, Grown(e, s, model, filename, texts, n, which))
  {
    GrownTables(e, s, model, filename, texts, n, which);
    GrownVectors(e, s, model, filename, texts, n, which);
  }

  lemma CascadeSound(e: Embedding, s: Store, doc: nat)
    requires Sound(e, s)
    ensures Sound(e, s.(db := Cascade(s.db, doc)))
  {
  }

  lemma FewerVectorsSound(e: Embedding, s: Store, vectors: map<nat, Vector>)
    requires Sound(e, s) && forall id :: id in vectors ==> id in s.vectors && vectors[id] == s.vectors[id]
    ensures Sound(e, s.(vectors := vectors))
  {
  }

  lemma ClearSound(e: Embedding, s: Store)
    requires Sound(e, s)
    ensures Sound(e, s.(db := ClearAll(s.db)))
  {
    assert s.db.fts - s.db.chunks.Keys == map[];
  }

  /** Every way an ingest can end, as a growth followed by at most a cascade and meta writes. */
  lemma AddSound(e: Embedding, s: Store, model: string, filename: string, texts: seq<string>, fault: Fault, rf: bool)
    requires Sound(e, s)
    ensures Sound(e, AddDocument(e, s, model, filename, texts, fault, rf).0)
  {
    hide Sound, Range, UpsertFirst, Cascade, InsertChunk;
    var landed := if fault.AtVectorAdd? then fault.landed else if fault.AtEmbed? then {} else AllOf(texts);
    var n := if fault.AfterChunks? && fault.n < |texts| then fault.n else |texts|;
    var which := if n < |texts| || texts == [] then {} else landed;
    NothingUpserted(e, s.vectors, s.db.nextChunk, model, texts, {}, |texts|);
    GrownSound(e, s, model, filename, texts, n, which);
    var g := Grown(e, s, model, filename, texts, n, which);
    MetaIsFree(e, g, Some(model), g.db.dimension);
    MetaIsFree(e, g, Some(model), Some(if texts == [] then 0 else |e(model, texts[0])|));
    CascadeSound(e, g, s.db.nextDoc);
    CascadeSound(e, g.(db := g.db.(model := Some(model))), s.db.nextDoc);
  }

  lemma MetaIsFree(e: Embedding, s: Store, model: Option<string>, dimension: Option<nat>)
    requires Sound(e, s)
    ensures Sound(e, s.(db := s.db.(model := model, dimension := dimension)))
  {
  }

  lemma DeleteSound(e: Embedding, s: Store, doc: nat, fault: DeleteFault)
    requires Sound(e, s)
    ensures Sound(e, DeleteDocument(s, doc, fault))
  {
    var ids := ChunksOf(s.db, doc);
    if ids != {} && fault.IndexRefuses? {
      FewerVectorsSound(e, s, s.vectors - (ids * fault.dropped));
    } else {
      FewerVectorsSound(e, s, s.vectors - ids);
      CascadeSound(e, s.(vectors := s.vectors - ids), doc);
    }
  }

  lemma {:induction false} ReAddSound(e: Embedding, s: Store, model: string, redo: seq<Redo>)
    requires Sound(e, s)
    ensures Sound(e, ReAdd(e, s, model, redo))
  {
    hide Sound, AddDocument;
    if redo != [] {
      ReAddSound(e, s, model, redo[..|redo| - 1]);
      match redo[|redo| - 1]
      case Missing =>
      case Reread(f, texts, fault, rf) =>
        AddSound(e, ReAdd(e, s, model, redo[..|redo| - 1]), model, f, texts, fault, rf);
    }
  }

  lemma RebuildSound(e: Embedding, s: Store, model: string, left: set<nat>, refused: bool, redo: seq<Redo>)
    requires Sound(e, s)
    ensures Sound(e, Rebuild(e, s, model, left, refused, redo))
  {
    var kept := Kept(s.vectors, left);
    FewerVectorsSound(e, s, kept);
    ClearSound(e, s.(vectors := kept));
    ReAddSound(e, Cleared(s, left), model, redo);
  }

  lemma ApplySound(e: Embedding, s: Store, op: Op)
    requires Sound(e, s)
    ensures Sound(e, Apply(e, s, op))
  {
    match op
    case Add(m, f, texts, fault, rf) => AddSound(e, s, m, f, texts, fault, rf);
    case Delete(doc, fault) => DeleteSound(e, s, doc, fault);
    case RebuildAll(m, left, refused, redo) => RebuildSound(e, s, m, left, refused, redo);
  }

  /** Main result: after any run of ingests, deletes and rebuilds, however they fail, no vector stands for
      a text it was not computed from, and the full-text rows are exactly the chunks. */
  lemma {:induction false} NoAliasing(e: Embedding, ops: seq<Op>)
    ensures Sound(e, Run(e, EmptyStore(), ops))
  {
    if ops == [] {
    } else {
      NoAliasing(e, ops[..|ops| - 1]);
      ApplySound(e, Run(e, EmptyStore(), ops[..|ops| - 1]), ops[|ops| - 1]);
    }
  }

  // ---------------------------------------------------------------- ids are never reused

  /** `t` may come after `s`: an id handed out by then is either gone for good or still the same chunk. */
  ghost predicate Follows(s: Store, t: Store) {
    && s.db.nextChunk <= t.db.nextChunk
    && forall id :: id in t.db.chunks && id < s.db.nextChunk ==> id in s.db.chunks && t.db.chunks[id] == s.db.chunks[id]
  }

  lemma FollowsTransitive(s: Store, t: Store, u: Store)
    requires Follows(s, t) && Follows(t, u)
    ensures Follows(s, u)
  {
  }

  lemma AddFollows(e: Embedding, s: Store, model: string, filename: string, texts: seq<string>, fault: Fault, rf: bool)
    ensures Follows(s, AddDocument(e, s, model, filename, texts, fault, rf).0)
  {
    var n := if fault.AfterChunks? && fault.n < |texts| then fault.n else |texts|;
    InsertChunksShape(InsertDoc(s.db, filename), s.db.nextDoc, texts, n);
    hide InsertChunks, UpsertFirst;
  }

  lemma {:induction false} ReAddFollows(e: Embedding, s: Store, model: string, redo: seq<Redo>)
    ensures Follows(s, ReAdd(e, s, model, redo))
  {
    hide AddDocument;
    if redo != [] {
      var t := ReAdd(e, s, model, redo[..|redo| - 1]);
      ReAddFollows(e, s, model, redo[..|redo| - 1]);
      match redo[|redo| - 1]
      case Missing =>
      case Reread(f, texts, fault, rf) =>
        AddFollows(e, t, model, f, texts, fault, rf);
        FollowsTransitive(s, t, AddDocument(e, t, model, f, texts, fault, rf).0);
    }
  }

  lemma ApplyFollows(e: Embedding, s: Store, op: Op)
    ensures Follows(s, Apply(e, s, op))
  {
    match op
    case Add(m, f, texts, fault, rf) => AddFollows(e, s, m, f, texts, fault, rf);
    case Delete(doc, fault) =>
    case RebuildAll(m, left, refused, redo) =>
      ReAddFollows(e, Cleared(s, left), m, redo);
      FollowsTransitive(s, Cleared(s, left), ReAdd(e, Cleared(s, left), m, redo));
  }

  /** Over any continuation, an id whose chunk is gone stays gone, and a chunk that is still there still
      has its text: a vector is its own chunk's or dangles for ever. */
  lemma {:induction false} GoneForGood(e: Embedding, s: Store, ops: seq<Op>)
    ensures Follows(s, Run(e, s, ops))
  {
    hide Apply;
    if ops != [] {
      var t := Run(e, s, ops[..|ops| - 1]);
      GoneForGood(e, s, ops[..|ops| - 1]);
      ApplyFollows(e, t, ops[|ops| - 1]);
      FollowsTransitive(s, t, Apply(e, t, ops[|ops| - 1]));
    }
  }
  /** A point without its chunk never gets a chunk again, whatever happens next. */
  lemma DanglesForEver(e: Embedding, ops: seq<Op>, more: seq<Op>, id: nat)
    requires var s := Run(e, EmptyStore(), ops); id in s.vectors && id !in s.db.chunks
    ensures id !in Run(e, Run(e, EmptyStore(), ops), more).db.chunks
  {
    hide Run, Genuine, Mirrored;
    NoAliasing(e, ops);
    GoneForGood(e, Run(e, EmptyStore(), ops), more);
  }
}
