/** The recorded embedding model against the vectors that are searched: agentflow/knowledge/store.py,
    `_check_embedding_model` and the meta writes of `add_document`. */
module EmbeddingModels {

  import opened KnowledgeStores
  import opened Lists
  import opened Options

  predicate Recorded(db: Db) {
    db.model.Some? && db.model.value != ""
  }

  /** Every live vector comes from the recorded model; without a recorded model there is none. */
  ghost predicate ModelAgrees(e: Embedding, s: Store) {
    forall id :: id in s.vectors && id in s.db.chunks ==>
      Recorded(s.db) && s.vectors[id] == e(s.db.model.value, s.db.chunks[id].content)
  }

  /** Fewer chunks or fewer vectors under the same record. */
  lemma ShrunkAgrees(e: Embedding, s: Store, t: Store)
    requires ModelAgrees(e, s) && t.db.model == s.db.model
    requires forall id :: id in t.vectors && id in t.db.chunks ==>
               id in s.vectors && id in s.db.chunks && t.vectors[id] == s.vectors[id]
                 && t.db.chunks[id] == s.db.chunks[id]
    ensures ModelAgrees(e, t)
  {
  }

  /** What the new document's rows and points look like beside the old ones. */
  lemma GrownLive(e: Embedding, s: Store, model: string, filename: string, texts: seq<string>, which: set<nat>)
    requires Sound(e, s)
    ensures var g := Grown(e, s, model, filename, texts, |texts|, which);
            g.db.model == s.db.model && OldOnesStay(s, g) && NewOnesMatch(e, s.db.nextChunk, g, model, texts, which)
  {
    var g := Grown(e, s, model, filename, texts, |texts|, which);
    InsertChunksShape(InsertDoc(s.db, filename), s.db.nextDoc, texts, |texts|);
    UpsertShape(e, s.vectors, s.db.nextChunk, model, texts, which, |texts|);
    GrownOld(e, s, g, s.db.nextDoc, filename, model, texts, which);
    GrownNew(e, s, g, s.db.nextDoc, filename, model, texts, which);
  }

  ghost predicate OldOnesStay(s: Store, g: Store) {
    && (forall id :: id in g.db.chunks && id < s.db.nextChunk ==>
          id in s.db.chunks && g.db.chunks[id] == s.db.chunks[id])
    && (forall id :: id in g.vectors && id < s.db.nextChunk ==> id in s.vectors && g.vectors[id] == s.vectors[id])
  }

  ghost predicate NewOnesMatch(e: Embedding, base: nat, g: Store, model: string, texts: seq<string>, which: set<nat>) {
    && (forall id :: id in g.vectors && base <= id ==>
          id in g.db.chunks && g.vectors[id] == e(model, g.db.chunks[id].content))
    && (forall i :: i in which && i < |texts| ==> base + i in g.vectors)
  }

  lemma GrownOld(e: Embedding, s: Store, g: Store, doc: nat, filename: string, model: string, texts: seq<string>,
                 which: set<nat>)
    requires Sound(e, s)
    requires HasRows(InsertDoc(s.db, filename), g.db, doc, texts, |texts|)
    requires HasPoints(e, s.vectors, g.vectors, s.db.nextChunk, model, texts, which, |texts|)
    ensures OldOnesStay(s, g)
  {
    hide Genuine, Mirrored;
  }

  lemma GrownNew(e: Embedding, s: Store, g: Store, doc: nat, filename: string, model: string, texts: seq<string>,
                 which: set<nat>)
    requires Sound(e, s)
    requires HasRows(InsertDoc(s.db, filename), g.db, doc, texts, |texts|)
    requires HasPoints(e, s.vectors, g.vectors, s.db.nextChunk, model, texts, which, |texts|)
    ensures NewOnesMatch(e, s.db.nextChunk, g, model, texts, which)
  {
    hide Genuine, Mirrored;
  }

  /** A complete growth whose model gets recorded. */
  lemma RecordedGrowthAgrees(e: Embedding, s: Store, model: string, filename: string, texts: seq<string>,
                             which: set<nat>, dimension: Option<nat>)
    requires Sound(e, s) && ModelAgrees(e, s) && model != "" && ModelAccepted(s.db, model)
    ensures var g := Grown(e, s, model, filename, texts, |texts|, which);
            ModelAgrees(e, g.(db := g.db.(model := Some(model), dimension := dimension)))
  {
    GrownLive(e, s, model, filename, texts, which);
    hide InsertChunks, UpsertFirst, Sound;
  }

  /** A growth whose model does not get recorded. */
  lemma UnrecordedGrowthAgreesIff(e: Embedding, s: Store, model: string, filename: string, texts: seq<string>,
                                  which: set<nat>)
    requires Sound(e, s) && ModelAgrees(e, s) && model != "" && ModelAccepted(s.db, model)
    ensures ModelAgrees(e, Grown(e, s, model, filename, texts, |texts|, which))
        <==> Recorded(s.db) || which * AllOf(texts) == {}
  {
    GrownLive(e, s, model, filename, texts, which);
    var g := Grown(e, s, model, filename, texts, |texts|, which);
    hide InsertChunks, UpsertFirst, Sound, Range;
    if !Recorded(s.db) && which * AllOf(texts) != {} {
      var i :| i in which * AllOf(texts);
      assert s.db.nextChunk + i in g.vectors && s.db.nextChunk + i in g.db.chunks;
    }
    if !Recorded(s.db) && which * AllOf(texts) == {} {
      forall n: nat | n < |texts| ensures n !in which {
        assert n in AllOf(texts);
      }
      NothingUpserted(e, s.vectors, s.db.nextChunk, model, texts, which, |texts|);
    }
  }

  /** Rolling the new document back restores what was searchable. */
  lemma RolledBackAgrees(e: Embedding, s: Store, model: string, filename: string, texts: seq<string>,
                         which: set<nat>, recorded: Option<string>)
    requires Sound(e, s) && ModelAgrees(e, s) && model != "" && ModelAccepted(s.db, model)
    requires recorded == s.db.model || recorded == Some(model)
    ensures var g := Grown(e, s, model, filename, texts, |texts|, which);
            ModelAgrees(e, g.(db := Cascade(g.db.(model := recorded), s.db.nextDoc)))
  {
    var g := Grown(e, s, model, filename, texts, |texts|, which);
    InsertChunksShape(InsertDoc(s.db, filename), s.db.nextDoc, texts, |texts|);
    GrownLive(e, s, model, filename, texts, which);
    hide InsertChunks, UpsertFirst, Range;
  }

  /** The ingest leaves searchable vectors behind while no model is recorded. */
  predicate Leaves(s: Store, model: string, texts: seq<string>, fault: Fault, rollbackFails: bool) {
    && ModelAccepted(s.db, model)
    && !Recorded(s.db)
    && rollbackFails
    && texts != []
    && (fault.AtModelMeta? || (fault.AtVectorAdd? && fault.landed * AllOf(texts) != {}))
  }

  /** Exactly when an ingest breaks the agreement: no model was recorded, points landed, the model write
      was not reached, and the rollback itself failed. */
  lemma AddAgreesIff(e: Embedding, s: Store, model: string, filename: string, texts: seq<string>, fault: Fault,
                     rf: bool)
    requires Sound(e, s) && ModelAgrees(e, s) && model != ""
    ensures ModelAgrees(e, AddDocument(e, s, model, filename, texts, fault, rf).0)
            <==> !Leaves(s, model, texts, fault, rf)
  {
    if !ModelAccepted(s.db, model) || fault.AtParse? || texts == [] {
      AddBeforeVectorsAgrees(e, s, model, filename, texts, fault, rf);
    } else if fault.AfterChunks? && fault.n < |texts| {
      AddBeforeVectorsAgrees(e, s, model, filename, texts, fault, rf);
    } else {
      AddWithVectorsAgreesIff(e, s, model, filename, texts, fault, rf);
    }
  }

  lemma AddBeforeVectorsAgrees(e: Embedding, s: Store, model: string, filename: string, texts: seq<string>,
                               fault: Fault, rf: bool)
    requires Sound(e, s) && ModelAgrees(e, s) && model != ""
    requires !ModelAccepted(s.db, model) || fault.AtParse? || texts == [] || (fault.AfterChunks? && fault.n < |texts|)
    ensures ModelAgrees(e, AddDocument(e, s, model, filename, texts, fault, rf).0)
            && !Leaves(s, model, texts, fault, rf)
  {
    if ModelAccepted(s.db, model) && fault.AfterChunks? && fault.n < |texts| {
      InsertChunksShape(InsertDoc(s.db, filename), s.db.nextDoc, texts, fault.n);
    }
    hide InsertChunks, UpsertFirst, Range;
  }

  lemma AddWithVectorsAgreesIff(e: Embedding, s: Store, model: string, filename: string, texts: seq<string>,
                                fault: Fault, rf: bool)
    requires Sound(e, s) && ModelAgrees(e, s) && model != ""
    requires ModelAccepted(s.db, model) && !fault.AtParse? && texts != [] && !(fault.AfterChunks? && fault.n < |texts|)
    ensures ModelAgrees(e, AddDocument(e, s, model, filename, texts, fault, rf).0)
            <==> !Leaves(s, model, texts, fault, rf)
  {
    hide Sound, ModelAgrees, Cascade, InsertChunks, Range, InsertDoc;
    var which := if fault.AtEmbed? then {} else if fault.AtVectorAdd? then fault.landed else AllOf(texts);
    NothingUpserted(e, s.vectors, s.db.nextChunk, model, texts, {}, |texts|);
    hide UpsertFirst;
    SomeIndex(texts);
    var g := Grown(e, s, model, filename, texts, |texts|, which);
    var d := |e(model, texts[0])|;
    GrownKeepsModel(e, s, model, filename, texts, which);
    UnrecordedGrowthAgreesIff(e, s, model, filename, texts, which);
    RecordedGrowthAgrees(e, s, model, filename, texts, which, g.db.dimension);
    RecordedGrowthAgrees(e, s, model, filename, texts, which, Some(d));
    RolledBackAgrees(e, s, model, filename, texts, which, g.db.model);
    RolledBackAgrees(e, s, model, filename, texts, which, Some(model));
  }

  lemma GrownKeepsModel(e: Embedding, s: Store, model: string, filename: string, texts: seq<string>, which: set<nat>)
    ensures Grown(e, s, model, filename, texts, |texts|, which).db.model == s.db.model
  {
    InsertChunksShape(InsertDoc(s.db, filename), s.db.nextDoc, texts, |texts|);
  }

  lemma SomeIndex(texts: seq<string>)
    requires texts != []
    ensures AllOf(texts) * AllOf(texts) != {} && {} * AllOf(texts) == {}
  {
    assert 0 in AllOf(texts) * AllOf(texts);
  }

  // ---------------------------------------------------------------- whole runs

  /** Every embedder of the run carries a name. */
  predicate Named(op: Op) {
    match op
    case Add(m, f, texts, fault, rf) => m != ""
    case Delete(doc, fault) => true
    case RebuildAll(m, left, refused, redo) => m != ""
  }

  /** Entry `n` of a rebuild leaves searchable vectors under no recorded model. */
  predicate RedoLeaves(e: Embedding, s: Store, model: string, redo: seq<Redo>, n: nat)
    requires n < |redo|
  {
    redo[n].Reread?
    && Leaves(ReAdd(e, s, model, redo[..n]), model, redo[n].texts, redo[n].fault, redo[n].rollbackFails)
  }

  /** No ingest of the rebuild does. */
  ghost predicate CleanRedo(e: Embedding, s: Store, model: string, redo: seq<Redo>) {
    forall n: nat :: n < |redo| ==> !RedoLeaves(e, s, model, redo, n)
  }

  ghost predicate CleanOp(e: Embedding, s: Store, op: Op) {
    match op
    case Add(m, f, texts, fault, rf) => !Leaves(s, m, texts, fault, rf)
    case Delete(doc, fault) => true
    case RebuildAll(m, left, refused, redo) => refused || CleanRedo(e, Cleared(s, left), m, redo)
  }

  /** No ingest of the run, alone or inside a rebuild, leaves vectors behind under no recorded model. */
  ghost predicate CleanRun(e: Embedding, ops: seq<Op>) {
    forall n: nat :: n < |ops| ==> CleanOp(e, Run(e, EmptyStore(), ops[..n]), ops[n])
  }

  /** The agreement holds after every document of a rebuild. */
  ghost predicate AgreesDuring(e: Embedding, s: Store, model: string, redo: seq<Redo>) {
    forall n: nat :: n <= |redo| ==> ModelAgrees(e, ReAdd(e, s, model, redo[..n]))
  }

  /** The agreement holds after the call and, inside a rebuild, after every document. */
  ghost predicate AgreesThrough(e: Embedding, s: Store, op: Op) {
    && ModelAgrees(e, Apply(e, s, op))
    && (op.RebuildAll? && !op.refused ==> AgreesDuring(e, Cleared(s, op.left), op.model, op.redo))
  }

  ghost predicate AgreesThroughout(e: Embedding, ops: seq<Op>) {
    forall n: nat :: n < |ops| ==> AgreesThrough(e, Run(e, EmptyStore(), ops[..n]), ops[n])
  }

  lemma RedoStep(e: Embedding, s: Store, model: string, redo: seq<Redo>, n: nat)
    requires n < |redo| && model != ""
    requires Sound(e, ReAdd(e, s, model, redo[..n])) && ModelAgrees(e, ReAdd(e, s, model, redo[..n]))
    ensures ModelAgrees(e, ReAdd(e, s, model, redo[..n + 1])) <==> !RedoLeaves(e, s, model, redo, n)
  {
    hide Sound, ModelAgrees, AddDocument, Leaves;
    var t := ReAdd(e, s, model, redo[..n]);
    assert redo[..n + 1][..n] == redo[..n];
    var r := redo[n];
    if r.Reread? {
      AddAgreesIff(e, t, model, r.filename, r.texts, r.fault, r.rollbackFails);
    }
  }

  /** A clean rebuild agrees after every document. */
  lemma {:induction false} CleanRedoAgrees(e: Embedding, s: Store, model: string, redo: seq<Redo>, n: nat)
    requires Sound(e, s) && ModelAgrees(e, s) && model != "" && n <= |redo|
    requires forall k: nat :: k < n ==> !RedoLeaves(e, s, model, redo, k)
    ensures Sound(e, ReAdd(e, s, model, redo[..n])) && ModelAgrees(e, ReAdd(e, s, model, redo[..n]))
  {
    hide Sound, ModelAgrees, RedoLeaves;
    ReAddSound(e, s, model, redo[..n]);
    if n > 0 {
      CleanRedoAgrees(e, s, model, redo, n - 1);
      RedoStep(e, s, model, redo, n - 1);
    }
  }

  lemma {:induction false} AgreesDuringIff(e: Embedding, s: Store, model: string, redo: seq<Redo>)
    requires Sound(e, s) && ModelAgrees(e, s) && model != ""
    ensures AgreesDuring(e, s, model, redo) <==> CleanRedo(e, s, model, redo)
  {
    hide Sound, ModelAgrees, RedoLeaves, ReAdd;
    if CleanRedo(e, s, model, redo) {
      forall n: nat | n <= |redo| ensures ModelAgrees(e, ReAdd(e, s, model, redo[..n])) {
        CleanRedoAgrees(e, s, model, redo, n);
      }
    }
    if AgreesDuring(e, s, model, redo) {
      forall n: nat | n < |redo| ensures !RedoLeaves(e, s, model, redo, n) {
        ReAddSound(e, s, model, redo[..n]);
        RedoStep(e, s, model, redo, n);
      }
    }
  }

  lemma ClearedAgrees(e: Embedding, s: Store, left: set<nat>)
    requires Sound(e, s)
    ensures Sound(e, Cleared(s, left)) && ModelAgrees(e, Cleared(s, left))
  {
    FewerVectorsSound(e, s, Kept(s.vectors, left));
    ClearSound(e, s.(vectors := Kept(s.vectors, left)));
  }

  lemma OpAgreesIff(e: Embedding, s: Store, op: Op)
    requires Sound(e, s) && ModelAgrees(e, s) && Named(op)
    ensures AgreesThrough(e, s, op) <==> CleanOp(e, s, op)
  {
    match op
    case Add(m, f, texts, fault, rf) => AddAgreesIff(e, s, m, f, texts, fault, rf);
    case Delete(doc, fault) => ShrunkAgrees(e, s, DeleteDocument(s, doc, fault));
    case RebuildAll(m, left, refused, redo) =>
      if refused {
        ShrunkAgrees(e, s, s.(vectors := Kept(s.vectors, left)));
      }
      ClearedAgrees(e, s, left);
      hide Sound, ModelAgrees;
      AgreesDuringIff(e, Cleared(s, left), m, redo);
      assert redo[..|redo|] == redo;
  }

  /** A clean run ends in agreement. */
  lemma {:induction false} CleanRunAgrees(e: Embedding, ops: seq<Op>)
    requires CleanRun(e, ops) && forall op :: op in ops ==> Named(op)
    ensures ModelAgrees(e, Run(e, EmptyStore(), ops))
  {
    if ops != [] {
      hide Sound, ModelAgrees, CleanOp, Apply;
      var n := |ops| - 1;
      var front := ops[..n];
      forall k: nat | k < |front| ensures CleanOp(e, Run(e, EmptyStore(), front[..k]), front[k]) {
        assert front[..k] == ops[..k] && front[k] == ops[k];
      }
      NoAliasing(e, front);
      CleanRunAgrees(e, front);
      OpAgreesIff(e, Run(e, EmptyStore(), front), ops[n]);
    }
  }

  /** Main result: over a whole run, between all its calls and all documents of its rebuilds, the recorded
      model is the model of every vector a search can return exactly when no ingest breaks with its points
      landed, its rollback failed and no model recorded.  Every other failure is harmless. */
  lemma {:induction false} ModelAgreesThroughoutIff(e: Embedding, ops: seq<Op>)
    requires forall op :: op in ops ==> Named(op)
    ensures AgreesThroughout(e, ops) <==> CleanRun(e, ops)
  {
    hide Sound, ModelAgrees, CleanOp, Apply, AgreesThrough, Run;
    if AgreesThroughout(e, ops) {
      forall n: nat | n < |ops| ensures CleanOp(e, Run(e, EmptyStore(), ops[..n]), ops[n]) {
        StateAgrees(e, ops, n);
        NoAliasing(e, ops[..n]);
        OpAgreesIff(e, Run(e, EmptyStore(), ops[..n]), ops[n]);
      }
    }
    if CleanRun(e, ops) {
      forall n: nat | n < |ops| ensures AgreesThrough(e, Run(e, EmptyStore(), ops[..n]), ops[n]) {
        forall k: nat | k < n ensures CleanOp(e, Run(e, EmptyStore(), ops[..n][..k]), ops[..n][k]) {
          assert ops[..n][..k] == ops[..k];
        }
        CleanRunAgrees(e, ops[..n]);
        NoAliasing(e, ops[..n]);
        OpAgreesIff(e, Run(e, EmptyStore(), ops[..n]), ops[n]);
      }
    }
  }

  /** In a run that agrees throughout, the state before call `n` agrees. */
  lemma StateAgrees(e: Embedding, ops: seq<Op>, n: nat)
    requires n < |ops| && AgreesThroughout(e, ops)
    ensures ModelAgrees(e, Run(e, EmptyStore(), ops[..n]))
  {
    if n > 0 {
      hide ModelAgrees, Apply;
      assert AgreesThrough(e, Run(e, EmptyStore(), ops[..n - 1]), ops[n - 1]);
      assert ops[..n][..n - 1] == ops[..n - 1];
    }
  }

  /** A failed rollback on a fresh store is enough: the vectors stay searchable and any model is accepted. */
  lemma FailedRollbackMixesModels(e: Embedding, model: string, filename: string, text: string)
    requires model != ""
    ensures var s := AddDocument(e, EmptyStore(), model, filename, [text], AtModelMeta, true).0;
            !ModelAgrees(e, s) && forall other :: ModelAccepted(s.db, other)
  {
    AddAgreesIff(e, EmptyStore(), model, filename, [text], AtModelMeta, true);
    GrownKeepsModel(e, EmptyStore(), model, filename, [text], AllOf([text]));
  }
}
