/** Hybrid search over the knowledge store: agentflow/knowledge/retrieval.py, from the two result lists to
    the formatted hits.  Scores are exact; the source rounds them to four digits when formatting. */
module Retrieval {

  import opened KnowledgeStores
  import opened Lists
  import EmbeddingModels
  import opened RankFusion
  import opened Options

  datatype Row = Row(docId: nat, filename: string, content: string)

  datatype Side = Hybrid | VectorOnly | LexicalOnly

  datatype Result = Result(chunkId: nat, row: Row, score: real, vectorScore: real, lexicalScore: real, side: Side)

  /** Similarity of two vectors, as the index computes it. */
  type Similarity = (Vector, Vector) -> real

  /** The join of chunks and documents, one chunk at a time. */
  function Lookup(db: Db, id: nat): Option<Row> {
    if id in db.chunks && db.chunks[id].docId in db.docs
    then Some(Row(db.chunks[id].docId, db.docs[db.chunks[id].docId], db.chunks[id].content))
    else None
  }

  /** An empty list of documents filters nothing. */
  predicate Wanted(documents: seq<nat>, doc: nat) {
    documents == [] || doc in documents
  }

  // ---------------------------------------------------------------- one-sided results

  /** Without a document filter the tables are not consulted at this point. */
  predicate Qualifies(db: Db, documents: seq<nat>, minScore: real, hit: Hit) {
    && hit.score >= minScore
    && (documents == [] || (Lookup(db, hit.id).Some? && Lookup(db, hit.id).value.docId in documents))
  }

  function Qualified(db: Db, documents: seq<nat>, minScore: real, hits: seq<Hit>): seq<Hit> {
    if hits == [] then []
    else
      var front := Qualified(db, documents, minScore, hits[..|hits| - 1]);
      if Qualifies(db, documents, minScore, hits[|hits| - 1]) then front + [hits[|hits| - 1]] else front
  }

  function Single(id: nat, row: Row, score: real, side: Side): Result {
    Result(id, row, score, if side.VectorOnly? then score else 0.0, if side.LexicalOnly? then score else 0.0, side)
  }

  function SingleRows(db: Db, hits: seq<Hit>, side: Side): seq<Result> {
    if hits == [] then []
    else
      var front, last := SingleRows(db, hits[..|hits| - 1], side), hits[|hits| - 1];
      match Lookup(db, last.id)
      case Some(row) => front + [Single(last.id, row, last.score, side)]
      case None => front
  }

  /** The size test follows the append, so even top_k = 0 lets one hit through. */
  function AtLeastOne(k: nat): nat {
    if k == 0 then 1 else k
  }

  function FormatSingle(db: Db, hits: seq<Hit>, k: nat, minScore: real, documents: seq<nat>, side: Side): seq<Result> {
    SingleRows(db, Take(Qualified(db, documents, minScore, hits), AtLeastOne(k)), side)
  }

  /** `_format_vector_only` and `_format_lexical_only`. */
  method FormatOneSide(db: Db, hits: seq<Hit>, k: nat, minScore: real, documents: seq<nat>, side: Side)
    returns (results: seq<Result>)
    ensures results == FormatSingle(db, hits, k, minScore, documents, side)
  {
    var qualified: seq<Hit> := [];
    var n := 0;
    while n < |hits|
      invariant n <= |hits|
      invariant qualified == Qualified(db, documents, minScore, hits[..n]) && |qualified| < AtLeastOne(k)
    {
      assert hits[..n + 1][..n] == hits[..n];
      var hit := hits[n];
      n := n + 1;
      if Qualifies(db, documents, minScore, hit) {
        qualified := qualified + [hit];
        if |qualified| >= k {
          QualifiedGrows(db, documents, minScore, hits, n);
          break;
        }
      }
    }
    assert n == |hits| ==> hits[..n] == hits;
    assert qualified == Take(Qualified(db, documents, minScore, hits), AtLeastOne(k));
    results := [];
    var i := 0;
    while i < |qualified|
      invariant i <= |qualified| && results == SingleRows(db, qualified[..i], side)
    {
      assert qualified[..i + 1][..i] == qualified[..i];
      var row := Lookup(db, qualified[i].id);
      if row.Some? {
        results := results + [Single(qualified[i].id, row.value, qualified[i].score, side)];
      }
      i := i + 1;
    }
    assert qualified[..i] == qualified;
  }

  /** Later hits only add to what qualified so far. */
  lemma {:induction false} QualifiedGrows(db: Db, documents: seq<nat>, minScore: real, hits: seq<Hit>, n: nat)
    requires n <= |hits|
    ensures Qualified(db, documents, minScore, hits[..n]) <= Qualified(db, documents, minScore, hits)
  {
    if n < |hits| {
      QualifiedGrows(db, documents, minScore, hits[..|hits| - 1], n);
      assert hits[..|hits| - 1][..n] == hits[..n];
    } else {
      assert hits[..n] == hits;
    }
  }

  // ---------------------------------------------------------------- hybrid results

  predicate Shown(db: Db, documents: seq<nat>, minScore: real, m: Scored) {
    m.hybrid >= minScore && Lookup(db, m.id).Some? && Wanted(documents, Lookup(db, m.id).value.docId)
  }

  function HybridRows(db: Db, documents: seq<nat>, minScore: real, merged: seq<Scored>): seq<Result> {
    if merged == [] then []
    else
      var front, last := HybridRows(db, documents, minScore, merged[..|merged| - 1]), merged[|merged| - 1];
      if Shown(db, documents, minScore, last)
      then front + [Result(last.id, Lookup(db, last.id).value, last.hybrid, last.vector, last.lexical, Hybrid)]
      else front
  }

  function Search(db: Db, v: seq<Hit>, l: seq<Hit>, k: nat, minScore: real, documents: seq<nat>, alpha: real,
                  beta: real, order: seq<nat>): seq<Result> {
    if v == [] && l == [] then []
    else if v == [] then FormatSingle(db, l, k, minScore, documents, LexicalOnly)
    else if l == [] then FormatSingle(db, v, k, minScore, documents, VectorOnly)
    else Take(HybridRows(db, documents, minScore, Fuse(v, l, k, alpha, beta, order)), k)
  }

  /** `search`, from the two result lists on. */
  method HybridSearch(db: Db, v: seq<Hit>, l: seq<Hit>, k: nat, minScore: real, documents: seq<nat>, alpha: real,
                      beta: real, order: seq<nat>)
    returns (results: seq<Result>)
    requires Enumerates(order, v, l)
    ensures results == Search(db, v, l, k, minScore, documents, alpha, beta, order)
  {
    if v == [] && l == [] {
      return [];
    }
    if v == [] {
      results := FormatOneSide(db, l, k, minScore, documents, LexicalOnly);
      return;
    }
    if l == [] {
      results := FormatOneSide(db, v, k, minScore, documents, VectorOnly);
      return;
    }
    var merged := RrfFusion(v, l, k, alpha, beta, order);
    results := [];
    var n := 0;
    while n < |merged|
      invariant n <= |merged| && results == HybridRows(db, documents, minScore, merged[..n])
    {
      assert merged[..n + 1][..n] == merged[..n];
      var m := merged[n];
      n := n + 1;
      if m.hybrid < minScore {
        continue;
      }
      var row := Lookup(db, m.id);
      if row.None? || !Wanted(documents, row.value.docId) {
        continue;
      }
      results := results + [Result(m.id, row.value, m.hybrid, m.vector, m.lexical, Hybrid)];
    }
    assert merged[..n] == merged;
    results := Take(results, k);
  }

  // ---------------------------------------------------------------- what a hit is

  /** What the vector index can answer for query vector `q`. */
  ghost predicate VectorAnswer(s: Store, sim: Similarity, q: Vector, v: seq<Hit>, limit: nat) {
    && Distinct(v) && |v| <= limit
    && forall i :: 0 <= i < |v| ==> v[i].id in s.vectors && v[i].score == sim(q, s.vectors[v[i].id])
  }

  /** The hit is a chunk row of the store with its document, wanted and good enough, and its vector score
      was measured against an embedding of its own text, or is zero. */
  ghost predicate Grounded(e: Embedding, s: Store, sim: Similarity, q: Vector, minScore: real, documents: seq<nat>,
                           r: Result) {
    && r.chunkId in s.db.chunks
    && r.row.content == s.db.chunks[r.chunkId].content
    && r.row.docId == s.db.chunks[r.chunkId].docId && r.row.docId in s.db.docs
    && r.row.filename == s.db.docs[r.row.docId]
    && Wanted(documents, r.row.docId)
    && r.score >= minScore
    && OwnScore(e, sim, q, r)
  }

  ghost predicate OwnScore(e: Embedding, sim: Similarity, q: Vector, r: Result) {
    r.vectorScore == 0.0 || exists m :: r.vectorScore == sim(q, e(m, r.row.content))
  }

  /** A live point's score is its own text's. */
  lemma LiveScore(e: Embedding, s: Store, sim: Similarity, q: Vector, v: seq<Hit>, limit: nat, id: nat)
    requires Sound(e, s) && VectorAnswer(s, sim, q, v, limit) && id in s.db.chunks
    ensures ScoreIn(v, id) == 0.0 || exists m :: ScoreIn(v, id) == sim(q, e(m, s.db.chunks[id].content))
  {
    hide Mirrored;
    if id in Ids(v) {
      var i :| 0 <= i < |v| && v[i].id == id && ScoreIn(v, id) == v[i].score;
      assert Genuine(e, s.vectors[id], s.db.chunks[id].content);
      var m :| s.vectors[id] == e(m, s.db.chunks[id].content);
    }
  }

  lemma {:induction false} QualifiedHits(db: Db, documents: seq<nat>, minScore: real, hits: seq<Hit>)
    ensures forall h :: h in Qualified(db, documents, minScore, hits)
                        ==> h in hits && Qualifies(db, documents, minScore, h)
  {
    if hits != [] {
      QualifiedHits(db, documents, minScore, hits[..|hits| - 1]);
    }
  }

  lemma {:induction false} SingleRowsFrom(db: Db, hits: seq<Hit>, side: Side)
    ensures |SingleRows(db, hits, side)| <= |hits|
    ensures forall r :: r in SingleRows(db, hits, side) ==>
              exists h :: h in hits && Lookup(db, h.id).Some?
                          && r == Single(h.id, Lookup(db, h.id).value, h.score, side)
  {
    if hits != [] {
      var front := hits[..|hits| - 1];
      SingleRowsFrom(db, front, side);
      forall r | r in SingleRows(db, hits, side)
        ensures exists h :: h in hits && Lookup(db, h.id).Some?
                            && r == Single(h.id, Lookup(db, h.id).value, h.score, side)
      {
        if r in SingleRows(db, front, side) {
          var h :| h in front && Lookup(db, h.id).Some? && r == Single(h.id, Lookup(db, h.id).value, h.score, side);
          assert h in hits;
        } else {
          assert hits[|hits| - 1] in hits;
        }
      }
    }
  }

  lemma VectorOnlyGrounded(e: Embedding, s: Store, sim: Similarity, q: Vector, v: seq<Hit>, k: nat, limit: nat,
                           minScore: real, documents: seq<nat>, r: Result)
    requires Sound(e, s) && VectorAnswer(s, sim, q, v, limit)
            && r in FormatSingle(s.db, v, k, minScore, documents, VectorOnly)
    ensures Grounded(e, s, sim, q, minScore, documents, r)
  {
    hide Sound, VectorAnswer;
    QualifiedHits(s.db, documents, minScore, v);
    var hits := Take(Qualified(s.db, documents, minScore, v), AtLeastOne(k));
    SingleRowsFrom(s.db, hits, VectorOnly);
    var h :| h in hits && Lookup(s.db, h.id).Some? && r == Single(h.id, Lookup(s.db, h.id).value, h.score, VectorOnly);
    LiveScore(e, s, sim, q, v, limit, h.id);
    OwnEntry(s, sim, q, v, limit, h);
  }

  /** Ids are distinct, so the score looked up by id is the entry's own. */
  lemma OwnEntry(s: Store, sim: Similarity, q: Vector, v: seq<Hit>, limit: nat, h: Hit)
    requires VectorAnswer(s, sim, q, v, limit) && h in v
    ensures ScoreIn(v, h.id) == h.score
  {
    assert h.id in Ids(v);
  }

  lemma LexicalOnlyGrounded(e: Embedding, s: Store, sim: Similarity, q: Vector, l: seq<Hit>, k: nat, minScore: real,
                            documents: seq<nat>, r: Result)
    requires r in FormatSingle(s.db, l, k, minScore, documents, LexicalOnly)
    ensures Grounded(e, s, sim, q, minScore, documents, r)
  {
    QualifiedHits(s.db, documents, minScore, l);
    var hits := Take(Qualified(s.db, documents, minScore, l), AtLeastOne(k));
    SingleRowsFrom(s.db, hits, LexicalOnly);
    var h :| h in hits && Lookup(s.db, h.id).Some? && r == Single(h.id, Lookup(s.db, h.id).value, h.score, LexicalOnly);
    assert h in Qualified(s.db, documents, minScore, l);
  }

  lemma {:induction false} HybridRowsFrom(db: Db, documents: seq<nat>, minScore: real, merged: seq<Scored>)
    ensures |HybridRows(db, documents, minScore, merged)| <= |merged|
    ensures forall r :: r in HybridRows(db, documents, minScore, merged) ==>
              exists m :: m in merged && Shown(db, documents, minScore, m) &&
                          r == Result(m.id, Lookup(db, m.id).value, m.hybrid, m.vector, m.lexical, Hybrid)
  {
    if merged != [] {
      var front, last := merged[..|merged| - 1], merged[|merged| - 1];
      HybridRowsFrom(db, documents, minScore, front);
      hide Shown, Lookup;
      forall r | r in HybridRows(db, documents, minScore, merged)
        ensures exists m :: m in merged && Shown(db, documents, minScore, m) &&
                            r == Result(m.id, Lookup(db, m.id).value, m.hybrid, m.vector, m.lexical, Hybrid)
      {
        if r in HybridRows(db, documents, minScore, front) {
          var m :| m in front && Shown(db, documents, minScore, m) &&
                   r == Result(m.id, Lookup(db, m.id).value, m.hybrid, m.vector, m.lexical, Hybrid);
          assert m in merged;
        } else {
          assert last in merged;
        }
      }
    }
  }

  lemma HybridGrounded(e: Embedding, s: Store, sim: Similarity, q: Vector, v: seq<Hit>, l: seq<Hit>, k: nat,
                       limit: nat, minScore: real, documents: seq<nat>, alpha: real, beta: real, order: seq<nat>,
                         r: Result)
    requires Sound(e, s) && VectorAnswer(s, sim, q, v, limit) && Enumerates(order, v, l)
    requires r in HybridRows(s.db, documents, minScore, Fuse(v, l, k, alpha, beta, order))
    ensures Grounded(e, s, sim, q, minScore, documents, r)
  {
    hide Sound, VectorAnswer, Fuse, Enumerates, ScoreIn, RankIn, Ids;
    var merged := Fuse(v, l, k, alpha, beta, order);
    HybridRowsFrom(s.db, documents, minScore, merged);
    FuseKeepsTheBest(v, l, k, alpha, beta, order);
    var m :| m in merged && Shown(s.db, documents, minScore, m)
      && r == Result(m.id, Lookup(s.db, m.id).value, m.hybrid, m.vector, m.lexical, Hybrid);
    LiveScore(e, s, sim, q, v, limit, m.id);
  }

  /** Main result: whatever the two indexes answer over a sound store, every hit returned is a live chunk
      with its own document, text and score, and no more hits come back than asked for. */
  lemma SearchIsGrounded(e: Embedding, s: Store, sim: Similarity, q: Vector, v: seq<Hit>, l: seq<Hit>, k: nat,
                         minScore: real, documents: seq<nat>, alpha: real, beta: real, order: seq<nat>)
    requires Sound(e, s) && VectorAnswer(s, sim, q, v, 2 * k) && Enumerates(order, v, l)
    ensures forall r :: r in Search(s.db, v, l, k, minScore, documents, alpha, beta, order)
                        ==> Grounded(e, s, sim, q, minScore, documents, r)
    ensures |Search(s.db, v, l, k, minScore, documents, alpha, beta, order)| <= AtLeastOne(k)
  {
    hide Sound, VectorAnswer, Enumerates, Grounded, HybridRows, Fuse, SingleRows, Qualified;
    var results := Search(s.db, v, l, k, minScore, documents, alpha, beta, order);
    SingleRowsFrom(s.db, Take(Qualified(s.db, documents, minScore, l), AtLeastOne(k)), LexicalOnly);
    SingleRowsFrom(s.db, Take(Qualified(s.db, documents, minScore, v), AtLeastOne(k)), VectorOnly);
    forall r | r in results ensures Grounded(e, s, sim, q, minScore, documents, r) {
      if v == [] {
        LexicalOnlyGrounded(e, s, sim, q, l, k, minScore, documents, r);
      } else if l == [] {
        VectorOnlyGrounded(e, s, sim, q, v, k, 2 * k, minScore, documents, r);
      } else {
        HybridGrounded(e, s, sim, q, v, l, k, 2 * k, minScore, documents, alpha, beta, order, r);
      }
    }
  }

  /** A hybrid hit shows its own similarity from each list and their weighted sum. */
  lemma {:induction false} HybridHitScores(db: Db, v: seq<Hit>, l: seq<Hit>, k: nat, minScore: real,
                                           documents: seq<nat>, alpha: real, beta: real, order: seq<nat>)
    requires Enumerates(order, v, l) && v != [] && l != []
    ensures forall r :: r in Search(db, v, l, k, minScore, documents, alpha, beta, order) ==>
              && r.vectorScore == ScoreIn(v, r.chunkId) && r.lexicalScore == ScoreIn(l, r.chunkId)
              && r.score == Weighted(alpha, r.vectorScore, beta, r.lexicalScore)
  {
    var merged := Fuse(v, l, k, alpha, beta, order);
    FuseKeepsTheBest(v, l, k, alpha, beta, order);
    HybridRowsFrom(db, documents, minScore, merged);
    hide Fuse, ScoreIn, RankIn, Ids, Enumerates, Weighted, HybridRows;
    forall r | r in Search(db, v, l, k, minScore, documents, alpha, beta, order)
      ensures && r.vectorScore == ScoreIn(v, r.chunkId) && r.lexicalScore == ScoreIn(l, r.chunkId)
              && r.score == Weighted(alpha, r.vectorScore, beta, r.lexicalScore)
    {
      assert r in HybridRows(db, documents, minScore, merged);
      var m :| m in merged && Shown(db, documents, minScore, m) &&
               r == Result(m.id, Lookup(db, m.id).value, m.hybrid, m.vector, m.lexical, Hybrid);
    }
  }

  /** No entry of the fusion that qualifies is missing from the hits. */
  lemma {:induction false} NoHitIsMissing(db: Db, documents: seq<nat>, minScore: real, merged: seq<Scored>)
    ensures forall m :: m in merged && Shown(db, documents, minScore, m) ==>
              exists r :: r in HybridRows(db, documents, minScore, merged) && r.chunkId == m.id && r.score == m.hybrid
  {
    if merged != [] {
      var front, last := merged[..|merged| - 1], merged[|merged| - 1];
      assert merged == front + [last];
      NoHitIsMissing(db, documents, minScore, front);
      hide Shown, Lookup;
      if Shown(db, documents, minScore, last) {
        var row := Result(last.id, LookupShown(db, documents, minScore, last), last.hybrid, last.vector,
                          last.lexical, Hybrid);
        assert HybridRows(db, documents, minScore, merged) == HybridRows(db, documents, minScore, front) + [row];
        assert row in HybridRows(db, documents, minScore, merged);
      }
    }
  }

  /** The hits come in the order of the fusion. */
  lemma {:induction false} HybridHitsAreRanked(db: Db, documents: seq<nat>, minScore: real, merged: seq<Scored>)
    returns (at: seq<nat>)
    ensures Placed(HybridRows(db, documents, minScore, merged), merged, at)
  {
    at := [];
    if merged != [] {
      var front, last := merged[..|merged| - 1], merged[|merged| - 1];
      at := HybridHitsAreRanked(db, documents, minScore, front);
      hide Shown, Lookup;
      if Shown(db, documents, minScore, last) {
        var row := Result(last.id, LookupShown(db, documents, minScore, last), last.hybrid, last.vector,
                          last.lexical, Hybrid);
        assert HybridRows(db, documents, minScore, merged) == HybridRows(db, documents, minScore, front) + [row];
        at := at + [|front|];
      }
    }
  }

  function LookupShown(db: Db, documents: seq<nat>, minScore: real, m: Scored): (row: Row)
    requires Shown(db, documents, minScore, m)
    ensures Some(row) == Lookup(db, m.id)
  {
    Lookup(db, m.id).value
  }

  /** Row i was made from entry at[i] of the fusion, and the places rise. */
  ghost predicate Placed(rows: seq<Result>, merged: seq<Scored>, at: seq<nat>) {
    && |at| == |rows|
    && (forall i :: 0 <= i < |at| ==> at[i] < |merged| && rows[i].chunkId == merged[at[i]].id)
    && (forall i, j :: 0 <= i < j < |at| ==> at[i] < at[j])
  }

  /** After any run of ingests, deletes and rebuilds, however they failed. */
  lemma SearchAfterAnyRun(e: Embedding, ops: seq<Op>, sim: Similarity, q: Vector, v: seq<Hit>, l: seq<Hit>, k: nat,
                          minScore: real, documents: seq<nat>, alpha: real, beta: real, order: seq<nat>)
    requires VectorAnswer(Run(e, EmptyStore(), ops), sim, q, v, 2 * k) && Enumerates(order, v, l)
    ensures var s := Run(e, EmptyStore(), ops);
            forall r :: r in Search(s.db, v, l, k, minScore, documents, alpha, beta, order)
                        ==> Grounded(e, s, sim, q, minScore, documents, r)
  {
    NoAliasing(e, ops);
    SearchIsGrounded(e, Run(e, EmptyStore(), ops), sim, q, v, l, k, minScore, documents, alpha, beta, order);
  }

  /** Where no ingest left vectors under no recorded model, a vector score even comes from the model the
      search itself was checked against. */
  lemma SearchUsesOneModel(e: Embedding, ops: seq<Op>, model: string, sim: Similarity, q: Vector, v: seq<Hit>,
                           limit: nat, id: nat)
    requires EmbeddingModels.CleanRun(e, ops) && forall op :: op in ops ==> EmbeddingModels.Named(op)
    requires var s := Run(e, EmptyStore(), ops);
             VectorAnswer(s, sim, q, v, limit) && ModelAccepted(s.db, model) && id in s.db.chunks && id in Ids(v)
    ensures ScoreIn(v, id) == sim(q, e(model, Run(e, EmptyStore(), ops).db.chunks[id].content))
  {
    EmbeddingModels.CleanRunAgrees(e, ops);
  }

  /** With a document filter nothing dead takes a place: a one-sided search is full unless every wanted
      hit is already in it. */
  lemma {:induction false} FilteredRowsAllLive(db: Db, documents: seq<nat>, minScore: real, hits: seq<Hit>, side: Side)
    requires documents != []
    requires forall h :: h in hits ==> Qualifies(db, documents, minScore, h)
    ensures |SingleRows(db, hits, side)| == |hits|
  {
    if hits != [] {
      forall h | h in hits[..|hits| - 1] ensures Qualifies(db, documents, minScore, h) {
        assert h in hits;
      }
      FilteredRowsAllLive(db, documents, minScore, hits[..|hits| - 1], side);
      assert hits[|hits| - 1] in hits;
    }
  }

  lemma FilteredSearchIsFull(db: Db, documents: seq<nat>, minScore: real, hits: seq<Hit>, k: nat, side: Side)
    requires documents != []
    ensures var all := |Qualified(db, documents, minScore, hits)|;
            |FormatSingle(db, hits, k, minScore, documents, side)| == if all < AtLeastOne(k) then all else AtLeastOne(k)
  {
    QualifiedHits(db, documents, minScore, hits);
    FilteredRowsAllLive(db, documents, minScore, Take(Qualified(db, documents, minScore, hits), AtLeastOne(k)), side);
  }

  /** Without one it is full exactly when every hit it takes is live: a dangling one uses up its place. */
  lemma UnfilteredSearchIsFullIff(db: Db, minScore: real, hits: seq<Hit>, k: nat, side: Side)
    ensures var taken := Take(Qualified(db, [], minScore, hits), AtLeastOne(k));
            |FormatSingle(db, hits, k, minScore, [], side)| == |taken|
            <==> forall h :: h in taken ==> Lookup(db, h.id).Some?
  {
    AllRowsIff(db, Take(Qualified(db, [], minScore, hits), AtLeastOne(k)), side);
  }

  lemma {:induction false} AllRowsIff(db: Db, hits: seq<Hit>, side: Side)
    ensures |SingleRows(db, hits, side)| <= |hits|
    ensures |SingleRows(db, hits, side)| == |hits| <==> forall h :: h in hits ==> Lookup(db, h.id).Some?
  {
    if hits != [] {
      var front, last := hits[..|hits| - 1], hits[|hits| - 1];
      AllRowsIff(db, front, side);
      hide Lookup;
      assert hits == front + [last];
    }
  }

  /** Such a point is only an ingest away: an ingest that was rolled back leaves its vectors, and a search
      for one hit then comes back empty although the next document holds a live chunk that scores as well. */
  lemma RolledBackPointTakesThePlace(e: Embedding, model: string, filename: string, text: string, sim: Similarity,
                                     q: Vector)
    requires model != ""
    ensures var s := Run(e, EmptyStore(), RolledBackThenAdded(model, filename, text));
            var v := [Hit(1, sim(q, e(model, text))), Hit(2, sim(q, e(model, text)))];
            && VectorAnswer(s, sim, q, v, 2)
            && Lookup(s.db, 1).None? && Lookup(s.db, 2) == Some(Row(2, filename, text))
            && FormatSingle(s.db, v, 1, sim(q, e(model, text)), [], VectorOnly) == []
            && FormatSingle(s.db, v, 1, sim(q, e(model, text)), [2], VectorOnly)
               == [Single(2, Row(2, filename, text), sim(q, e(model, text)), VectorOnly)]
  {
    var score := sim(q, e(model, text));
    RolledBackStore(e, model, filename, text);
    var s := Run(e, EmptyStore(), RolledBackThenAdded(model, filename, text));
    hide Run;
    DanglingHitTakesThePlace(s.db, 1, 2, score, VectorOnly);
  }

  function RolledBackThenAdded(model: string, filename: string, text: string): seq<Op> {
    [Add(model, filename, [text], AtModelMeta, false), Add(model, filename, [text], NoFault, false)]
  }

  lemma RolledBackStore(e: Embedding, model: string, filename: string, text: string)
    requires model != ""
    ensures var s := Run(e, EmptyStore(), RolledBackThenAdded(model, filename, text));
            && s.db.docs == map[2 := filename] && s.db.chunks == map[2 := Chunk(2, text, 0)]
            && s.vectors == map[1 := e(model, text), 2 := e(model, text)]
  {
    var ops := RolledBackThenAdded(model, filename, text);
    var first := AddDocument(e, EmptyStore(), model, filename, [text], AtModelMeta, false).0;
    assert ops[..1] == [ops[0]] && [ops[0]][..0] == [];
    assert Run(e, EmptyStore(), [ops[0]]) == first;
    assert Run(e, EmptyStore(), ops) == AddDocument(e, first, model, filename, [text], NoFault, false).0;
    hide Run;
    OneText(e, EmptyStore(), model, filename, text);
    OneText(e, first, model, filename, text);
    FirstRolledBack(e, model, filename, text);
  }

  /** The rows and the point of a document of one chunk. */
  lemma OneText(e: Embedding, s: Store, model: string, filename: string, text: string)
    ensures InsertChunks(s.db, s.db.nextDoc, [text], 1) == InsertChunk(s.db, s.db.nextDoc, text, 0)
    ensures forall db: Db, doc: nat :: InsertChunks(db, doc, [text], 1) == InsertChunk(db, doc, text, 0)
    ensures Upsert(e, s.vectors, s.db.nextChunk, model, [text], AllOf([text]))
            == s.vectors[s.db.nextChunk := e(model, text)]
  {
    assert 0 in AllOf([text]);
    assert UpsertFirst(e, s.vectors, s.db.nextChunk, model, [text], AllOf([text]), 0) == s.vectors;
  }

  lemma FirstRolledBack(e: Embedding, model: string, filename: string, text: string)
    ensures AddDocument(e, EmptyStore(), model, filename, [text], AtModelMeta, false).0
         == Store(Db(map[], map[], map[], None, None, 2, 2), map[1 := e(model, text)])
  {
    var s := EmptyStore();
    OneText(e, s, model, filename, text);
    var db := InsertChunk(InsertDoc(s.db, filename), 1, text, 0);
    assert db.chunks == map[1 := Chunk(1, text, 0)] && db.fts == map[1 := text];
    assert ChunksOf(db, 1) == {1};
    assert Cascade(db, 1) == Db(map[], map[], map[], None, None, 2, 2);
    hide InsertChunks, UpsertFirst, Cascade, ChunksOf;
  }

  /** A dangling point first in line uses up the only place. */
  lemma DanglingHitTakesThePlace(db: Db, dead: nat, live: nat, score: real, side: Side)
    requires Lookup(db, dead).None? && Lookup(db, live).Some?
    ensures FormatSingle(db, [Hit(dead, score), Hit(live, score)], 1, score, [], side) == []
    ensures FormatSingle(db, [Hit(dead, score), Hit(live, score)], 1, score, [Lookup(db, live).value.docId], side)
         == [Single(live, Lookup(db, live).value, score, side)]
  {
    var a, b := Hit(dead, score), Hit(live, score);
    var documents := [Lookup(db, live).value.docId];
    QualifiedOfTwo(db, [], score, a, b);
    QualifiedOfTwo(db, documents, score, a, b);
    hide Qualified, SingleRows;
    assert Take([a, b], 1) == [a] && Take([b], 1) == [b];
    RowsOfOne(db, a, side);
    RowsOfOne(db, b, side);
  }

  lemma QualifiedOfTwo(db: Db, documents: seq<nat>, minScore: real, a: Hit, b: Hit)
    ensures Qualified(db, documents, minScore, [a, b])
         == (if Qualifies(db, documents, minScore, a) then [a] else [])
           + (if Qualifies(db, documents, minScore, b) then [b] else [])
  {
    hide Qualifies;
    assert [a][..0] == [];
    assert Qualified(db, documents, minScore, [a]) == if Qualifies(db, documents, minScore, a) then [a] else [];
    assert [a, b][..1] == [a];
  }

  lemma RowsOfOne(db: Db, a: Hit, side: Side)
    ensures SingleRows(db, [a], side)
         == if Lookup(db, a.id).Some? then [Single(a.id, Lookup(db, a.id).value, a.score, side)] else []
  {
    assert [a][..0] == [];
  }
}
