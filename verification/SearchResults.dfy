/** What a search answers, position by position: agentflow/knowledge/retrieval.py, for every pair of result
    lists.  Nothing here speaks of how the rows are put together. */
module SearchResults {

  import opened KnowledgeStores
  import opened Lists
  import opened RankFusion
  import opened Retrieval
  import opened Options

  /** The chunk is a row of the store, and so is its document. */
  predicate Live(db: Db, id: nat) {
    id in db.chunks && db.chunks[id].docId in db.docs
  }

  function RowOf(db: Db, id: nat): Row
    requires Live(db, id)
  {
    Row(db.chunks[id].docId, db.docs[db.chunks[id].docId], db.chunks[id].content)
  }

  lemma LookupIs(db: Db, id: nat)
    ensures Lookup(db, id).Some? <==> Live(db, id)
    ensures Live(db, id) ==> Lookup(db, id) == Some(RowOf(db, id))
  {
  }

  // ---------------------------------------------------------------- both lists

  /** Entry `n` of the fusion is shown: its chunk is live, its document wanted, its score good enough. */
  predicate ShownInFusion(db: Db, documents: seq<nat>, minScore: real, fused: seq<Scored>, n: nat) {
    && n < |fused|
    && Live(db, fused[n].id) && (documents == [] || db.chunks[fused[n].id].docId in documents)
    && fused[n].hybrid >= minScore
  }

  /** The rows made of the entries at the places `at`. */
  ghost predicate RowsAt(db: Db, fused: seq<Scored>, at: seq<nat>, rows: seq<Result>) {
    && |rows| == |at|
    && forall i :: 0 <= i < |at| ==>
         && at[i] < |fused| && Live(db, fused[at[i]].id)
         && rows[i] == Result(fused[at[i]].id, RowOf(db, fused[at[i]].id), fused[at[i]].hybrid, fused[at[i]].vector,
                              fused[at[i]].lexical, Hybrid)
  }

  lemma HybridSnoc(db: Db, documents: seq<nat>, minScore: real, fused: seq<Scored>, n: nat)
    requires n < |fused|
    ensures var before, m := HybridRows(db, documents, minScore, fused[..n]), fused[n];
            HybridRows(db, documents, minScore, fused[..n + 1])
            == if ShownInFusion(db, documents, minScore, fused, n)
               then before + [Result(m.id, RowOf(db, m.id), m.hybrid, m.vector, m.lexical, Hybrid)] else before
  {
    LookupIs(db, fused[n].id);
    assert fused[..n + 1][..n] == fused[..n];
  }

  lemma {:induction false} HybridPlaces(db: Db, documents: seq<nat>, minScore: real, fused: seq<Scored>, n: nat)
    returns (at: seq<nat>)
    requires n <= |fused|
    ensures Ascending(at) && RowsAt(db, fused, at, HybridRows(db, documents, minScore, fused[..n]))
    ensures forall p: nat :: p in at <==> p < n && ShownInFusion(db, documents, minScore, fused, p)
  {
    hide *;
    at := [];
    NoRowsYet(db, documents, minScore, fused);
    if n > 0 {
      var m := n - 1;
      at := HybridPlaces(db, documents, minScore, fused, m);
      HybridSnoc(db, documents, minScore, fused, m);
      if ShownInFusion(db, documents, minScore, fused, m) {
        AscendingSnoc(at, m);
        OneMoreRow(db, documents, minScore, fused, at, HybridRows(db, documents, minScore, fused[..m]), m);
        at := at + [m];
      }
    }
  }

  lemma NoRowsYet(db: Db, documents: seq<nat>, minScore: real, fused: seq<Scored>)
    ensures Ascending([]) && RowsAt(db, fused, [], HybridRows(db, documents, minScore, fused[..0]))
  {
  }

  lemma OneMoreRow(db: Db, documents: seq<nat>, minScore: real, fused: seq<Scored>, at: seq<nat>, rows: seq<Result>,
                   n: nat)
    requires RowsAt(db, fused, at, rows) && n < |fused| && ShownInFusion(db, documents, minScore, fused, n)
    ensures var m := fused[n];
            RowsAt(db, fused, at + [n],
                   rows + [Result(m.id, RowOf(db, m.id), m.hybrid, m.vector, m.lexical, Hybrid)])
  {
    hide RowOf;
  }

  /** Main result for a search in which both lists answer: chunk by chunk, the results are the live, wanted
      and good enough entries of the fused top k, in the order of the fusion, each once. */
  lemma HybridSearchIs(db: Db, v: seq<Hit>, l: seq<Hit>, k: nat, minScore: real, documents: seq<nat>, alpha: real,
                       beta: real, order: seq<nat>)
    returns (at: seq<nat>)
    requires Enumerates(order, v, l) && v != [] && l != []
    ensures var results := Search(db, v, l, k, minScore, documents, alpha, beta, order);
            var fused := Fuse(v, l, k, alpha, beta, order);
            && Ascending(at) && RowsAt(db, fused, at, results)
            && (forall p: nat :: p in at <==> ShownInFusion(db, documents, minScore, fused, p))
            && (forall i, j :: 0 <= i < j < |results| ==> results[i].chunkId != results[j].chunkId)
            && (results == [] <==>
                  forall p: nat :: !ShownInFusion(db, documents, minScore, fused, p))
  {
    var fused := Fuse(v, l, k, alpha, beta, order);
    FuseKeepsTheBest(v, l, k, alpha, beta, order);
    at := HybridPlaces(db, documents, minScore, fused, |fused|);
    assert fused[..|fused|] == fused;
    FewPlaces(at, |fused|);
    var rows := HybridRows(db, documents, minScore, fused);
    assert Search(db, v, l, k, minScore, documents, alpha, beta, order) == Take(rows, k) == rows;
    hide *;
    NothingShown(db, documents, minScore, fused, at, rows);
    EachOnce(db, fused, at, rows);
  }

  lemma NothingShown(db: Db, documents: seq<nat>, minScore: real, fused: seq<Scored>, at: seq<nat>, rows: seq<Result>)
    requires RowsAt(db, fused, at, rows)
    requires forall p: nat :: p in at <==> p < |fused| && ShownInFusion(db, documents, minScore, fused, p)
    ensures rows == [] <==> forall p: nat :: !ShownInFusion(db, documents, minScore, fused, p)
    ensures forall p: nat :: p in at <==> ShownInFusion(db, documents, minScore, fused, p)
  {
    assert rows == [] ==> at == [];
    assert rows != [] ==> at[0] in at;
  }

  lemma EachOnce(db: Db, fused: seq<Scored>, at: seq<nat>, rows: seq<Result>)
    requires Ascending(at) && RowsAt(db, fused, at, rows)
    requires forall i, j :: 0 <= i < j < |fused| ==> fused[i].id != fused[j].id
    ensures forall i, j :: 0 <= i < j < |rows| ==> rows[i].chunkId != rows[j].chunkId
  {
    hide Live;
    forall i, j | 0 <= i < j < |rows| ensures rows[i].chunkId != rows[j].chunkId {
      assert at[i] < at[j] < |fused|;
    }
  }

  lemma {:induction false} FewPlaces(at: seq<nat>, n: nat)
    requires Ascending(at) && forall p :: p in at ==> p < n
    ensures |at| <= n
  {
    if at != [] {
      var last := at[|at| - 1];
      assert last in at;
      assert forall i :: 0 <= i < |at| - 1 ==> at[i] < last;
      FewPlaces(at[..|at| - 1], last);
    }
  }

  // ---------------------------------------------------------------- one list

  /** The hit may be taken: good enough, and of a wanted document if some are named. */
  predicate Good(db: Db, documents: seq<nat>, minScore: real, h: Hit) {
    h.score >= minScore && (documents == [] || (Live(db, h.id) && db.chunks[h.id].docId in documents))
  }

  function GoodBefore(db: Db, documents: seq<nat>, minScore: real, hits: seq<Hit>, n: nat): nat
    requires n <= |hits|
  {
    if n == 0 then 0
    else GoodBefore(db, documents, minScore, hits, n - 1) + if Good(db, documents, minScore, hits[n - 1]) then 1 else 0
  }

  /** The hit at `n` is shown: it is good, few enough good ones stand before it, and its chunk is live. */
  predicate ShownAlone(db: Db, documents: seq<nat>, minScore: real, k: nat, hits: seq<Hit>, n: nat) {
    && n < |hits|
    && Good(db, documents, minScore, hits[n]) && Live(db, hits[n].id)
    && (GoodBefore(db, documents, minScore, hits, n) < k || GoodBefore(db, documents, minScore, hits, n) == 0)
  }

  /** The rows made of the hits at the places `at`, each with its own score on its own side. */
  ghost predicate SingleAt(db: Db, hits: seq<Hit>, vector: bool, at: seq<nat>, rows: seq<Result>) {
    && |rows| == |at|
    && forall i :: 0 <= i < |at| ==>
         && at[i] < |hits| && Live(db, hits[at[i]].id)
         && rows[i] == Result(hits[at[i]].id, RowOf(db, hits[at[i]].id), hits[at[i]].score,
                              if vector then hits[at[i]].score else 0.0,
                              if vector then 0.0 else hits[at[i]].score,
                              if vector then VectorOnly else LexicalOnly)
  }

  function SideOf(vector: bool): Side {
    if vector then VectorOnly else LexicalOnly
  }

  /** The hits among the first `n` that a one-sided search takes. */
  function Taken(db: Db, documents: seq<nat>, minScore: real, k: nat, hits: seq<Hit>, n: nat): seq<Hit>
    requires n <= |hits|
  {
    Take(Qualified(db, documents, minScore, hits[..n]), AtLeastOne(k))
  }

  lemma {:induction false} QualifiedCount(db: Db, documents: seq<nat>, minScore: real, hits: seq<Hit>, n: nat)
    requires n <= |hits|
    ensures |Qualified(db, documents, minScore, hits[..n])| == GoodBefore(db, documents, minScore, hits, n)
  {
    if n > 0 {
      QualifiedCount(db, documents, minScore, hits, n - 1);
      LookupIs(db, hits[n - 1].id);
      assert hits[..n][..n - 1] == hits[..n - 1];
    }
  }

  /** One more hit is taken exactly when it is good and there is room. */
  lemma TakenSnoc(db: Db, documents: seq<nat>, minScore: real, k: nat, hits: seq<Hit>, n: nat)
    requires n < |hits|
    ensures var room := GoodBefore(db, documents, minScore, hits, n) < AtLeastOne(k);
            Taken(db, documents, minScore, k, hits, n + 1)
            == if Good(db, documents, minScore, hits[n]) && room
               then Taken(db, documents, minScore, k, hits, n) + [hits[n]]
               else Taken(db, documents, minScore, k, hits, n)
  {
    QualifiedCount(db, documents, minScore, hits, n);
    LookupIs(db, hits[n].id);
    assert hits[..n + 1][..n] == hits[..n];
    var q := Qualified(db, documents, minScore, hits[..n]);
    assert Qualified(db, documents, minScore, hits[..n + 1])
        == if Good(db, documents, minScore, hits[n]) then q + [hits[n]] else q;
    hide Qualified, Good, GoodBefore;
  }

  lemma RowsSnoc(db: Db, hits: seq<Hit>, h: Hit, side: Side)
    ensures SingleRows(db, hits + [h], side)
         == if Live(db, h.id) then SingleRows(db, hits, side) + [Single(h.id, RowOf(db, h.id), h.score, side)]
            else SingleRows(db, hits, side)
  {
    assert (hits + [h])[..|hits|] == hits;
    LookupIs(db, h.id);
  }

  lemma NothingTaken(db: Db, documents: seq<nat>, minScore: real, k: nat, hits: seq<Hit>, side: Side)
    ensures SingleRows(db, Taken(db, documents, minScore, k, hits, 0), side) == []
  {
  }

  lemma {:induction false} SinglePlaces(db: Db, documents: seq<nat>, minScore: real, k: nat, hits: seq<Hit>,
                                        vector: bool, n: nat)
    returns (at: seq<nat>)
    requires n <= |hits|
    ensures Ascending(at)
    ensures SingleAt(db, hits, vector, at,
                     SingleRows(db, Taken(db, documents, minScore, k, hits, n), SideOf(vector)))
    ensures forall p: nat :: p in at <==> p < n && ShownAlone(db, documents, minScore, k, hits, p)
  {
    hide Taken, SingleRows, Good, GoodBefore, Live;
    if n == 0 {
      NothingTaken(db, documents, minScore, k, hits, SideOf(vector));
      at := [];
    } else {
      at := SinglePlaces(db, documents, minScore, k, hits, vector, n - 1);
      TakenSnoc(db, documents, minScore, k, hits, n - 1);
      RowsSnoc(db, Taken(db, documents, minScore, k, hits, n - 1), hits[n - 1], SideOf(vector));
      if ShownAlone(db, documents, minScore, k, hits, n - 1) {
        AscendingSnoc(at, n - 1);
        at := at + [n - 1];
      }
      hide Ascending, ShownAlone, RowOf;
    }
  }

  /** Main result for a search in which only one list answers: the results are, in the order of that list
      and each with its own score on its own side, the live ones among the first good hits, as many as are
      asked for but at least one; and none exactly when there is no such hit. */
  lemma OneSidedSearchIs(db: Db, hits: seq<Hit>, vector: bool, k: nat, minScore: real, documents: seq<nat>,
                         alpha: real, beta: real, order: seq<nat>)
    returns (at: seq<nat>)
    ensures var results := Search(db, if vector then hits else [], if vector then [] else hits, k, minScore, documents,
                                  alpha, beta, order);
            && Ascending(at) && SingleAt(db, hits, vector, at, results)
            && (forall p: nat :: p in at <==> ShownAlone(db, documents, minScore, k, hits, p))
            && (results == [] <==>
                  forall p: nat :: !ShownAlone(db, documents, minScore, k, hits, p))
  {
    at := SinglePlaces(db, documents, minScore, k, hits, vector, |hits|);
    assert hits[..|hits|] == hits;
    var results := Search(db, if vector then hits else [], if vector then [] else hits, k, minScore, documents,
                          alpha, beta, order);
    if hits == [] {
      NothingTaken(db, documents, minScore, k, hits, SideOf(vector));
    }
    assert results == SingleRows(db, Taken(db, documents, minScore, k, hits, |hits|), SideOf(vector));
    hide *;
    NoneAlone(db, documents, minScore, k, hits, vector, at, results);
  }

  lemma NoneAlone(db: Db, documents: seq<nat>, minScore: real, k: nat, hits: seq<Hit>, vector: bool, at: seq<nat>,
                  results: seq<Result>)
    requires SingleAt(db, hits, vector, at, results)
    requires forall p: nat :: p in at <==> p < |hits| && ShownAlone(db, documents, minScore, k, hits, p)
    ensures results == [] <==> forall p: nat :: !ShownAlone(db, documents, minScore, k, hits, p)
    ensures forall p: nat :: p in at <==> ShownAlone(db, documents, minScore, k, hits, p)
  {
    assert results == [] ==> at == [];
    assert results != [] ==> at[0] in at;
  }
}
