/** The persistent embedding cache in front of the embedding service: agentflow/knowledge/embedding_cache.py
    and `QwenEmbedder.embed` of agentflow/knowledge/embedder.py. */
module EmbeddingCaches {

  import opened KnowledgeStores
  import opened Lists
  import opened Options

  datatype Outcome = Ok(vectors: seq<Vector>) | Raised

  /** Text digest; the source uses SHA-256, taken here to be collision free where a lemma says so. */
  type Hash = string -> int

  type Table = map<(int, string), Vector>

  /** What goes wrong behind the cache: the lookup, the first service call, or the store after `n` rows. */
  datatype Trouble = Fine | LookupFails | FirstCallFails | StoreFails(n: nat)

  ghost predicate Injective(h: Hash) {
    forall a, b :: h(a) == h(b) ==> a == b
  }

  /** Every entry is the model's own answer for its text. */
  ghost predicate Agrees(e: Embedding, h: Hash, table: Table) {
    forall t, m :: (h(t), m) in table ==> table[(h(t), m)] == e(m, t)
  }

  /** The service called directly. */
  function Direct(e: Embedding, model: string, texts: seq<string>): (r: seq<Vector>)
    ensures |r| == |texts| && forall i :: 0 <= i < |r| ==> r[i] == e(model, texts[i])
  {
    seq(|texts|, i requires 0 <= i < |texts| => e(model, texts[i]))
  }

  // ---------------------------------------------------------------- the cache operations

  function Find(h: Hash, table: Table, model: string, text: string): Option<Vector> {
    if (h(text), model) in table then Some(table[(h(text), model)]) else None
  }

  function Found(h: Hash, table: Table, model: string, texts: seq<string>): (r: seq<Option<Vector>>)
    ensures |r| == |texts|
    ensures forall i :: 0 <= i < |r| ==> r[i] == Find(h, table, model, texts[i])
  {
    seq(|texts|, i requires 0 <= i < |texts| => Find(h, table, model, texts[i]))
  }

  function Gaps(found: seq<Option<Vector>>): (r: seq<nat>)
    ensures forall k :: 0 <= k < |r| ==> r[k] < |found|
  {
    if found == [] then []
    else Gaps(found[..|found| - 1]) + if found[|found| - 1].None? then [|found| - 1] else []
  }

  function StoreRows(h: Hash, table: Table, model: string, texts: seq<string>, vectors: seq<Vector>, n: nat): Table
    requires n <= |texts| && n <= |vectors|
  {
    if n == 0 then table
      else StoreRows(h, table, model, texts, vectors, n - 1)[(h(texts[n - 1]), model) := vectors[n - 1]]
  }

  function Fill(cached: seq<Option<Vector>>, gaps: seq<nat>, answers: seq<Vector>, n: nat): (r: seq<Option<Vector>>)
    requires n <= |gaps| && n <= |answers| && forall k :: 0 <= k < |gaps| ==> gaps[k] < |cached|
    ensures |r| == |cached|
  {
    if n == 0 then cached else Fill(cached, gaps, answers, n - 1)[gaps[n - 1] := Some(answers[n - 1])]
  }

  function Present(cached: seq<Option<Vector>>): (r: seq<Vector>)
    ensures |r| <= |cached|
  {
    if cached == [] then []
    else Present(cached[..|cached| - 1]) + if cached[|cached| - 1].Some? then [cached[|cached| - 1].value] else []
  }

  function Min(a: nat, b: nat): nat {
    if a < b then a else b
  }

  class EmbeddingCache {
    const hash: Hash
    var table: Table

    constructor (h: Hash)
      ensures hash == h && table == map[]
    {
      hash := h;
      table := map[];
    }

    method Lookup(model: string, texts: seq<string>)
      returns (vectors: seq<Option<Vector>>, missingIndices: seq<nat>, missingTexts: seq<string>)
      ensures vectors == Found(hash, table, model, texts)
      ensures missingIndices == Gaps(vectors) && missingTexts == Pick(texts, missingIndices)
    {
      vectors := seq(|texts|, i requires 0 <= i < |texts| => None);
      missingIndices, missingTexts := [], [];
      for idx := 0 to |texts|
        invariant |vectors| == |texts|
        invariant vectors[..idx] == Found(hash, table, model, texts)[..idx]
        invariant forall i :: idx <= i < |texts| ==> vectors[i] == None
        invariant missingIndices == Gaps(vectors[..idx]) && missingTexts == Pick(texts, missingIndices)
      {
        var key := (hash(texts[idx]), model);
        ghost var before := vectors[..idx];
        if key in table {
          vectors := vectors[idx := Some(table[key])];
        } else {
          missingIndices := missingIndices + [idx];
          missingTexts := missingTexts + [texts[idx]];
        }
        assert vectors[..idx + 1][..idx] == before;
      }
      assert vectors[..|texts|] == vectors;
    }

    /** `store`; `rows` of the pairs reach the table, all of them unless it fails. */
    method Store(model: string, texts: seq<string>, vectors: seq<Vector>, rows: nat)
      requires rows <= Min(|texts|, |vectors|)
      modifies this
      ensures table == StoreRows(hash, old(table), model, texts, vectors, rows)
    {
      for n := 0 to rows
        invariant table == StoreRows(hash, old(table), model, texts, vectors, n)
      {
        table := table[(hash(texts[n]), model) := vectors[n]];
      }
    }

    static method Merge(cached: seq<Option<Vector>>, missingIndices: seq<nat>, newVectors: seq<Vector>)
      returns (r: seq<Vector>)
      requires forall k :: 0 <= k < |missingIndices| ==> missingIndices[k] < |cached|
      ensures r == Present(Fill(cached, missingIndices, newVectors, Min(|missingIndices|, |newVectors|)))
    {
      var filled := cached;
      for n := 0 to Min(|missingIndices|, |newVectors|)
        invariant filled == Fill(cached, missingIndices, newVectors, n)
      {
        filled := filled[missingIndices[n] := Some(newVectors[n])];
      }
      r := [];
      for i := 0 to |filled|
        invariant r == Present(filled[..i])
      {
        assert filled[..i + 1][..i] == filled[..i];
        if filled[i].Some? {
          r := r + [filled[i].value];
        }
      }
      assert filled[..|filled|] == filled;
    }
  }

  // ---------------------------------------------------------------- the embedder

  /** `_embed_api`: a step of zero is a ValueError, a negative one makes an empty range. */
  function Api(e: Embedding, model: string, texts: seq<string>, batchSize: int, down: bool): Outcome {
    if batchSize == 0 then Raised
    else if batchSize < 0 then Ok([])
    else if down && texts != [] then Raised
    else Ok(Direct(e, model, texts))
  }

  /** The outcome of `embed` with the cache table after it. */
  function Embedded(e: Embedding, h: Hash, table: Table, model: string, texts: seq<string>, batchSize: int,
                    trouble: Trouble, down: bool): (Outcome, Table) {
    if texts == [] then (Ok([]), table)
    else if trouble.LookupFails? then (Api(e, model, texts, batchSize, down), table)
    else
      var found := Found(h, table, model, texts);
      var missing := Pick(texts, Gaps(found));
      if missing == [] then (Ok(Present(found)), table)
      else
        var answers := Api(e, model, missing, batchSize, trouble.FirstCallFails?);
        if answers.Raised? then (Api(e, model, texts, batchSize, down), table)
        else
          var rows := Min(|missing|, |answers.vectors|);
          if trouble.StoreFails? && trouble.n < rows
          then (Api(e, model, texts, batchSize, down), StoreRows(h, table, model, missing, answers.vectors, trouble.n))
          else (Ok(Present(Fill(found, Gaps(found), answers.vectors, rows))),
                StoreRows(h, table, model, missing, answers.vectors, rows))
  }

  class Embedder {
    const modelName: string
    const embedding: Embedding
    const cache: EmbeddingCache?
    /** Every text sent to the service so far. */
    var sent: seq<string>

    constructor (e: Embedding, model: string, c: EmbeddingCache?)
      ensures embedding == e && modelName == model && cache == c && sent == []
    {
      embedding, modelName, cache, sent := e, model, c, [];
    }

    /** `_embed_api`; a service that is down refuses the first batch. */
    method EmbedApi(texts: seq<string>, batchSize: int, down: bool) returns (r: Outcome)
      modifies this
      ensures r == Api(embedding, modelName, texts, batchSize, down)
      ensures sent == old(sent) + if r.Ok? && batchSize > 0 then texts else []
    {
      if batchSize == 0 {
        return Raised;
      }
      if batchSize < 0 {
        return Ok([]);
      }
      var all: seq<Vector> := [];
      var i := 0;
      while i < |texts|
        invariant 0 <= i <= |texts|
        invariant down ==> i == 0
        invariant all == Direct(embedding, modelName, texts)[..i] && sent == old(sent) + texts[..i]
      {
        var end := if i + batchSize < |texts| then i + batchSize else |texts|;
        var batch := texts[i..end];
        if down {
          return Raised;
        }
        sent := sent + batch;
        all := all + Direct(embedding, modelName, batch);
        i := end;
      }
      return Ok(all);
    }

    method Embed(texts: seq<string>, batchSize: int, trouble: Trouble, down: bool) returns (r: Outcome)
      modifies this, cache
      ensures cache != null ==>
                (r, cache.table)
                == Embedded(embedding, cache.hash, old(cache.table), modelName, texts, batchSize, trouble, down)
      ensures cache == null ==> r == if texts == [] then Ok([]) else Api(embedding, modelName, texts, batchSize, down)
      ensures cache != null && trouble.Fine? && batchSize > 0 ==>
                sent == old(sent) + Pick(texts, Gaps(Found(cache.hash, old(cache.table), modelName, texts)))
    {
      if texts == [] {
        return Ok([]);
      }
      if cache != null && !trouble.LookupFails? {
        var cached, missingIndices, missingTexts := cache.Lookup(modelName, texts);
        if missingTexts == [] {
          r := FilterPresent(cached);
          return;
        }
        var answers := EmbedApi(missingTexts, batchSize, trouble.FirstCallFails?);
        if answers.Ok? {
          var rows := Min(|missingTexts|, |answers.vectors|);
          if trouble.StoreFails? && trouble.n < rows {
            cache.Store(modelName, missingTexts, answers.vectors, trouble.n);
          } else {
            cache.Store(modelName, missingTexts, answers.vectors, rows);
            var merged := EmbeddingCache.Merge(cached, missingIndices, answers.vectors);
            return Ok(merged);
          }
        }
      }
      r := EmbedApi(texts, batchSize, down);
    }

    static method FilterPresent(cached: seq<Option<Vector>>) returns (r: Outcome)
      ensures r == Ok(Present(cached))
    {
      var all := [];
      for i := 0 to |cached|
        invariant all == Present(cached[..i])
      {
        assert cached[..i + 1][..i] == cached[..i];
        if cached[i].Some? {
          all := all + [cached[i].value];
        }
      }
      assert cached[..|cached|] == cached;
      r := Ok(all);
    }
  }

  // ---------------------------------------------------------------- transparency

  lemma {:induction false} StoreKeepsAgreement(e: Embedding, h: Hash, table: Table, model: string,
                                               texts: seq<string>, vectors: seq<Vector>, n: nat)
    requires Injective(h) && Agrees(e, h, table) && n <= |texts| && n <= |vectors|
    requires forall i :: 0 <= i < n ==> vectors[i] == e(model, texts[i])
    ensures Agrees(e, h, StoreRows(h, table, model, texts, vectors, n))
  {
    if n > 0 {
      StoreKeepsAgreement(e, h, table, model, texts, vectors, n - 1);
    }
  }

  lemma {:induction false} GapsAreTheMisses(found: seq<Option<Vector>>)
    ensures forall i: nat :: i in Gaps(found) <==> i < |found| && found[i].None?
    ensures Once(Gaps(found))
  {
    if found != [] {
      GapsAreTheMisses(found[..|found| - 1]);
    }
  }

  lemma {:induction false} FillShape(cached: seq<Option<Vector>>, gaps: seq<nat>, answers: seq<Vector>, n: nat)
    requires n <= |gaps| && n <= |answers| && Once(gaps) && forall k :: 0 <= k < |gaps| ==> gaps[k] < |cached|
    ensures var r := Fill(cached, gaps, answers, n);
            && (forall k :: 0 <= k < n ==> r[gaps[k]] == Some(answers[k]))
            && (forall i: nat :: i < |r| && i !in gaps ==> r[i] == cached[i])
  {
    if n > 0 {
      FillShape(cached, gaps, answers, n - 1);
    }
  }

  lemma {:induction false} PresentWhenFull(cached: seq<Option<Vector>>, full: seq<Vector>)
    requires |cached| == |full| && forall i :: 0 <= i < |full| ==> cached[i] == Some(full[i])
    ensures Present(cached) == full
  {
    if cached != [] {
      PresentWhenFull(cached[..|cached| - 1], full[..|full| - 1]);
    }
  }

  lemma {:induction false} PresentWithGap(cached: seq<Option<Vector>>, i: nat)
    requires i < |cached| && cached[i].None?
    ensures |Present(cached)| < |cached|
  {
    if i < |cached| - 1 {
      PresentWithGap(cached[..|cached| - 1], i);
    }
  }

  lemma FillCompletes(found: seq<Option<Vector>>, gaps: seq<nat>, answers: seq<Vector>, full: seq<Vector>)
    requires |gaps| == |answers| && |full| == |found| && Once(gaps) && forall k :: 0 <= k < |gaps| ==> gaps[k] < |found|
    requires forall k :: 0 <= k < |gaps| ==> answers[k] == full[gaps[k]]
    requires forall i: nat :: i < |found| && i !in gaps ==> found[i] == Some(full[i])
    ensures Present(Fill(found, gaps, answers, |gaps|)) == full
  {
    FillShape(found, gaps, answers, |gaps|);
    var filled := Fill(found, gaps, answers, |gaps|);
    hide Fill, Present;
    forall i: nat | i < |full| ensures filled[i] == Some(full[i]) {
      if i in gaps {
        var k :| 0 <= k < |gaps| && gaps[k] == i;
      }
    }
    PresentWhenFull(filled, full);
  }

  /** Hits and new vectors together are the direct answer. */
  lemma MergedIsDirect(e: Embedding, h: Hash, table: Table, model: string, texts: seq<string>)
    requires Agrees(e, h, table)
    ensures var found := Found(h, table, model, texts);
            Present(Fill(found, Gaps(found), Direct(e, model, Pick(texts, Gaps(found))), |Gaps(found)|))
              == Direct(e, model, texts)
  {
    hide Gaps, Fill, Present, Pick, Direct, Found;
    var found := Found(h, table, model, texts);
    GapsAreTheMisses(found);
    FillCompletes(found, Gaps(found), Direct(e, model, Pick(texts, Gaps(found))), Direct(e, model, texts));
  }

  lemma {:induction false} NoGaps(found: seq<Option<Vector>>)
    requires forall i :: 0 <= i < |found| ==> found[i].Some?
    ensures Gaps(found) == []
  {
    if found != [] {
      NoGaps(found[..|found| - 1]);
    }
  }

  /** With nothing missing the cached vectors are the direct answer. */
  lemma AllFoundIsDirect(e: Embedding, h: Hash, table: Table, model: string, texts: seq<string>)
    requires Agrees(e, h, table) && Gaps(Found(h, table, model, texts)) == []
    ensures Present(Found(h, table, model, texts)) == Direct(e, model, texts)
  {
    MergedIsDirect(e, h, table, model, texts);
  }

  /** Main result: over a cache in agreement, for any mix of hits, misses and duplicates, any batch size of
      at least one and any trouble with the cache, `embed` gives the model's answers in order, unless the
      service itself refused the direct call; and the cache stays in agreement. */
  lemma CacheIsTransparent(e: Embedding, h: Hash, table: Table, model: string, texts: seq<string>, batchSize: int,
                           trouble: Trouble, down: bool)
    requires Injective(h) && Agrees(e, h, table) && batchSize >= 1
    ensures var (r, after) := Embedded(e, h, table, model, texts, batchSize, trouble, down);
            && Agrees(e, h, after)
            && (r == Ok(Direct(e, model, texts)) || (r.Raised? && down && !trouble.Fine?))
  {
    hide Found, Gaps, Fill, Present, StoreRows, Pick, Agrees, Injective;
    var found := Found(h, table, model, texts);
    var missing := Pick(texts, Gaps(found));
    if missing == [] {
      assert Gaps(found) == [];
      AllFoundIsDirect(e, h, table, model, texts);
    } else {
      var answers := Direct(e, model, missing);
      StoreKeepsAgreement(e, h, table, model, missing, answers, |missing|);
      if trouble.StoreFails? && trouble.n < |missing| {
        StoreKeepsAgreement(e, h, table, model, missing, answers, trouble.n);
      }
      MergedIsDirect(e, h, table, model, texts);
    }
  }

  /** How many of the texts the cache does not hold. */
  function Misses(h: Hash, table: Table, model: string, texts: seq<string>): nat {
    if texts == [] then 0
    else
      var n := |texts| - 1;
      Misses(h, table, model, texts[..n]) + if (h(texts[n]), model) in table then 0 else 1
  }

  lemma {:induction false} MissesAreGaps(h: Hash, table: Table, model: string, texts: seq<string>)
    ensures |Gaps(Found(h, table, model, texts))| == Misses(h, table, model, texts)
  {
    if texts != [] {
      var n := |texts| - 1;
      MissesAreGaps(h, table, model, texts[..n]);
      assert Found(h, table, model, texts)[..n] == Found(h, table, model, texts[..n]);
    }
  }

  /** The cache is of no help to this call: it cannot be read, what it lacks cannot be fetched, or what was
      fetched cannot all be stored. */
  predicate FallsBack(misses: nat, trouble: Trouble) {
    || trouble.LookupFails?
    || (misses > 0 && (trouble.FirstCallFails? || (trouble.StoreFails? && trouble.n < misses)))
  }

  /** Exactly when `embed` raises: there is something to embed, the cache is of no help, and the service
      refuses the direct call. */
  lemma RaisesIff(e: Embedding, h: Hash, table: Table, model: string, texts: seq<string>, batchSize: int,
                  trouble: Trouble, down: bool)
    requires batchSize >= 1
    ensures Embedded(e, h, table, model, texts, batchSize, trouble, down).0.Raised?
        <==> texts != [] && down && FallsBack(Misses(h, table, model, texts), trouble)
  {
    MissesAreGaps(h, table, model, texts);
    hide Found, Gaps, Fill, Present, StoreRows, Pick;
  }

  /** What reached the cache before it broke stays there. */
  lemma PartialStoreStays(e: Embedding, h: Hash, table: Table, model: string, texts: seq<string>, batchSize: int,
                          down: bool, n: nat, k: nat)
    requires batchSize >= 1 && k < n < Misses(h, table, model, texts)
    ensures var after := Embedded(e, h, table, model, texts, batchSize, StoreFails(n), down).1;
            var missing := Pick(texts, Gaps(Found(h, table, model, texts)));
            k < |missing| && (h(missing[k]), model) in after && table.Keys <= after.Keys
  {
    MissesAreGaps(h, table, model, texts);
    var missing := Pick(texts, Gaps(Found(h, table, model, texts)));
    StoredKeys(h, table, model, missing, Direct(e, model, missing), n);
    hide Found, Gaps, Fill, Present, StoreRows, Pick;
    assert texts != [];
  }

  /** Exactly when `embed` is right without trouble: the batch size is positive, or nothing has to be
      fetched.  A negative size drops the misses, zero raises. */
  lemma TransparentIff(e: Embedding, h: Hash, table: Table, model: string, texts: seq<string>, batchSize: int)
    requires Injective(h) && Agrees(e, h, table)
    ensures Embedded(e, h, table, model, texts, batchSize, Fine, false).0 == Ok(Direct(e, model, texts))
        <==> batchSize >= 1 || forall t :: t in texts ==> (h(t), model) in table
  {
    hide Found, Gaps, Fill, Present, StoreRows, Pick;
    if batchSize >= 1 {
      CacheIsTransparent(e, h, table, model, texts, batchSize, Fine, false);
    } else if forall t :: t in texts ==> (h(t), model) in table {
      AllHits(h, table, model, texts);
      AllFoundIsDirect(e, h, table, model, texts);
    } else {
      SomeMiss(h, table, model, texts);
    }
  }

  lemma AllHits(h: Hash, table: Table, model: string, texts: seq<string>)
    requires forall t :: t in texts ==> (h(t), model) in table
    ensures Gaps(Found(h, table, model, texts)) == [] && Pick(texts, Gaps(Found(h, table, model, texts))) == []
  {
    var found := Found(h, table, model, texts);
    forall i | 0 <= i < |found| ensures found[i].Some? {
      assert texts[i] in texts;
    }
    NoGaps(found);
  }

  /** One miss that is not fetched leaves the answer short. */
  lemma SomeMiss(h: Hash, table: Table, model: string, texts: seq<string>)
    requires !forall t :: t in texts ==> (h(t), model) in table
    ensures var found := Found(h, table, model, texts);
            texts != [] && Pick(texts, Gaps(found)) != [] && |Present(Fill(found, Gaps(found), [], 0))| < |texts|
  {
    var found := Found(h, table, model, texts);
    GapsAreTheMisses(found);
    var t :| t in texts && (h(t), model) !in table;
    var i: nat :| i < |texts| && texts[i] == t;
    assert found[i].None? && i in Gaps(found);
    PresentWithGap(found, i);
  }

  /** Once embedded, a text is not sent again: the same call finds everything. */
  lemma SecondCallSendsNothing(e: Embedding, h: Hash, table: Table, model: string, texts: seq<string>, batchSize: int)
    requires Injective(h) && Agrees(e, h, table) && batchSize >= 1
    ensures var after := Embedded(e, h, table, model, texts, batchSize, Fine, false).1;
            Gaps(Found(h, after, model, texts)) == []
  {
    var found := Found(h, table, model, texts);
    var missing := Pick(texts, Gaps(found));
    var after := Embedded(e, h, table, model, texts, batchSize, Fine, false).1;
    hide Embedded;
    StoredKeys(h, table, model, missing, Direct(e, model, missing), |missing|);
    MissesAreStored(e, h, table, model, texts, batchSize);
    EveryTextIsIn(h, table, model, texts, after);
    hide *;
  }

  /** Without trouble the table gains one row for each miss. */
  lemma MissesAreStored(e: Embedding, h: Hash, table: Table, model: string, texts: seq<string>, batchSize: int)
    requires batchSize >= 1
    ensures var missing := Pick(texts, Gaps(Found(h, table, model, texts)));
            Embedded(e, h, table, model, texts, batchSize, Fine, false).1
            == StoreRows(h, table, model, missing, Direct(e, model, missing), |missing|)
  {
    hide Found, Gaps, Fill, Present, Pick;
    if texts == [] {
      NoTexts(h, table, model);
    }
  }

  lemma NoTexts(h: Hash, table: Table, model: string)
    ensures Gaps(Found(h, table, model, [])) == []
  {
  }

  lemma EveryTextIsIn(h: Hash, table: Table, model: string, texts: seq<string>, after: Table)
    requires table.Keys <= after.Keys
    requires forall m :: m in Pick(texts, Gaps(Found(h, table, model, texts))) ==> (h(m), model) in after
    ensures Gaps(Found(h, after, model, texts)) == []
  {
    var found := Found(h, table, model, texts);
    GapsAreTheMisses(found);
    forall i: nat | i < |texts| ensures (h(texts[i]), model) in after {
      if found[i].None? {
        assert i in Gaps(found);
        var k :| 0 <= k < |Gaps(found)| && Gaps(found)[k] == i;
        assert Pick(texts, Gaps(found))[k] == texts[i];
      } else {
        assert (h(texts[i]), model) in table.Keys;
      }
    }
    NoGaps(Found(h, after, model, texts));
  }

  lemma {:induction false} StoredKeys(h: Hash, table: Table, model: string, texts: seq<string>, vectors: seq<Vector>,
                                      n: nat)
    requires n <= |texts| && n <= |vectors|
    ensures table.Keys <= StoreRows(h, table, model, texts, vectors, n).Keys
    ensures forall i :: 0 <= i < n ==> (h(texts[i]), model) in StoreRows(h, table, model, texts, vectors, n)
  {
    if n > 0 {
      StoredKeys(h, table, model, texts, vectors, n - 1);
    }
  }
}
