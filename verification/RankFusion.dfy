/** Reciprocal rank fusion: `_rrf_fusion` of agentflow/knowledge/retrieval.py, over exact reals. */
module RankFusion {

  import opened Lists

  /** One entry of a search result list: chunk id and similarity. */
  datatype Hit = Hit(id: nat, score: real)

  datatype Scored = Scored(id: nat, rrf: real, vector: real, lexical: real, hybrid: real)

  const RRF_K := 60

  predicate Distinct(xs: seq<Hit>) {
    forall i, j :: 0 <= i < j < |xs| ==> xs[i].id != xs[j].id
  }

  function Ids(xs: seq<Hit>): set<nat> {
    set i | 0 <= i < |xs| :: xs[i].id
  }

  /** The rank map's entry: the last position of the id, or the rank given to an absent chunk. */
  function RankIn(xs: seq<Hit>, id: nat, absent: nat): (r: nat)
    ensures id in Ids(xs) ==> r < |xs| && xs[r].id == id && forall j :: r < j < |xs| ==> xs[j].id != id
    ensures id !in Ids(xs) ==> r == absent
  {
    if xs == [] then absent
    else
      var front := xs[..|xs| - 1];
      assert forall i :: 0 <= i < |front| ==> front[i] == xs[i];
      if xs[|xs| - 1].id == id then |xs| - 1 else RankIn(front, id, absent)
  }

  /** The score map's entry, also the last one; 0.0 for an absent chunk. */
  function ScoreIn(xs: seq<Hit>, id: nat): (r: real)
    ensures id in Ids(xs) ==> exists i ::
              0 <= i < |xs| && xs[i].id == id && r == xs[i].score && forall j :: i < j < |xs| ==> xs[j].id != id
    ensures id !in Ids(xs) ==> r == 0.0
  {
    if xs == [] then 0.0
    else
      var front := xs[..|xs| - 1];
      assert forall i :: 0 <= i < |front| ==> front[i] == xs[i];
      if xs[|xs| - 1].id == id then xs[|xs| - 1].score else ScoreIn(front, id)
  }

  function Reciprocal(rank: nat): (r: real)
    ensures r > 0.0
  {
    1.0 / (RRF_K + rank) as real
  }

  function Rrf(vectorRank: nat, lexicalRank: nat): real {
    Reciprocal(vectorRank) + Reciprocal(lexicalRank)
  }

  function Weighted(alpha: real, vector: real, beta: real, lexical: real): real {
    alpha * vector + beta * lexical
  }

  /** The tuple computed for one chunk; `k` is top_k, so an absent chunk ranks 2k. */
  function Score(v: seq<Hit>, l: seq<Hit>, k: nat, alpha: real, beta: real, id: nat): Scored {
    Scored(id, Rrf(RankIn(v, id, 2 * k), RankIn(l, id, 2 * k)), ScoreIn(v, id), ScoreIn(l, id),
           Weighted(alpha, ScoreIn(v, id), beta, ScoreIn(l, id)))
  }

  /** `order` is the order in which the id set happens to be iterated. */
  function ScoreAll(v: seq<Hit>, l: seq<Hit>, k: nat, alpha: real, beta: real, order: seq<nat>): (r: seq<Scored>)
    ensures |r| == |order|
    ensures forall i :: 0 <= i < |r| ==> r[i] == Score(v, l, k, alpha, beta, order[i])
  {
    if order == [] then []
    else ScoreAll(v, l, k, alpha, beta, order[..|order| - 1]) + [Score(v, l, k, alpha, beta, order[|order| - 1])]
  }

  // ---------------------------------------------------------------- the sort

  /** After every entry that scores at least as much: the sort is stable in descending order. */
  function Insert(xs: seq<Scored>, x: Scored): seq<Scored> {
    if xs == [] || xs[|xs| - 1].rrf >= x.rrf then xs + [x]
    else Insert(xs[..|xs| - 1], x) + [xs[|xs| - 1]]
  }

  function Sort(xs: seq<Scored>): seq<Scored> {
    if xs == [] then [] else Insert(Sort(xs[..|xs| - 1]), xs[|xs| - 1])
  }

  ghost predicate Descending(xs: seq<Scored>) {
    forall i, j :: 0 <= i < j < |xs| ==> xs[i].rrf >= xs[j].rrf
  }

  lemma {:induction false} InsertSorts(xs: seq<Scored>, x: Scored)
    requires Descending(xs)
    ensures Descending(Insert(xs, x)) && multiset(Insert(xs, x)) == multiset(xs) + multiset{x}
  {
    if xs != [] && xs[|xs| - 1].rrf < x.rrf {
      var front, last := xs[..|xs| - 1], xs[|xs| - 1];
      assert xs == front + [last];
      InsertSorts(front, x);
      var t := Insert(front, x);
      hide Insert;
      forall i | 0 <= i < |t| ensures t[i].rrf >= last.rrf {
        assert t[i] in multiset(t);
      }
      SnocDescends(t, last);
    } else {
      SnocDescends(xs, x);
    }
  }

  lemma SnocDescends(xs: seq<Scored>, x: Scored)
    requires Descending(xs) && forall i :: 0 <= i < |xs| ==> xs[i].rrf >= x.rrf
    ensures Descending(xs + [x])
  {
  }

  lemma {:induction false} SortSorts(xs: seq<Scored>)
    ensures Descending(Sort(xs)) && multiset(Sort(xs)) == multiset(xs)
  {
    if xs != [] {
      assert xs == xs[..|xs| - 1] + [xs[|xs| - 1]];
      SortSorts(xs[..|xs| - 1]);
      InsertSorts(Sort(xs[..|xs| - 1]), xs[|xs| - 1]);
    }
  }

  ghost predicate DistinctIds(xs: seq<Scored>) {
    forall i, j :: 0 <= i < j < |xs| ==> xs[i].id != xs[j].id
  }

  /** A list that enumerates the ids of both result lists, each once. */
  ghost predicate Enumerates(order: seq<nat>, v: seq<Hit>, l: seq<Hit>) {
    && Once(order)
    && (forall id :: id in order <==> id in Ids(v) || id in Ids(l))
  }

  /** `_rrf_fusion` before the cut. */
  function Ranking(v: seq<Hit>, l: seq<Hit>, k: nat, alpha: real, beta: real, order: seq<nat>): seq<Scored> {
    Sort(ScoreAll(v, l, k, alpha, beta, order))
  }

  function Fuse(v: seq<Hit>, l: seq<Hit>, k: nat, alpha: real, beta: real, order: seq<nat>): seq<Scored> {
    Take(Ranking(v, l, k, alpha, beta, order), k)
  }

  /** `_rrf_fusion`: the loop over the id set, the sort and the cut. */
  method RrfFusion(v: seq<Hit>, l: seq<Hit>, k: nat, alpha: real, beta: real, order: seq<nat>)
    returns (merged: seq<Scored>)
    requires Enumerates(order, v, l)
    ensures merged == Fuse(v, l, k, alpha, beta, order)
  {
    hide Reciprocal, Weighted, Sort;
    var scored: seq<Scored> := [];
    for n := 0 to |order|
      invariant scored == ScoreAll(v, l, k, alpha, beta, order[..n])
    {
      var id := order[n];
      var vr := RankIn(v, id, 2 * k);
      var lr := RankIn(l, id, 2 * k);
      var vs := ScoreIn(v, id);
      var ls := ScoreIn(l, id);
      scored := scored + [Scored(id, Rrf(vr, lr), vs, ls, Weighted(alpha, vs, beta, ls))];
      assert order[..n + 1][..n] == order[..n];
    }
    assert order[..|order|] == order;
    scored := Sort(scored);
    merged := Take(scored, k);
  }

  // ---------------------------------------------------------------- what the ranking means

  /** Every chunk of either list is ranked once, with its own score, best first. */
  lemma RankingShape(v: seq<Hit>, l: seq<Hit>, k: nat, alpha: real, beta: real, order: seq<nat>)
    requires Enumerates(order, v, l)
    ensures var r := Ranking(v, l, k, alpha, beta, order);
            && |r| == |order| && Descending(r)
            && (forall i :: 0 <= i < |r| ==> r[i].id in order && r[i] == Score(v, l, k, alpha, beta, r[i].id))
            && (forall id :: id in order ==> exists i :: 0 <= i < |r| && r[i].id == id)
            && DistinctIds(r)
  {
    var s := ScoreAll(v, l, k, alpha, beta, order);
    SortSorts(s);
    hide Score, Descending, Enumerates, Sort;
    assert |multiset(Sort(s))| == |multiset(s)|;
    SameEntries(s, Sort(s));
    DistinctEntries(v, l, k, alpha, beta, order);
    PermutationDistinct(s, Sort(s));
    ScoreKeepsId(v, l, k, alpha, beta);
    var r := Sort(s);
    forall i | 0 <= i < |r| ensures r[i].id in order && r[i] == Score(v, l, k, alpha, beta, r[i].id) {
      assert r[i] in s;
      var j :| 0 <= j < |s| && s[j] == r[i];
      assert s[j] == Score(v, l, k, alpha, beta, order[j]);
    }
    forall id | id in order ensures exists i :: 0 <= i < |r| && r[i].id == id {
      var j :| 0 <= j < |order| && order[j] == id;
      assert s[j] in r && s[j] == Score(v, l, k, alpha, beta, id);
    }
  }

  lemma ScoreKeepsId(v: seq<Hit>, l: seq<Hit>, k: nat, alpha: real, beta: real)
    ensures forall id :: Score(v, l, k, alpha, beta, id).id == id
  {
  }

  lemma DistinctEntries(v: seq<Hit>, l: seq<Hit>, k: nat, alpha: real, beta: real, order: seq<nat>)
    requires Enumerates(order, v, l)
    ensures DistinctIds(ScoreAll(v, l, k, alpha, beta, order))
  {
    hide Score;
    ScoreKeepsId(v, l, k, alpha, beta);
  }

  lemma SameEntries(xs: seq<Scored>, ys: seq<Scored>)
    requires multiset(xs) == multiset(ys)
    ensures forall x :: x in xs <==> x in ys
  {
    forall x ensures x in xs <==> x in ys {
      assert x in xs <==> x in multiset(xs);
    }
  }

  lemma {:induction false} PermutationDistinct(s: seq<Scored>, r: seq<Scored>)
    requires multiset(s) == multiset(r)
    requires DistinctIds(s)
    ensures DistinctIds(r)
  {
    forall i, j | 0 <= i < j < |r| ensures r[i].id != r[j].id {
      if r[i].id == r[j].id {
        assert r[i] in multiset(r) && r[j] in multiset(r);
        assert r[i] in s && r[j] in s;
        assert r[i] == r[j];
        CountTwice(r, i, j);
        CountOnce(s, r[i]);
      }
    }
  }

  lemma {:induction false} CountTwice(r: seq<Scored>, i: nat, j: nat)
    requires i < j < |r| && r[i] == r[j]
    ensures multiset(r)[r[i]] >= 2
  {
    assert r == r[..j] + [r[j]] + r[j + 1..];
    assert r[i] in r[..j];
  }

  lemma {:induction false} CountOnce(s: seq<Scored>, x: Scored)
    requires DistinctIds(s)
    ensures multiset(s)[x] <= 1
  {
    if s != [] {
      var front := s[..|s| - 1];
      CountOnce(front, x);
      assert s == front + [s[|s| - 1]];
      forall i | 0 <= i < |front| ensures front[i] != s[|s| - 1] {
        assert s[i].id != s[|s| - 1].id;
      }
    }
  }

  /** In this ranking `a` stands above `b`; in particular it survives the cut whenever `b` does. */
  ghost predicate StandsAbove(r: seq<Scored>, a: nat, b: nat) {
    forall i, j :: 0 <= i < |r| && 0 <= j < |r| && r[i].id == a && r[j].id == b ==> i < j
  }

  /** The fusion score of a chunk from its two ranks. */
  function RrfOf(v: seq<Hit>, l: seq<Hit>, k: nat, id: nat): real {
    Rrf(RankIn(v, id, 2 * k), RankIn(l, id, 2 * k))
  }

  /** A chunk with the higher fusion score stands above. */
  lemma HigherScoreFirst(v: seq<Hit>, l: seq<Hit>, k: nat, alpha: real, beta: real, order: seq<nat>, a: nat, b: nat)
    requires Enumerates(order, v, l) && RrfOf(v, l, k, a) > RrfOf(v, l, k, b)
    ensures StandsAbove(Ranking(v, l, k, alpha, beta, order), a, b)
  {
    RankingShape(v, l, k, alpha, beta, order);
    hide Ranking, RankIn, ScoreIn, Rrf, Enumerates;
  }

  // ---------------------------------------------------------------- arithmetic

  lemma ReciprocalFalls(a: nat, b: nat)
    requires a < b
    ensures Reciprocal(a) > Reciprocal(b)
  {
    var x, y := (RRF_K + a) as real, (RRF_K + b) as real;
    var p, q := Reciprocal(a), Reciprocal(b);
    assert p * x == 1.0 && q * y == 1.0;
    InverseFalls(p, q, x, y);
  }

  lemma InverseFalls(p: real, q: real, x: real, y: real)
    requires p * x == 1.0 && q * y == 1.0 && p > 0.0 && 0.0 < x < y
    ensures p > q
  {
    assert p * (y - x) > 0.0;
    assert p * y - p * x == p * (y - x);
    ScaleOrder(p, q, y);
  }

  lemma ReciprocalFallsWeakly(a: nat, b: nat)
    requires a <= b
    ensures Reciprocal(a) >= Reciprocal(b)
  {
    if a < b {
      ReciprocalFalls(a, b);
    }
  }

  /** The fusion score of places `a` and `b`, counted from 0: 1/(60 + a) + 1/(60 + b). */
  predicate ScoreOfPlaces(rrf: real, a: nat, b: nat) {
    rrf * ((60 + a) as real * (60 + b) as real) == (120 + a + b) as real
  }

  lemma RrfIs(a: nat, b: nat)
    ensures ScoreOfPlaces(Rrf(a, b), a, b)
  {
    var x, y := (60 + a) as real, (60 + b) as real;
    var p, q := Reciprocal(a), Reciprocal(b);
    assert p * x == 1.0 && q * y == 1.0;
    assert (p + q) * (x * y) == (p * x) * y + (q * y) * x;
  }

  lemma WeightedIs(alpha: real, x: real, beta: real, y: real)
    ensures Weighted(alpha, x, beta, y) == alpha * x + beta * y
  {
  }

  /** Every entry of the fusion carries the score of its two places, counted from 0, an absent one counting
      as 2k, and its similarities with their weighted sum. */
  lemma EntryIs(v: seq<Hit>, l: seq<Hit>, k: nat, alpha: real, beta: real, order: seq<nat>, n: nat)
    requires Enumerates(order, v, l) && n < |Fuse(v, l, k, alpha, beta, order)|
    ensures var m := Fuse(v, l, k, alpha, beta, order)[n];
            var a, b := RankIn(v, m.id, 2 * k), RankIn(l, m.id, 2 * k);
            && ScoreOfPlaces(m.rrf, a, b)
            && m.vector == ScoreIn(v, m.id) && m.lexical == ScoreIn(l, m.id)
            && m.hybrid == Weighted(alpha, m.vector, beta, m.lexical)
  {
    FuseKeepsTheBest(v, l, k, alpha, beta, order);
    var m := Fuse(v, l, k, alpha, beta, order)[n];
    ScoreIs(v, l, k, alpha, beta, m.id);
    hide *;
  }

  lemma ScoreIs(v: seq<Hit>, l: seq<Hit>, k: nat, alpha: real, beta: real, id: nat)
    ensures var m := Score(v, l, k, alpha, beta, id);
            var a, b := RankIn(v, id, 2 * k), RankIn(l, id, 2 * k);
            && m.id == id && ScoreOfPlaces(m.rrf, a, b)
            && m.vector == ScoreIn(v, id) && m.lexical == ScoreIn(l, id)
            && m.hybrid == Weighted(alpha, m.vector, beta, m.lexical)
  {
    RrfIs(RankIn(v, id, 2 * k), RankIn(l, id, 2 * k));
    hide RankIn, ScoreIn, Rrf, ScoreOfPlaces, Weighted;
  }

  /** The break-even rank: a chunk at rank `r` in both lists against the best chunk of one list only. */
  lemma BreakEven(r: nat, k: nat)
    ensures Rrf(r, r) > Rrf(0, 2 * k) <==> r * (RRF_K + k) < RRF_K * k
  {
    var x, y := (60 + r) as real, (60 + 2 * k) as real;
    var p, q := Reciprocal(r), Reciprocal(2 * k);
    assert p * x == 1.0 && q * y == 1.0 && Reciprocal(0) == 1.0 / 60.0;
    Crossed(p, q, x, y);
    Expand(r, k);
  }

  lemma Crossed(p: real, q: real, x: real, y: real)
    requires p * x == 1.0 && q * y == 1.0 && x > 0.0 && y > 0.0
    ensures p + p > 1.0 / 60.0 + q <==> 120.0 * y > x * y + 60.0 * x
  {
    // multiply both sides by the positive 60 x y
    Clear(p, q, x, y);
    ScaleOrder(p + p, 1.0 / 60.0 + q, 60.0 * x * y);
  }

  lemma Clear(p: real, q: real, x: real, y: real)
    requires p * x == 1.0 && q * y == 1.0 && x > 0.0 && y > 0.0
    ensures (p + p) * (60.0 * x * y) == 120.0 * y
    ensures (1.0 / 60.0 + q) * (60.0 * x * y) == x * y + 60.0 * x
    ensures 60.0 * x * y > 0.0
  {
    assert p * (60.0 * x * y) == (p * x) * (60.0 * y);
    assert q * (60.0 * x * y) == (q * y) * (60.0 * x);
    assert (1.0 / 60.0) * (60.0 * x * y) == x * y;
    assert x * y > 0.0;
  }

  lemma ScaleOrder(a: real, b: real, c: real)
    requires c > 0.0
    ensures a > b <==> a * c > b * c
  {
    if a > b { assert (a - b) * c > 0.0; }
    if a < b { assert (b - a) * c > 0.0; }
  }

  lemma Expand(r: nat, k: nat)
    ensures 120.0 * (60 + 2 * k) as real > (60 + r) as real * (60 + 2 * k) as real + 60.0 * (60 + r) as real
        <==> r * (RRF_K + k) < RRF_K * k
  {
    assert (60 + r) * (60 + 2 * k) == 3600 + 120 * k + 60 * r + 2 * (r * k);
    assert (60 + r) as real * (60 + 2 * k) as real == ((60 + r) * (60 + 2 * k)) as real;
    assert r * (RRF_K + k) == 60 * r + r * k;
  }

  // ---------------------------------------------------------------- main results

  /** At least as good in both rankings and better in one means strictly above, cut or not. */
  lemma DominanceDecides(v: seq<Hit>, l: seq<Hit>, k: nat, alpha: real, beta: real, order: seq<nat>, a: nat, b: nat)
    requires Enumerates(order, v, l)
    requires RankIn(v, a, 2 * k) <= RankIn(v, b, 2 * k) && RankIn(l, a, 2 * k) <= RankIn(l, b, 2 * k)
    requires RankIn(v, a, 2 * k) < RankIn(v, b, 2 * k) || RankIn(l, a, 2 * k) < RankIn(l, b, 2 * k)
    ensures StandsAbove(Ranking(v, l, k, alpha, beta, order), a, b)
  {
    var va, vb, la, lb := RankIn(v, a, 2 * k), RankIn(v, b, 2 * k), RankIn(l, a, 2 * k), RankIn(l, b, 2 * k);
    ReciprocalFallsWeakly(va, vb);
    ReciprocalFallsWeakly(la, lb);
    if va < vb { ReciprocalFalls(va, vb); } else { ReciprocalFalls(la, lb); }
    HigherScoreFirst(v, l, k, alpha, beta, order, a, b);
  }

  // ---------------------------------------------------------------- ties

  /** The new entry stands behind every one that scores at least as much and before all others. */
  lemma {:induction false} InsertAt(xs: seq<Scored>, x: Scored) returns (p: nat)
    requires Descending(xs)
    ensures p <= |xs| && Insert(xs, x) == xs[..p] + [x] + xs[p..]
    ensures (forall i :: 0 <= i < p ==> xs[i].rrf >= x.rrf) && (forall i :: p <= i < |xs| ==> xs[i].rrf < x.rrf)
  {
    if xs == [] || xs[|xs| - 1].rrf >= x.rrf {
      p := |xs|;
      assert xs[..p] + [x] + xs[p..] == xs + [x];
    } else {
      var n := |xs| - 1;
      p := InsertAt(xs[..n], x);
      assert xs[..n][..p] == xs[..p] && xs[..n][p..] + [xs[n]] == xs[p..];
      assert Insert(xs, x) == Insert(xs[..n], x) + [xs[n]];
      hide Insert;
    }
  }

  /** Where the entry of this id stands. */
  function PlaceOf(xs: seq<Scored>, id: nat): (n: nat)
    ensures n <= |xs| && (n < |xs| ==> xs[n].id == id) && forall j :: 0 <= j < n ==> xs[j].id != id
  {
    if xs == [] then 0 else if xs[0].id == id then 0 else 1 + PlaceOf(xs[1..], id)
  }

  /** Entries that score alike stand in the order they had. */
  ghost predicate Stable(xs: seq<Scored>, r: seq<Scored>) {
    forall i, j :: 0 <= i < j < |r| && r[i].rrf == r[j].rrf ==> PlaceOf(xs, r[i].id) < PlaceOf(xs, r[j].id)
  }

  lemma PlaceSnoc(front: seq<Scored>, x: Scored, y: Scored)
    requires DistinctIds(front + [x])
    ensures PlaceOf(front + [x], x.id) == |front|
    ensures y in front ==> PlaceOf(front + [x], y.id) == PlaceOf(front, y.id) < |front|
  {
    var xs := front + [x];
    hide PlaceOf;
    assert xs[|front|] == x && forall i :: 0 <= i < |front| ==> xs[i] == front[i];
    assert xs[|front|].id == x.id;
    if i :| 0 <= i < |front| && front[i] == y {
      assert xs[i].id == y.id;
      var p, q := PlaceOf(xs, y.id), PlaceOf(front, y.id);
      assert p <= i && q <= i && xs[q] == front[q];
    }
  }

  lemma StableInsert(front: seq<Scored>, x: Scored, r: seq<Scored>, p: nat)
    requires DistinctIds(front + [x]) && p <= |r| && Stable(front, r) && forall i :: 0 <= i < |r| ==> r[i] in front
    requires forall i :: p <= i < |r| ==> r[i].rrf < x.rrf
    ensures Stable(front + [x], r[..p] + [x] + r[p..])
  {
    hide PlaceOf, DistinctIds;
    var xs, s := front + [x], r[..p] + [x] + r[p..];
    forall i | 0 <= i < |r| ensures PlaceOf(xs, r[i].id) == PlaceOf(front, r[i].id) < |front| {
      PlaceSnoc(front, x, r[i]);
    }
    PlaceSnoc(front, x, x);
    assert forall i :: 0 <= i < |s| ==> s[i] == if i < p then r[i] else if i == p then x else r[i - 1];
  }

  lemma {:induction false} SortIsStable(xs: seq<Scored>)
    requires DistinctIds(xs)
    ensures Stable(xs, Sort(xs))
  {
    if xs != [] {
      var front, x := xs[..|xs| - 1], xs[|xs| - 1];
      SortIsStable(front);
      SortSorts(front);
      SameEntries(front, Sort(front));
      var p := InsertAt(Sort(front), x);
      assert xs == front + [x] && Sort(xs) == Insert(Sort(front), x);
      hide Sort, Insert, Stable, Descending;
      assert forall i :: 0 <= i < |Sort(front)| ==> Sort(front)[i] in front;
      StableInsert(front, x, Sort(front), p);
    }
  }

  /** Of two chunks that score alike, the one met first in the id set stands first. */
  lemma TiesKeepOrder(v: seq<Hit>, l: seq<Hit>, k: nat, alpha: real, beta: real, order: seq<nat>, a: nat, b: nat)
    requires Enumerates(order, v, l) && a < |order| && b < |order|
    requires RrfOf(v, l, k, order[a]) == RrfOf(v, l, k, order[b])
    ensures StandsAbove(Ranking(v, l, k, alpha, beta, order), order[a], order[b]) <==> a < b
  {
    var xs, r := ScoreAll(v, l, k, alpha, beta, order), Ranking(v, l, k, alpha, beta, order);
    DistinctEntries(v, l, k, alpha, beta, order);
    SortIsStable(xs);
    assert r == Sort(xs);
    RankingShape(v, l, k, alpha, beta, order);
    PlaceOfId(v, l, k, alpha, beta, order, a);
    PlaceOfId(v, l, k, alpha, beta, order, b);
    RrfIsScore(v, l, k, alpha, beta, order[a]);
    RrfIsScore(v, l, k, alpha, beta, order[b]);
    hide *;
    assert order[a] in order && order[b] in order;
    StableAbove(xs, r, order[a], order[b]);
  }

  lemma RrfIsScore(v: seq<Hit>, l: seq<Hit>, k: nat, alpha: real, beta: real, id: nat)
    ensures RrfOf(v, l, k, id) == Score(v, l, k, alpha, beta, id).rrf
  {
  }

  lemma StableAbove(xs: seq<Scored>, r: seq<Scored>, x: nat, y: nat)
    requires Stable(xs, r)
    requires (exists i :: 0 <= i < |r| && r[i].id == x) && (exists i :: 0 <= i < |r| && r[i].id == y)
    requires forall i, j :: 0 <= i < |r| && 0 <= j < |r| && r[i].id == x && r[j].id == y ==> r[i].rrf == r[j].rrf
    ensures StandsAbove(r, x, y) <==> PlaceOf(xs, x) < PlaceOf(xs, y)
  {
    hide PlaceOf;
  }

  lemma PlaceOfId(v: seq<Hit>, l: seq<Hit>, k: nat, alpha: real, beta: real, order: seq<nat>, a: nat)
    requires Enumerates(order, v, l) && a < |order|
    ensures PlaceOf(ScoreAll(v, l, k, alpha, beta, order), order[a]) == a
  {
    ScoreKeepsId(v, l, k, alpha, beta);
    hide Score;
    var xs := ScoreAll(v, l, k, alpha, beta, order);
    assert xs[a].id == order[a];
    assert forall j :: 0 <= j < a ==> xs[j].id == order[j] && order[j] != order[a];
  }

  /** Being found beats not being found: with lists no longer than 2k an absent chunk ranks last. */
  lemma AbsentRanksLast(xs: seq<Hit>, k: nat, a: nat, b: nat)
    requires |xs| <= 2 * k && a in Ids(xs) && b !in Ids(xs)
    ensures RankIn(xs, a, 2 * k) < RankIn(xs, b, 2 * k)
  {
  }

  /** A chunk both lists rank above 60k/(60+k) stands above every chunk only one list found. */
  lemma AgreementBeatsSingles(v: seq<Hit>, l: seq<Hit>, k: nat, alpha: real, beta: real, order: seq<nat>, a: nat,
                              b: nat)
    requires Enumerates(order, v, l)
    requires RankIn(v, a, 2 * k) * (RRF_K + k) < RRF_K * k && RankIn(l, a, 2 * k) * (RRF_K + k) < RRF_K * k
    requires b !in Ids(v) || b !in Ids(l)
    ensures StandsAbove(Ranking(v, l, k, alpha, beta, order), a, b)
  {
    var va, la := RankIn(v, a, 2 * k), RankIn(l, a, 2 * k);
    var worse := if va < la then la else va;
    BreakEven(worse, k);
    ReciprocalFallsWeakly(va, worse);
    ReciprocalFallsWeakly(la, worse);
    ReciprocalFallsWeakly(0, RankIn(v, b, 2 * k));
    ReciprocalFallsWeakly(0, RankIn(l, b, 2 * k));
    HigherScoreFirst(v, l, k, alpha, beta, order, a, b);
  }

  /** The result is the best k chunks: as many as there are, each once with its own score, best first. */
  lemma FuseKeepsTheBest(v: seq<Hit>, l: seq<Hit>, k: nat, alpha: real, beta: real, order: seq<nat>)
    requires Enumerates(order, v, l)
    ensures var m := Fuse(v, l, k, alpha, beta, order);
            && |m| == (if k < |Ids(v) + Ids(l)| then k else |Ids(v) + Ids(l)|)
            && (forall i, j :: 0 <= i < j < |m| ==> m[i].id != m[j].id && m[i].rrf >= m[j].rrf)
            && (forall i :: 0 <= i < |m| ==> m[i].id in Ids(v) + Ids(l) && m[i] == Score(v, l, k, alpha, beta, m[i].id))
  {
    RankingShape(v, l, k, alpha, beta, order);
    OnceLength(order, Ids(v) + Ids(l));
    var r := Ranking(v, l, k, alpha, beta, order);
    assert Fuse(v, l, k, alpha, beta, order) == Take(r, k);
    assert forall id :: id in order <==> id in Ids(v) + Ids(l);
    hide *;
    TakeKeeps(r, k);
  }

  lemma TakeKeeps(r: seq<Scored>, k: nat)
    requires Descending(r) && DistinctIds(r)
    ensures var m := Take(r, k);
            && |m| == (if k < |r| then k else |r|)
            && (forall i, j :: 0 <= i < j < |m| ==> m[i].id != m[j].id && m[i].rrf >= m[j].rrf)
            && (forall i :: 0 <= i < |m| ==> m[i] == r[i])
  {
  }

  /** Nothing the cut leaves out scores more than anything it keeps. */
  lemma CutLosesOnlyWorse(v: seq<Hit>, l: seq<Hit>, k: nat, alpha: real, beta: real, order: seq<nat>, id: nat)
    requires Enumerates(order, v, l) && id in order
    ensures var m := Fuse(v, l, k, alpha, beta, order);
            (exists j :: 0 <= j < |m| && m[j].id == id) || forall i :: 0 <= i < |m| ==> RrfOf(v, l, k, id) <= m[i].rrf
  {
    var r := Ranking(v, l, k, alpha, beta, order);
    RankingShape(v, l, k, alpha, beta, order);
    hide Ranking, RankIn, ScoreIn, Rrf, Ids, Enumerates, Take, Descending;
    var p :| 0 <= p < |r| && r[p].id == id;
    if forall j :: 0 <= j < |Take(r, k)| ==> Take(r, k)[j].id != id {
      forall i: nat | i < |Take(r, k)| ensures r[p].rrf <= Take(r, k)[i].rrf {
        LaterIsWorse(r, k, i, p);
      }
    }
  }

  lemma LaterIsWorse(r: seq<Scored>, k: nat, i: nat, p: nat)
    requires Descending(r) && i < |Take(r, k)| && p < |r|
    requires forall j :: 0 <= j < |Take(r, k)| ==> Take(r, k)[j].id != r[p].id
    ensures r[p].rrf <= Take(r, k)[i].rrf
  {
    assert p >= k ==> i < p;
    assert p < k ==> Take(r, k)[p] == r[p];
  }

  /** The displayed score of a chunk only one list found is that list's share alone, and with weights
      that sum to one it never leaves the range of the two similarities. */
  lemma DisplayedScore(v: seq<Hit>, l: seq<Hit>, k: nat, alpha: real, beta: real, id: nat)
    requires 0.0 <= alpha && 0.0 <= beta && alpha + beta == 1.0
    ensures var s := Score(v, l, k, alpha, beta, id);
            && (id !in Ids(l) ==> s.hybrid == alpha * s.vector && s.lexical == 0.0)
            && (id !in Ids(v) ==> s.hybrid == beta * s.lexical && s.vector == 0.0)
            && (s.vector <= s.lexical ==> s.vector <= s.hybrid <= s.lexical)
            && (s.lexical <= s.vector ==> s.lexical <= s.hybrid <= s.vector)
  {
    Between(alpha, ScoreIn(v, id), beta, ScoreIn(l, id));
  }

  lemma Between(alpha: real, x: real, beta: real, y: real)
    requires 0.0 <= alpha && 0.0 <= beta && alpha + beta == 1.0
    ensures x <= y ==> x <= Weighted(alpha, x, beta, y) <= y
    ensures y <= x ==> y <= Weighted(alpha, x, beta, y) <= x
  {
    assert Weighted(alpha, x, beta, y) - x == beta * (y - x);
    assert Weighted(alpha, x, beta, y) - y == alpha * (x - y);
    if x <= y { NotNegative(beta, y - x); NotNegative(alpha, y - x); }
    if y <= x { NotNegative(beta, x - y); NotNegative(alpha, x - y); }
  }

  lemma NotNegative(a: real, b: real)
    requires a >= 0.0 && b >= 0.0
    ensures a * b >= 0.0
  {
    if a > 0.0 && b > 0.0 {
      assert a * b > 0.0;
    }
  }

  // ---------------------------------------------------------------- the iteration order only breaks ties

  function Scores(xs: seq<Scored>): (r: seq<real>)
    ensures |r| == |xs| && forall i :: 0 <= i < |r| ==> r[i] == xs[i].rrf
  {
    seq(|xs|, i requires 0 <= i < |xs| => xs[i].rrf)
  }

  /** Where two orderings of the same entries both descend, they carry the same score at every place. */
  lemma {:induction false} DescendingScoresUnique(xs: seq<Scored>, ys: seq<Scored>, n: nat)
    requires Descending(xs) && Descending(ys) && multiset(xs) == multiset(ys) && n < |xs| && n < |ys|
    ensures xs[n].rrf <= ys[n].rrf
  {
    if xs[n].rrf > ys[n].rrf {
      // n + 1 entries of xs score more than ys[n]; fewer than n + 1 entries of ys can
      var c := xs[n].rrf;
      AboveCount(xs, c, n + 1);
      AboveCountAtMost(ys, c, n);
      AboveDependsOnEntries(xs, ys, c);
    }
  }

  function Above(m: seq<Scored>, c: real): nat {
    if m == [] then 0 else Above(m[..|m| - 1], c) + if m[|m| - 1].rrf >= c then 1 else 0
  }

  lemma {:induction false} AboveSplit(a: seq<Scored>, b: seq<Scored>, c: real)
    ensures Above(a + b, c) == Above(a, c) + Above(b, c)
  {
    if b == [] {
      assert a + b == a;
    } else {
      assert (a + b)[..|a + b| - 1] == a + b[..|b| - 1];
      AboveSplit(a, b[..|b| - 1], c);
    }
  }

  lemma {:induction false} AboveCount(xs: seq<Scored>, c: real, n: nat)
    requires n <= |xs| && forall i :: 0 <= i < n ==> xs[i].rrf >= c
    ensures Above(xs, c) >= n
  {
    if n > 0 {
      AboveSplit(xs[..n], xs[n..], c);
      assert xs == xs[..n] + xs[n..];
      AboveAll(xs[..n], c);
    }
  }

  lemma {:induction false} AboveAll(xs: seq<Scored>, c: real)
    requires forall i :: 0 <= i < |xs| ==> xs[i].rrf >= c
    ensures Above(xs, c) == |xs|
  {
    if xs != [] { AboveAll(xs[..|xs| - 1], c); }
  }

  lemma {:induction false} AboveCountAtMost(xs: seq<Scored>, c: real, n: nat)
    requires n < |xs| && Descending(xs) && xs[n].rrf < c
    ensures Above(xs, c) <= n
    decreases |xs|
  {
    if |xs| == n + 1 {
      AboveBounded(xs[..n], c);
    } else {
      AboveCountAtMost(xs[..|xs| - 1], c, n);
      assert xs[n].rrf >= xs[|xs| - 1].rrf;
    }
  }

  lemma {:induction false} AboveBounded(xs: seq<Scored>, c: real)
    ensures Above(xs, c) <= |xs|
  {
    if xs != [] { AboveBounded(xs[..|xs| - 1], c); }
  }

  lemma {:induction false} AboveDependsOnEntries(xs: seq<Scored>, ys: seq<Scored>, c: real)
    requires multiset(xs) == multiset(ys)
    ensures Above(xs, c) == Above(ys, c)
  {
    if xs == [] {
      assert |multiset(ys)| == 0;
    } else {
      var x := xs[|xs| - 1];
      WithoutOne(xs, |xs| - 1);
      assert xs[..|xs| - 1] + xs[|xs|..] == xs[..|xs| - 1];
      assert x in multiset(ys);
      var j :| 0 <= j < |ys| && ys[j] == x;
      WithoutOne(ys, j);
      assert multiset(xs[..|xs| - 1]) == multiset(xs) - multiset{x} == multiset(ys[..j] + ys[j + 1..]);
      hide Above;
      AboveDependsOnEntries(xs[..|xs| - 1], ys[..j] + ys[j + 1..], c);
      AboveWithout(xs, |xs| - 1, c);
      AboveWithout(ys, j, c);
    }
  }

  lemma AboveWithout(xs: seq<Scored>, j: nat, c: real)
    requires j < |xs|
    ensures Above(xs, c) == Above(xs[..j] + xs[j + 1..], c) + Above([xs[j]], c)
  {
    assert xs == xs[..j] + [xs[j]] + xs[j + 1..];
    AboveSplit(xs[..j] + [xs[j]], xs[j + 1..], c);
    AboveSplit(xs[..j], [xs[j]], c);
    AboveSplit(xs[..j], xs[j + 1..], c);
  }

  lemma {:induction false} SameIdsSameEntries(v: seq<Hit>, l: seq<Hit>, k: nat, alpha: real, beta: real,
                                              o1: seq<nat>, o2: seq<nat>)
    requires multiset(o1) == multiset(o2)
    ensures multiset(ScoreAll(v, l, k, alpha, beta, o1)) == multiset(ScoreAll(v, l, k, alpha, beta, o2))
    decreases |o1|
  {
    if o1 == [] {
      assert |multiset(o2)| == 0;
    } else {
      var x := o1[|o1| - 1];
      WithoutOne(o1, |o1| - 1);
      assert o1[..|o1| - 1] + o1[|o1|..] == o1[..|o1| - 1];
      assert x in multiset(o2);
      var j :| 0 <= j < |o2| && o2[j] == x;
      WithoutOne(o2, j);
      assert multiset(o1[..|o1| - 1]) == multiset(o1) - multiset{x} == multiset(o2[..j] + o2[j + 1..]);
      hide ScoreAll, Score;
      SameIdsSameEntries(v, l, k, alpha, beta, o1[..|o1| - 1], o2[..j] + o2[j + 1..]);
      EntriesWithout(v, l, k, alpha, beta, o1, |o1| - 1);
      EntriesWithout(v, l, k, alpha, beta, o2, j);
    }
  }

  lemma EntriesWithout(v: seq<Hit>, l: seq<Hit>, k: nat, alpha: real, beta: real, o: seq<nat>, j: nat)
    requires j < |o|
    ensures multiset(ScoreAll(v, l, k, alpha, beta, o))
         == multiset(ScoreAll(v, l, k, alpha, beta, o[..j] + o[j + 1..])) + multiset{Score(v, l, k, alpha, beta, o[j])}
  {
    hide Score;
    var s := ScoreAll(v, l, k, alpha, beta, o);
    assert ScoreAll(v, l, k, alpha, beta, o[..j] + o[j + 1..]) == s[..j] + s[j + 1..];
    WithoutOne(s, j);
  }

  /** Whatever order the id set is iterated in, place n of the result carries the same fusion score. */
  lemma IterationOrderOnlyBreaksTies(v: seq<Hit>, l: seq<Hit>, k: nat, alpha: real, beta: real, o1: seq<nat>,
                                     o2: seq<nat>)
    requires Enumerates(o1, v, l) && Enumerates(o2, v, l)
    ensures Scores(Fuse(v, l, k, alpha, beta, o1)) == Scores(Fuse(v, l, k, alpha, beta, o2))
  {
    hide Ranking, ScoreAll, Score, Descending;
    SameElements(o1, o2);
    SameIdsSameEntries(v, l, k, alpha, beta, o1, o2);
    hide Enumerates, Take;
    RankingSorts(v, l, k, alpha, beta, o1);
    RankingSorts(v, l, k, alpha, beta, o2);
    SameScores(Ranking(v, l, k, alpha, beta, o1), Ranking(v, l, k, alpha, beta, o2));
    SameTake(Ranking(v, l, k, alpha, beta, o1), Ranking(v, l, k, alpha, beta, o2), k);
  }

  lemma RankingSorts(v: seq<Hit>, l: seq<Hit>, k: nat, alpha: real, beta: real, order: seq<nat>)
    ensures Descending(Ranking(v, l, k, alpha, beta, order))
    ensures multiset(Ranking(v, l, k, alpha, beta, order)) == multiset(ScoreAll(v, l, k, alpha, beta, order))
  {
    hide ScoreAll, Sort, Descending;
    SortSorts(ScoreAll(v, l, k, alpha, beta, order));
  }

  lemma SameTake(xs: seq<Scored>, ys: seq<Scored>, k: nat)
    requires |xs| == |ys| && forall n :: 0 <= n < |xs| ==> xs[n].rrf == ys[n].rrf
    ensures Scores(Take(xs, k)) == Scores(Take(ys, k))
  {
  }

  lemma SameScores(xs: seq<Scored>, ys: seq<Scored>)
    requires Descending(xs) && Descending(ys) && multiset(xs) == multiset(ys)
    ensures |xs| == |ys| && forall n :: 0 <= n < |xs| ==> xs[n].rrf == ys[n].rrf
  {
    assert |xs| == |multiset(xs)| == |multiset(ys)| == |ys|;
    forall n: nat | n < |xs| ensures xs[n].rrf == ys[n].rrf {
      DescendingScoresUnique(xs, ys, n);
      DescendingScoresUnique(ys, xs, n);
    }
  }
}
