/** Reordering search results by a model's answer: `LLMReranker.rerank` of agentflow/knowledge/reranker.py.
    The answer is any list of integers; an unusable answer is the empty list. */
module Reranker {

  import opened Lists

  /** The valid indices below `n`, each at its first mention. */
  function Mentions(order: seq<int>, n: nat): (r: seq<nat>)
    ensures forall i :: 0 <= i < |r| ==> r[i] < n
  {
    if order == [] then []
    else
      var front, idx := Mentions(order[..|order| - 1], n), order[|order| - 1];
      if 0 <= idx < n && idx !in front then front + [idx] else front
  }

  /** The indices below `n` that were not mentioned, in their original order. */
  function Unmentioned(seen: seq<nat>, n: nat): (r: seq<nat>)
    ensures forall i :: 0 <= i < |r| ==> r[i] < n
  {
    if n == 0 then [] else Unmentioned(seen, n - 1) + if n - 1 in seen then [] else [n - 1]
  }

  function Ranking(order: seq<int>, n: nat): (r: seq<nat>)
    ensures forall i :: 0 <= i < |r| ==> r[i] < n
  {
    Mentions(order, n) + Unmentioned(Mentions(order, n), n)
  }

  function Reranked<T>(results: seq<T>, candidates: nat, topK: nat, order: seq<int>): seq<T> {
    if |results| <= 1 || order == [] then results
    else
      var pool := Take(results, candidates);
      Take(Pick(pool, Ranking(order, |pool|)), topK)
  }

  /** `rerank`, from the parsed answer on. */
  method Rerank<T>(results: seq<T>, candidates: nat, topK: nat, order: seq<int>) returns (out: seq<T>)
    ensures out == Reranked(results, candidates, topK, order)
  {
    if |results| <= 1 || order == [] {
      return results;
    }
    var pool := Take(results, candidates);
    var ranked: seq<T> := [];
    var seen: set<int> := {};
    var n := 0;
    while n < |order|
      invariant n <= |order|
      invariant ranked == Pick(pool, Mentions(order[..n], |pool|))
      invariant forall idx :: idx in seen <==> idx >= 0 && idx in Mentions(order[..n], |pool|)
    {
      assert order[..n + 1][..n] == order[..n];
      var idx := order[n];
      n := n + 1;
      if idx < 0 || idx >= |pool| || idx in seen {
        continue;
      }
      seen := seen + {idx};
      ranked := ranked + [pool[idx]];
    }
    assert order[..n] == order;
    var mentioned := Mentions(order, |pool|);
    for i := 0 to |pool|
      invariant ranked == Pick(pool, mentioned + Unmentioned(mentioned, i))
    {
      assert mentioned + Unmentioned(mentioned, i + 1)
             == (mentioned + Unmentioned(mentioned, i)) + if i in mentioned then [] else [i];
      if i !in seen {
        ranked := ranked + [pool[i]];
      }
    }
    out := Take(ranked, topK);
  }

  // ---------------------------------------------------------------- what the order is

  function FirstMention(order: seq<int>, idx: int): (p: nat)
    ensures p <= |order| && (p < |order| <==> idx in order) && (p < |order| ==> order[p] == idx)
  {
    if order == [] then 0
    else
      var p := FirstMention(order[..|order| - 1], idx);
      if p < |order| - 1 then p else if order[|order| - 1] == idx then |order| - 1 else |order|
  }

  /** Mentioned candidates sort by first mention, ahead of the others, which keep their own order. */
  function Key(order: seq<int>, idx: nat): nat {
    if idx in order then FirstMention(order, idx) else |order| + idx
  }

  ghost predicate Increasing(order: seq<int>, r: seq<nat>) {
    forall i, j :: 0 <= i < j < |r| ==> Key(order, r[i]) < Key(order, r[j])
  }

  lemma {:induction false} MentionsAreFirst(order: seq<int>, n: nat)
    ensures forall idx: nat :: idx in Mentions(order, n) <==> idx < n && idx in order
    ensures Increasing(order, Mentions(order, n))
  {
    if order != [] {
      var front, idx := order[..|order| - 1], order[|order| - 1];
      MentionsAreFirst(front, n);
      forall x: nat ensures x in Mentions(order, n) <==> x < n && x in order {
        assert x in order <==> x in front || x == idx;
      }
      forall x: nat | x in front ensures Key(order, x) == Key(front, x) < |front| {
      }
    }
  }

  lemma {:induction false} UnmentionedAscend(order: seq<int>, seen: seq<nat>, n: nat, m: nat)
    requires n <= m && forall idx: nat :: idx in seen <==> idx < m && idx in order
    ensures forall idx: nat :: idx in Unmentioned(seen, n) <==> idx < n && idx !in order
    ensures Increasing(order, Unmentioned(seen, n))
  {
    if n > 0 {
      UnmentionedAscend(order, seen, n - 1, m);
    }
  }

  /** Main result: whatever the model answers, the reordering lists every candidate exactly once, sorted
      by first mention with the unmentioned ones after them in their original order. */
  lemma RankingSortsCandidates(order: seq<int>, n: nat)
    ensures forall idx: nat :: idx in Ranking(order, n) <==> idx < n
    ensures Increasing(order, Ranking(order, n))
    ensures |Ranking(order, n)| == n
  {
    var m := Mentions(order, n);
    MentionsAreFirst(order, n);
    UnmentionedAscend(order, m, n, n);
    assert Ranking(order, n) == m + Unmentioned(m, n);
    hide *;
    MentionedFirst(order, n, m, Unmentioned(m, n));
    CoversOnce(order, Ranking(order, n), n);
  }

  /** The mentioned candidates and then the others are all of them, in increasing order. */
  lemma MentionedFirst(order: seq<int>, n: nat, m: seq<nat>, u: seq<nat>)
    requires forall idx: nat :: idx in m <==> idx < n && idx in order
    requires forall idx: nat :: idx in u <==> idx < n && idx !in order
    requires Increasing(order, m) && Increasing(order, u)
    ensures (forall idx: nat :: idx in m + u <==> idx < n) && Increasing(order, m + u)
  {
    var r := m + u;
    forall i, j | 0 <= i < j < |r| ensures Key(order, r[i]) < Key(order, r[j]) {
      if i < |m| <= j {
        assert r[i] in m && u[j - |m|] in u;
      }
    }
  }

  lemma CoversOnce(order: seq<int>, r: seq<nat>, n: nat)
    requires Increasing(order, r) && forall idx: nat :: idx in r <==> idx < n
    ensures |r| == n
  {
    RangeSize(0, n);
    OnceLength(r, Range(0, n));
  }

  /** The sorted order is the only one, so the answer decides the outcome completely. */
  lemma {:induction false} OnlyOneSuchOrder(order: seq<int>, a: seq<nat>, b: seq<nat>)
    requires Increasing(order, a) && Increasing(order, b) && forall idx: nat :: idx in a <==> idx in b
    ensures a == b
    decreases |a|
  {
    if a == [] {
      assert forall i :: 0 <= i < |b| ==> b[i] in b;
    } else {
      assert a[0] in b && a[|a| - 1] in b;
      assert b[|b| - 1] in a;
      var x, y := a[|a| - 1], b[|b| - 1];
      assert x == y by {
        assert Key(order, y) <= Key(order, x) && Key(order, x) <= Key(order, y);
        SameKey(order, x, y);
      }
      var fa, fb := a[..|a| - 1], b[..|b| - 1];
      forall idx: nat ensures idx in fa <==> idx in fb {
        assert idx in fa <==> idx in a && idx != x;
        assert idx in fb <==> idx in b && idx != y;
      }
      OnlyOneSuchOrder(order, fa, fb);
      assert a == fa + [x] && b == fb + [y];
    }
  }

  lemma SameKey(order: seq<int>, x: nat, y: nat)
    requires Key(order, x) == Key(order, y)
    ensures x == y
  {
  }

  /** A single result, or an answer without an order, leaves the results as they are, untrimmed. */
  lemma NothingToRerank<T>(results: seq<T>, candidates: nat, topK: nat, order: seq<int>)
    requires |results| <= 1 || order == []
    ensures Reranked(results, candidates, topK, order) == results
  {
  }

  /** No candidate is lost or doubled, and the caller gets the first top_k of them. */
  lemma RerankedKeepsCandidates<T>(results: seq<T>, candidates: nat, topK: nat, order: seq<int>)
    requires |results| > 1 && order != []
    ensures var pool := Take(results, candidates);
            && multiset(Pick(pool, Ranking(order, |pool|))) == multiset(pool)
            && Reranked(results, candidates, topK, order) == Take(Pick(pool, Ranking(order, |pool|)), topK)
  {
    var pool := Take(results, candidates);
    RankingSortsCandidates(order, |pool|);
    Permutes(pool, Ranking(order, |pool|));
  }

  lemma {:induction false} Permutes<T>(items: seq<T>, r: seq<nat>)
    requires Once(r) && forall idx: nat :: idx < |items| ==> idx in r
    requires forall i :: 0 <= i < |r| ==> r[i] < |items|
    ensures multiset(Pick(items, r)) == multiset(items)
  {
    if items == [] {
      assert r == [];
    } else {
      var n := |items| - 1;
      assert n in r;
      var j :| 0 <= j < |r| && r[j] == n;
      var rest := r[..j] + r[j + 1..];
      OnceRest(r, j);
      forall idx: nat | idx < n ensures idx in rest {
        assert idx in r;
      }
      forall i | 0 <= i < |rest| ensures rest[i] < n {
        assert rest[i] in rest && rest[i] in r;
      }
      Permutes(items[..n], rest);
      PickWithout(items, r, j, rest);
    }
  }

  lemma PickWithout<T>(items: seq<T>, r: seq<nat>, j: nat, rest: seq<nat>)
    requires j < |r| && r[j] == |items| - 1 && rest == r[..j] + r[j + 1..]
    requires forall i :: 0 <= i < |r| ==> r[i] < |items|
    requires forall i :: 0 <= i < |rest| ==> rest[i] < |items| - 1
    requires multiset(Pick(items[..|items| - 1], rest)) == multiset(items[..|items| - 1])
    ensures multiset(Pick(items, r)) == multiset(items)
  {
    var n, p := |items| - 1, Pick(items, r);
    WithoutOne(p, j);
    assert Pick(items[..n], rest) == p[..j] + p[j + 1..];
    assert items == items[..n] + [items[n]];
  }

  lemma OnceRest<T(!new)>(xs: seq<T>, j: nat)
    requires Once(xs) && j < |xs|
    ensures Once(xs[..j] + xs[j + 1..]) && forall x :: x in xs[..j] + xs[j + 1..] <==> x in xs && x != xs[j]
  {
    var rest := xs[..j] + xs[j + 1..];
    forall x | x in xs && x != xs[j] ensures x in rest {
      var i :| 0 <= i < |xs| && xs[i] == x;
      assert rest[if i < j then i else i - 1] == x;
    }
  }

  /** An answer that only says what the list already says changes nothing. */
  lemma {:induction false} AgreeingAnswerKeepsOrder<T>(results: seq<T>, candidates: nat, topK: nat, order: seq<int>)
    requires |results| > 1 && order != []
    requires forall p, q :: 0 <= p < |Take(results, candidates)| && 0 <= q < |Take(results, candidates)| && p < q ==>
               Key(order, p) < Key(order, q)
    ensures Reranked(results, candidates, topK, order) == Take(Take(results, candidates), topK)
  {
    var pool := Take(results, candidates);
    RankingSortsCandidates(order, |pool|);
    var identity: seq<nat> := seq(|pool|, i requires 0 <= i => i);
    forall idx: nat ensures idx in identity <==> idx < |pool| {
      if idx < |pool| { assert identity[idx] == idx; }
    }
    OnlyOneSuchOrder(order, Ranking(order, |pool|), identity);
    assert Pick(pool, identity) == pool;
  }
}
