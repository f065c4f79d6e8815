/** Sequences and index ranges, as the other modules use them. */
module Lists {

  function Take<T>(xs: seq<T>, n: nat): seq<T> {
    if n < |xs| then xs[..n] else xs
  }

  function Pick<T>(items: seq<T>, indices: seq<nat>): (r: seq<T>)
    requires forall i :: 0 <= i < |indices| ==> indices[i] < |items|
    ensures |r| == |indices| && forall i :: 0 <= i < |r| ==> r[i] == items[indices[i]]
  {
    seq(|indices|, i requires 0 <= i < |indices| => items[indices[i]])
  }

  /** The `n` consecutive numbers from `base` on. */
  function Range(base: nat, n: nat): (r: set<nat>)
    ensures forall id: nat :: id in r <==> base <= id < base + n
  {
    if n == 0 then {} else Range(base, n - 1) + {base + n - 1}
  }

  lemma {:induction false} RangeSize(base: nat, n: nat)
    ensures |Range(base, n)| == n
  {
    if n > 0 {
      RangeSize(base, n - 1);
    }
  }

  ghost predicate Once<T(!new)>(xs: seq<T>) {
    forall i, j :: 0 <= i < j < |xs| ==> xs[i] != xs[j]
  }

  /** A list that names every member of a set once has as many entries as the set. */
  lemma {:induction false} OnceLength<T(!new)>(xs: seq<T>, s: set<T>)
    requires Once(xs) && forall x :: x in xs <==> x in s
    ensures |xs| == |s|
  {
    if xs == [] {
      assert s == {};
    } else {
      var front, last := xs[..|xs| - 1], xs[|xs| - 1];
      assert last in xs;
      forall x ensures x in front <==> x in s - {last} {
        if x in front { assert x in xs; }
        if x in xs && x != last { assert x in front; }
      }
      OnceLength(front, s - {last});
    }
  }

  lemma WithoutOne<T>(xs: seq<T>, j: nat)
    requires j < |xs|
    ensures multiset(xs) == multiset(xs[..j] + xs[j + 1..]) + multiset{xs[j]}
  {
    assert xs == xs[..j] + [xs[j]] + xs[j + 1..];
  }

  /** Two lists that name the same things once each are permutations of each other. */
  lemma SameElements<T(!new)>(xs: seq<T>, ys: seq<T>)
    requires Once(xs) && Once(ys) && forall x :: x in xs <==> x in ys
    ensures multiset(xs) == multiset(ys)
  {
    forall x ensures multiset(xs)[x] == multiset(ys)[x] {
      OnceEach(xs, x);
      OnceEach(ys, x);
    }
  }

  lemma {:induction false} OnceEach<T(!new)>(xs: seq<T>, x: T)
    requires Once(xs)
    ensures multiset(xs)[x] == if x in xs then 1 else 0
  {
    if xs != [] {
      OnceEach(xs[..|xs| - 1], x);
      assert xs == xs[..|xs| - 1] + [xs[|xs| - 1]];
    }
  }

  ghost predicate Ascending(xs: seq<nat>) {
    forall k, l :: 0 <= k < l < |xs| ==> xs[k] < xs[l]
  }

  lemma AscendingSnoc(xs: seq<nat>, x: nat)
    requires Ascending(xs) && forall y :: y in xs ==> y < x
    ensures Ascending(xs + [x])
  {
    var r := xs + [x];
    forall k, l | 0 <= k < l < |r| ensures r[k] < r[l] { assert r[k] in xs; }
  }
}
