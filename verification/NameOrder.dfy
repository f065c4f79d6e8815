/** Python's `sorted` on a set of strings. */
module NameOrder {

  /** Lexicographic order of strings. */
  predicate Less(a: string, b: string) {
    b != [] && (a == [] || a[0] < b[0] || (a[0] == b[0] && Less(a[1..], b[1..])))
  }

  lemma {:induction false} LessIrreflexive(a: string)
    ensures !Less(a, a)
  {
    if a != [] { LessIrreflexive(a[1..]); }
  }

  lemma {:induction false} LessTotal(a: string, b: string)
    ensures a == b || Less(a, b) || Less(b, a)
  {
    if a != [] && b != [] && a[0] == b[0] {
      LessTotal(a[1..], b[1..]);
      assert a == [a[0]] + a[1..] && b == [b[0]] + b[1..];
    }
  }

  lemma {:induction false} LessTransitive(a: string, b: string, c: string)
    requires Less(a, b) && Less(b, c)
    ensures Less(a, c)
  {
    if a != [] && a[0] == b[0] == c[0] { LessTransitive(a[1..], b[1..], c[1..]); }
  }

  ghost predicate Least(m: string, s: set<string>) {
    m in s && forall x :: x in s && x != m ==> Less(m, x)
  }

  lemma {:induction false} LeastExists(s: set<string>)
    requires s != {}
    ensures exists m :: Least(m, s)
  {
    var x :| x in s;
    if s - {x} == {} {
      assert s == {x};
      assert Least(x, s);
    } else {
      LeastExists(s - {x});
      var m :| Least(m, s - {x});
      LessTotal(m, x);
      if Less(m, x) {
        assert Least(m, s);
      } else {
        forall y | y in s && y != x ensures Less(x, y) {
          if y != m { LessTransitive(x, m, y); }
        }
        assert Least(x, s);
      }
    }
  }

  ghost predicate Ascending(xs: seq<string>) {
    forall i, j :: 0 <= i < j < |xs| ==> Less(xs[i], xs[j])
  }

  ghost function Sorted(s: set<string>): (r: seq<string>)
    ensures Ascending(r) && forall x :: x in r <==> x in s
  {
    if s == {} then []
    else
      LeastExists(s);
      var m :| Least(m, s);
      [m] + Sorted(s - {m})
  }

  lemma {:induction false} AscendingUnique(a: seq<string>, b: seq<string>)
    requires Ascending(a) && Ascending(b) && forall x :: x in a <==> x in b
    ensures a == b
  {
    if a == [] {
      assert forall i :: 0 <= i < |b| ==> b[i] in b;
    } else {
      assert a[0] in b;
      assert b[0] in a;
      if a[0] != b[0] {
        LessTransitive(a[0], b[0], a[0]);
        LessIrreflexive(a[0]);
        assert false;
      }
      forall x ensures x in a[1..] <==> x in b[1..] {
        LessIrreflexive(a[0]);
        assert x in a[1..] <==> x in a && x != a[0];
        assert x in b[1..] <==> x in b && x != b[0];
      }
      AscendingUnique(a[1..], b[1..]);
      assert a == [a[0]] + a[1..] && b == [b[0]] + b[1..];
    }
  }

  method SortNames(s: set<string>) returns (r: seq<string>)
    ensures r == Sorted(s)
  {
    r := [];
    var todo := s;
    while todo != {}
      invariant todo <= s && Ascending(r) && (forall x :: x in r <==> x in s - todo)
      invariant forall x, y :: x in r && y in todo ==> Less(x, y)
      decreases |todo|
    {
      LeastExists(todo);
      var m := LeastOf(todo);
      forall x, y | x in r + [m] && y in todo - {m} ensures Less(x, y) {
      }
      r := r + [m];
      todo := todo - {m};
    }
    AscendingUnique(r, Sorted(s));
  }

  method LeastOf(s: set<string>) returns (m: string)
    requires s != {}
    ensures Least(m, s)
  {
    m :| m in s;
    var rest := s - {m};
    while rest != {}
      invariant rest <= s && m in s - rest && forall x :: x in s - rest && x != m ==> Less(m, x)
      decreases |rest|
    {
      var x :| x in rest;
      LessTotal(m, x);
      var better := Less(x, m);
      if better {
        forall y | y in s - rest && y != m ensures Less(x, y) {
          LessTransitive(x, m, y);
        }
        m := x;
      }
      rest := rest - {x};
    }
  }
}
