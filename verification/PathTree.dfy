/** The file tree of an answer, `_build_path_tree` of agentflow/agents/answer/agent.py, with a path taken as
    the list of its segments: what is printed, and what a reader makes of it. */
module PathTrees {

  import opened NameOrder
  import opened Options

  type Path = seq<string>

  type Tree = map<Path, set<string>>

  /** What the listing says of one path. */
  datatype Entry = Entry(path: Path, dir: bool)

  /** One printed line: for every ancestor whether it was a last child, then the node itself. */
  datatype Line = Line(groups: seq<bool>, last: bool, name: string, dir: bool)

  // ---------------------------------------------------------------- building the tree

  /** `tree.setdefault(parent, set()).add(part)` for the first `n` parts of `p`. */
  function AddParts(t: Tree, p: Path, n: nat): Tree
    requires n <= |p|
  {
    if n == 0 then t
    else
      var u := AddParts(t, p, n - 1);
      u[p[..n - 1] := (if p[..n - 1] in u then u[p[..n - 1]] else {}) + {p[n - 1]}]
  }

  function Build(paths: seq<Path>): Tree {
    if paths == [] then map[] else AddParts(Build(paths[..|paths| - 1]), paths[|paths| - 1], |paths[|paths| - 1]|)
  }

  predicate Edge(t: Tree, parent: Path, name: string) {
    parent in t && name in t[parent]
  }

  /** `q` is a non-empty prefix of one of the paths. */
  ghost predicate Listed(paths: seq<Path>, q: Path) {
    q != [] && exists i :: 0 <= i < |paths| && q <= paths[i]
  }

  ghost predicate NonEmptySets(t: Tree) {
    forall k :: k in t ==> t[k] != {}
  }

  lemma {:induction false} AddPartsEdges(t: Tree, p: Path, n: nat)
    requires n <= |p| && NonEmptySets(t)
    ensures NonEmptySets(AddParts(t, p, n))
    ensures forall k, c :: Edge(AddParts(t, p, n), k, c) <==> Edge(t, k, c) || (|k| < n && k == p[..|k|] && c == p[|k|])
  {
    if n > 0 {
      AddPartsEdges(t, p, n - 1);
      forall k, c ensures Edge(AddParts(t, p, n), k, c)
        <==> Edge(t, k, c) || (|k| < n && k == p[..|k|] && c == p[|k|]) {
        if |k| == n - 1 {
          assert k == p[..n - 1] <==> k == p[..|k|];
        }
      }
    }
  }

  /** The tree's edges are exactly the steps of the paths. */
  lemma {:induction false} BuildEdges(paths: seq<Path>)
    ensures NonEmptySets(Build(paths))
    ensures forall k, c :: Edge(Build(paths), k, c) <==> Listed(paths, k + [c])
  {
    if paths != [] {
      var front, p := paths[..|paths| - 1], paths[|paths| - 1];
      BuildEdges(front);
      AddPartsEdges(Build(front), p, |p|);
      forall k, c ensures Edge(Build(paths), k, c) <==> Listed(paths, k + [c]) {
        ListedSnoc(front, p, k + [c]);
        StepOf(p, k, c);
        assert paths == front + [p];
      }
    }
  }

  lemma ListedSnoc(front: seq<Path>, p: Path, q: Path)
    ensures Listed(front + [p], q) <==> Listed(front, q) || (q != [] && q <= p)
  {
    if Listed(front, q) {
      var i :| 0 <= i < |front| && q <= front[i];
      assert (front + [p])[i] == front[i];
    }
    if q != [] && q <= p {
      assert (front + [p])[|front|] == p;
    }
  }

  lemma StepOf(p: Path, k: Path, c: string)
    ensures |k| < |p| && k == p[..|k|] && c == p[|k|] <==> k + [c] <= p
  {
    if |k| < |p| && k == p[..|k|] && c == p[|k|] {
      assert p[..|k| + 1] == k + [c];
    }
    if k + [c] <= p {
      assert p[..|k|] == (k + [c])[..|k|];
      assert p[|k|] == (k + [c])[|k|];
    }
  }

  // ---------------------------------------------------------------- printing

  function Groups(groups: seq<bool>): string {
    if groups == [] then [] else Groups(groups[..|groups| - 1]) + if groups[|groups| - 1] then "    " else "│   "
  }

  function Render(l: Line): string {
    Groups(l.groups) + (if l.last then "└── " else "├── ") + l.name + if l.dir then "/" else ""
  }

  function RenderAll(ls: seq<Line>): (r: seq<string>)
    ensures |r| == |ls| && forall i :: 0 <= i < |r| ==> r[i] == Render(ls[i])
  {
    if ls == [] then [] else [Render(ls[0])] + RenderAll(ls[1..])
  }

  /** No key reaches past depth `n`. */
  ghost predicate Shallow(t: Tree, n: nat) {
    forall k :: k in t ==> |k| < n
  }

  /** The lines of one child: its own, then those below it. */
  ghost function EmitChild(t: Tree, parent: Path, groups: seq<bool>, name: string, last: bool, d: nat): seq<Line>
    requires Shallow(t, |parent| + d + 1)
    decreases d, 0
  {
    var child := parent + [name];
    [Line(groups, last, name, child in t)]
    + if child in t then Emit(t, child, groups + [last], ChildNames(t, child), d - 1) else []
  }

  /** `_emit` for the children `names` of `parent` that are still to be printed. */
  ghost function Emit(t: Tree, parent: Path, groups: seq<bool>, names: seq<string>, d: nat): seq<Line>
    requires Shallow(t, |parent| + d + 1)
    decreases d, 1, |names|
  {
    if names == [] then []
    else EmitChild(t, parent, groups, names[0], |names| == 1, d) + Emit(t, parent, groups, names[1..], d)
  }

  /** The names below a key, sorted; none below a file. */
  ghost function ChildNames(t: Tree, parent: Path): seq<string> {
    if parent in t then Sorted(t[parent]) else []
  }

  lemma RenderStep(t: Tree, parent: Path, groups: seq<bool>, names: seq<string>, i: nat, d: nat)
    requires Shallow(t, |parent| + d + 1) && i < |names|
    ensures RenderAll(Emit(t, parent, groups, names[i..], d))
         == RenderAll(EmitChild(t, parent, groups, names[i], i == |names| - 1, d))
           + RenderAll(Emit(t, parent, groups, names[i + 1..], d))
  {
    hide EmitChild, Shallow, RenderAll;
    assert names[i..][1..] == names[i + 1..];
    RenderOver(EmitChild(t, parent, groups, names[i], i == |names| - 1, d), Emit(t, parent, groups, names[i + 1..], d));
  }

  lemma RenderEnd(t: Tree, parent: Path, groups: seq<bool>, names: seq<string>, d: nat)
    requires Shallow(t, |parent| + d + 1)
    ensures RenderAll(Emit(t, parent, groups, names[|names|..], d)) == []
  {
    assert names[|names|..] == [];
  }

  lemma DeeperGroups(groups: seq<bool>, last: bool)
    ensures Groups(groups + [last]) == Groups(groups) + if last then "    " else "│   "
  {
    assert (groups + [last])[..|groups|] == groups;
  }

  lemma {:induction false} RenderOver(a: seq<Line>, b: seq<Line>)
    ensures RenderAll(a + b) == RenderAll(a) + RenderAll(b)
  {
  }

  // ---------------------------------------------------------------- reading the lines back

  function Named(rest: string, last: bool): Line {
    if rest != [] && rest[|rest| - 1] == '/' then Line([], last, rest[..|rest| - 1], true)
    else Line([], last, rest, false)
  }

  /** Four characters at a time: ancestors first, then the connector, then the name. */
  function Parse(s: string): Option<Line>
    decreases |s|
  {
    if |s| < 4 then None
    else if s[..4] == "├── " then Some(Named(s[4..], false))
    else if s[..4] == "└── " then Some(Named(s[4..], true))
    else if s[..4] == "    " || s[..4] == "│   " then
      match Parse(s[4..])
      case Some(l) => Some(l.(groups := [s[..4] == "    "] + l.groups))
      case None => None
    else None
  }

  lemma {:induction false} FrontGroup(g: bool, gs: seq<bool>)
    ensures Groups([g] + gs) == (if g then "    " else "│   ") + Groups(gs)
  {
    if gs == [] {
      assert ([g] + gs)[..0] == [];
    } else {
      assert ([g] + gs)[..|gs|] == [g] + gs[..|gs| - 1];
      assert Groups([g] + gs) == Groups([g] + gs[..|gs| - 1]) + if gs[|gs| - 1] then "    " else "│   ";
      assert Groups(gs) == Groups(gs[..|gs| - 1]) + if gs[|gs| - 1] then "    " else "│   ";
      hide *;
      FrontGroup(g, gs[..|gs| - 1]);
    }
  }

  lemma ConnectorParses(last: bool, tail: string)
    ensures Parse((if last then "└── " else "├── ") + tail) == Some(Named(tail, last))
  {
    var s := (if last then "└── " else "├── ") + tail;
    assert s[4..] == tail;
    assert s[..4] == if last then "└── " else "├── ";
    assert "└── "[0] != "├── "[0];
  }

  lemma GroupParses(g: bool, rest: string)
    requires Parse(rest).Some?
    ensures Parse((if g then "    " else "│   ") + rest)
            == Some(Parse(rest).value.(groups := [g] + Parse(rest).value.groups))
  {
    var s := (if g then "    " else "│   ") + rest;
    assert s[4..] == rest;
    assert s[..4] == if g then "    " else "│   ";
    assert "    "[0] != "│   "[0] && "    "[0] != "├── "[0] && "    "[0] != "└── "[0];
    assert "│   "[0] != "├── "[0] && "│   "[0] != "└── "[0];
  }

  lemma NameParses(name: string, dir: bool, last: bool)
    requires '/' !in name
    ensures Named(name + if dir then "/" else "", last) == Line([], last, name, dir)
  {
    var tail := name + if dir then "/" else "";
    if dir {
      assert tail[..|tail| - 1] == name;
    } else {
      assert tail == name;
      assert name != [] ==> name[|name| - 1] in name;
    }
  }

  /** A line reads back as what it was printed from. */
  lemma {:induction false} ParseRender(l: Line)
    requires '/' !in l.name
    ensures Parse(Render(l)) == Some(l)
    decreases |l.groups|
  {
    hide *;
    if l.groups == [] {
      ParseFlat(l);
    } else {
      var inner := l.(groups := l.groups[1..]);
      ParseRender(inner);
      RenderFront(l);
      GroupParses(l.groups[0], Render(inner));
      assert l.groups == [l.groups[0]] + l.groups[1..];
    }
  }

  lemma ParseFlat(l: Line)
    requires '/' !in l.name && l.groups == []
    ensures Parse(Render(l)) == Some(l)
  {
    hide Parse, Named;
    var tail := l.name + if l.dir then "/" else "";
    ConnectorParses(l.last, tail);
    NameParses(l.name, l.dir, l.last);
    assert Render(l) == (if l.last then "└── " else "├── ") + tail;
  }

  lemma RenderFront(l: Line)
    requires l.groups != []
    ensures Render(l) == (if l.groups[0] then "    " else "│   ") + Render(l.(groups := l.groups[1..]))
  {
    FrontGroup(l.groups[0], l.groups[1..]);
    assert l.groups == [l.groups[0]] + l.groups[1..];
    hide Groups;
    Regroup(if l.groups[0] then "    " else "│   ", Groups(l.groups[1..]),
            if l.last then "└── " else "├── ", l.name, if l.dir then "/" else "");
  }

  lemma Regroup(a: string, b: string, c: string, d: string, e: string)
    ensures (a + b) + c + d + e == a + (b + c + d + e)
  {
  }

  /** The listing a reader rebuilds: a line's path is its name below the last path of the depth above. */
  function Decode(cur: Path, ls: seq<Line>): seq<Entry>
    decreases ls
  {
    if ls == [] then []
    else
      var path := Upto(cur, |ls[0].groups|) + [ls[0].name];
      [Entry(path, ls[0].dir)] + Decode(path, ls[1..])
  }

  function Upto(p: Path, n: nat): Path {
    if n < |p| then p[..n] else p
  }

  /** The path the reader stands at after the lines. */
  function Cursor(cur: Path, ls: seq<Line>): Path
    decreases ls
  {
    if ls == [] then cur else Cursor(Upto(cur, |ls[0].groups|) + [ls[0].name], ls[1..])
  }

  lemma {:induction false} DecodeOver(cur: Path, a: seq<Line>, b: seq<Line>)
    ensures Decode(cur, a + b) == Decode(cur, a) + Decode(Cursor(cur, a), b)
    ensures Cursor(cur, a + b) == Cursor(Cursor(cur, a), b)
    decreases |a|
  {
    if a == [] {
      assert a + b == b;
    } else {
      DecodeOver(Upto(cur, |a[0].groups|) + [a[0].name], a[1..], b);
      assert (a + b)[1..] == a[1..] + b && (a + b)[0] == a[0];
    }
  }

  /** The depth-first listing below a key. */
  ghost function WalkChild(t: Tree, parent: Path, name: string, d: nat): seq<Entry>
    requires Shallow(t, |parent| + d + 1)
    decreases d, 0
  {
    var child := parent + [name];
    [Entry(child, child in t)] + if child in t then Walk(t, child, ChildNames(t, child), d - 1) else []
  }

  ghost function Walk(t: Tree, parent: Path, names: seq<string>, d: nat): seq<Entry>
    requires Shallow(t, |parent| + d + 1)
    decreases d, 1, |names|
  {
    if names == [] then [] else WalkChild(t, parent, names[0], d) + Walk(t, parent, names[1..], d)
  }

  lemma {:induction false} DecodeChild(t: Tree, parent: Path, groups: seq<bool>, name: string, last: bool, d: nat,
                                       cur: Path)
    requires Shallow(t, |parent| + d + 1) && |groups| == |parent| && parent <= cur
    ensures Decode(cur, EmitChild(t, parent, groups, name, last, d)) == WalkChild(t, parent, name, d)
    ensures parent <= Cursor(cur, EmitChild(t, parent, groups, name, last, d))
    decreases d, 0
  {
    var child := parent + [name];
    var head := Line(groups, last, name, child in t);
    DecodeHead(parent, head, cur);
    if child in t {
      var below := Emit(t, child, groups + [last], ChildNames(t, child), d - 1);
      DecodeEmit(t, child, groups + [last], ChildNames(t, child), d - 1, child);
      hide Emit, Walk, Decode, Cursor;
      DecodeOver(cur, [head], below);
    } else {
      assert [head] + [] == [head];
    }
  }

  lemma DecodeHead(parent: Path, head: Line, cur: Path)
    requires |head.groups| == |parent| && parent <= cur
    ensures Decode(cur, [head]) == [Entry(parent + [head.name], head.dir)]
            && Cursor(cur, [head]) == parent + [head.name]
  {
    assert Upto(cur, |parent|) == parent;
    assert Decode(parent + [head.name], []) == [] && Cursor(parent + [head.name], []) == parent + [head.name];
  }

  lemma {:induction false} DecodeEmit(t: Tree, parent: Path, groups: seq<bool>, names: seq<string>, d: nat, cur: Path)
    requires Shallow(t, |parent| + d + 1) && |groups| == |parent| && parent <= cur
    ensures Decode(cur, Emit(t, parent, groups, names, d)) == Walk(t, parent, names, d)
    ensures parent <= Cursor(cur, Emit(t, parent, groups, names, d))
    decreases d, 1, |names|
  {
    if names != [] {
      hide EmitChild, WalkChild, Shallow;
      var first := EmitChild(t, parent, groups, names[0], |names| == 1, d);
      DecodeChild(t, parent, groups, names[0], |names| == 1, d, cur);
      DecodeEmit(t, parent, groups, names[1..], d, Cursor(cur, first));
      DecodeOver(cur, first, Emit(t, parent, groups, names[1..], d));
    }
  }

  // ---------------------------------------------------------------- what the listing holds

  /** Path order: segment by segment, a path before its extensions. */
  predicate Before(a: Path, b: Path) {
    b != [] && (a == [] || Less(a[0], b[0]) || (a[0] == b[0] && Before(a[1..], b[1..])))
  }

  lemma {:induction false} BeforeIrreflexive(a: Path)
    ensures !Before(a, a)
  {
    if a != [] {
      LessIrreflexive(a[0]);
      BeforeIrreflexive(a[1..]);
    }
  }

  /** Paths that share a start and then part in order. */
  lemma {:induction false} BeforeWhereTheyPart(p: Path, x: Path, y: Path)
    requires p <= x && p <= y && |p| < |y| && (|x| == |p| || Less(x[|p|], y[|p|]))
    ensures Before(x, y)
  {
    if p != [] {
      assert p[0] == x[0] == y[0];
      BeforeWhereTheyPart(p[1..], x[1..], y[1..]);
    }
  }

  ghost predicate Rising(w: seq<Entry>) {
    forall i, j :: 0 <= i < j < |w| ==> Before(w[i].path, w[j].path)
  }

  ghost predicate HasPath(w: seq<Entry>, q: Path) {
    exists i :: 0 <= i < |w| && w[i].path == q
  }

  lemma HasPathOver(a: seq<Entry>, b: seq<Entry>, q: Path)
    ensures HasPath(a + b, q) <==> HasPath(a, q) || HasPath(b, q)
  {
    if HasPath(a, q) {
      var i :| 0 <= i < |a| && a[i].path == q;
      assert (a + b)[i].path == q;
    }
    if HasPath(b, q) {
      var i :| 0 <= i < |b| && b[i].path == q;
      assert (a + b)[|a| + i].path == q;
    }
  }

  predicate Node(t: Tree, q: Path) {
    q != [] && Edge(t, q[..|q| - 1], q[|q| - 1])
  }

  ghost predicate Closed(t: Tree) {
    forall k, c :: Edge(t, k, c) && k != [] ==> Node(t, k)
  }

  lemma {:induction false} NodePrefix(t: Tree, q: Path, n: nat)
    requires Closed(t) && Node(t, q) && 0 < n <= |q|
    ensures Node(t, q[..n])
    decreases |q|
  {
    if n < |q| {
      NodePrefix(t, q[..|q| - 1], n);
      assert q[..|q| - 1][..n] == q[..n];
    } else {
      assert q[..n] == q;
    }
  }

  /** A node lies behind a step out of each of its prefixes. */
  lemma StepAlong(t: Tree, q: Path, n: nat)
    requires Closed(t) && Node(t, q) && n < |q|
    ensures Edge(t, q[..n], q[n])
  {
    NodePrefix(t, q, n + 1);
    assert q[..n + 1][..n] == q[..n];
  }

  /** Everything listed lies below the parent, in one of the named branches. */
  predicate Below(parent: Path, names: seq<string>, q: Path) {
    parent <= q && |parent| < |q| && q[|parent|] in names
  }

  ghost predicate RightListing(t: Tree, parent: Path, names: seq<string>, w: seq<Entry>) {
    && Rising(w)
    && (forall q :: HasPath(w, q) <==> Below(parent, names, q) && Node(t, q))
    && (forall i :: 0 <= i < |w| ==> (w[i].dir <==> w[i].path in t))
  }

  lemma {:induction false} WalkChildLists(t: Tree, parent: Path, name: string, d: nat)
    requires Shallow(t, |parent| + d + 1) && Closed(t) && Edge(t, parent, name)
    ensures RightListing(t, parent, [name], WalkChild(t, parent, name, d))
    decreases d, 0
  {
    var child := parent + [name];
    assert child[..|child| - 1] == parent && Node(t, child);
    var head := Entry(child, child in t);
    if child in t {
      var names := ChildNames(t, child);
      assert forall x :: x in names ==> Edge(t, child, x);
      WalkLists(t, child, names, d - 1);
      HeadLists(t, parent, name, head, names, Walk(t, child, names, d - 1));
    } else {
      LeafLists(t, parent, name, head);
      assert [head] + [] == [head];
    }
  }

  lemma LeafLists(t: Tree, parent: Path, name: string, head: Entry)
    requires Closed(t) && head.path == parent + [name] && Node(t, head.path) && head.path !in t && !head.dir
    ensures RightListing(t, parent, [name], [head])
  {
    forall q ensures HasPath([head], q) <==> Below(parent, [name], q) && Node(t, q) {
      if q == head.path {
        assert [head][0].path == q;
      }
      if Below(parent, [name], q) && Node(t, q) {
        BelowSplits(parent, name, q);
        if |q| > |parent| + 1 {
          StepAlong(t, q, |parent| + 1);
        }
      }
    }
  }

  lemma BelowSplits(parent: Path, name: string, q: Path)
    requires Below(parent, [name], q)
    ensures q[..|parent| + 1] == parent + [name] && (|q| == |parent| + 1 ==> q == parent + [name])
  {
  }

  lemma HeadRises(t: Tree, head: Entry, names: seq<string>, w: seq<Entry>)
    requires RightListing(t, head.path, names, w)
    ensures Rising([head] + w)
  {
    hide Node, Before;
    forall i | 0 <= i < |w| ensures Before(head.path, w[i].path) {
      assert HasPath(w, w[i].path);
      BeforeWhereTheyPart(head.path, head.path, w[i].path);
    }
  }

  lemma HeadLists(t: Tree, parent: Path, name: string, head: Entry, names: seq<string>, w: seq<Entry>)
    requires Closed(t) && head.path == parent + [name] && Node(t, head.path) && head.dir && head.path in t
    requires forall x :: x in names <==> Edge(t, head.path, x)
    requires RightListing(t, head.path, names, w)
    ensures RightListing(t, parent, [name], [head] + w)
  {
    HeadRises(t, head, names, w);
    hide Rising, Before, Closed;
    forall q ensures HasPath([head] + w, q) <==> Below(parent, [name], q) && Node(t, q) {
      HasPathOver([head], w, q);
      HeadPaths(t, parent, name, head, names, w, q);
    }
  }

  lemma HeadPaths(t: Tree, parent: Path, name: string, head: Entry, names: seq<string>, w: seq<Entry>, q: Path)
    requires Closed(t) && head.path == parent + [name] && Node(t, head.path)
    requires forall x :: x in names <==> Edge(t, head.path, x)
    requires HasPath(w, q) <==> Below(head.path, names, q) && Node(t, q)
    ensures HasPath([head], q) || HasPath(w, q) <==> Below(parent, [name], q) && Node(t, q)
  {
    if q == head.path {
      assert [head][0].path == q;
    }
    if Below(parent, [name], q) && Node(t, q) {
      BelowSplits(parent, name, q);
      if |q| > |parent| + 1 {
        StepAlong(t, q, |parent| + 1);
      }
    }
    hide Node, Closed, Edge;
    if Below(head.path, names, q) {
      BelowHead(parent, name, head.path, names, q);
    }
  }

  lemma BelowHead(parent: Path, name: string, child: Path, names: seq<string>, q: Path)
    requires child == parent + [name] && Below(child, names, q)
    ensures Below(parent, [name], q)
  {
    assert q[..|parent|] == child[..|parent|] == parent;
    assert q[|parent|] == child[|parent|] == name;
  }

  lemma {:induction false} WalkLists(t: Tree, parent: Path, names: seq<string>, d: nat)
    requires Shallow(t, |parent| + d + 1) && Closed(t) && Ascending(names)
    requires forall x :: x in names ==> Edge(t, parent, x)
    ensures RightListing(t, parent, names, Walk(t, parent, names, d))
    decreases d, 1, |names|
  {
    if names != [] {
      var a, b := WalkChild(t, parent, names[0], d), Walk(t, parent, names[1..], d);
      WalkChildLists(t, parent, names[0], d);
      assert forall x :: x in names[1..] ==> x in names;
      WalkLists(t, parent, names[1..], d);
      hide WalkChild, Walk, Shallow, Closed;
      BranchesList(t, parent, names, a, b);
    }
  }

  lemma BranchesList(t: Tree, parent: Path, names: seq<string>, a: seq<Entry>, b: seq<Entry>)
    requires names != [] && Ascending(names)
    requires RightListing(t, parent, [names[0]], a) && RightListing(t, parent, names[1..], b)
    ensures RightListing(t, parent, names, a + b)
  {
    forall i, j | 0 <= i < |a| && 0 <= j < |b| ensures Before(a[i].path, b[j].path) {
      assert HasPath(a, a[i].path) && HasPath(b, b[j].path);
      assert Less(names[0], b[j].path[|parent|]);
      BeforeWhereTheyPart(parent, a[i].path, b[j].path);
    }
    forall q ensures HasPath(a + b, q) <==> Below(parent, names, q) && Node(t, q) {
      HasPathOver(a, b, q);
      if parent <= q && |parent| < |q| {
        assert q[|parent|] in names <==> q[|parent|] in [names[0]] || q[|parent|] in names[1..];
      }
    }
  }

  // ---------------------------------------------------------------- the whole tree

  function Longest(paths: seq<Path>): nat {
    if paths == [] then 0
    else
      var n, m := Longest(paths[..|paths| - 1]), |paths[|paths| - 1]|;
      if n < m then m else n
  }

  lemma {:induction false} LongestBounds(paths: seq<Path>)
    ensures forall i :: 0 <= i < |paths| ==> |paths[i]| <= Longest(paths)
  {
    if paths != [] {
      LongestBounds(paths[..|paths| - 1]);
    }
  }

  /** The tree's nodes are the prefixes of the paths, and its keys the proper ones. */
  lemma BuildShape(paths: seq<Path>)
    ensures Shallow(Build(paths), Longest(paths) + 1) && Closed(Build(paths))
    ensures forall q :: Node(Build(paths), q) <==> Listed(paths, q)
    ensures forall q :: q in Build(paths) <==> ProperPrefix(paths, q)
  {
    var t := Build(paths);
    BuildEdges(paths);
    hide Build, Listed, Edge;
    forall q ensures Node(t, q) <==> Listed(paths, q) {
      NodeIsListed(paths, t, q);
    }
    forall k, c | Edge(t, k, c) && k != [] ensures Node(t, k) {
      ListedShorter(paths, k, c);
    }
    forall q ensures q in t <==> ProperPrefix(paths, q) {
      KeyIsProperPrefix(paths, t, q);
    }
    LongestBounds(paths);
  }

  ghost predicate ProperPrefix(paths: seq<Path>, q: Path) {
    exists i :: 0 <= i < |paths| && q < paths[i]
  }

  lemma NodeIsListed(paths: seq<Path>, t: Tree, q: Path)
    requires forall k, c :: Edge(t, k, c) <==> Listed(paths, k + [c])
    ensures Node(t, q) <==> Listed(paths, q)
  {
    if q != [] {
      assert q[..|q| - 1] + [q[|q| - 1]] == q;
    }
  }

  lemma ListedShorter(paths: seq<Path>, k: Path, c: string)
    requires Listed(paths, k + [c])
    ensures k != [] ==> Listed(paths, k)
  {
    var i :| 0 <= i < |paths| && k + [c] <= paths[i];
    assert k <= k + [c];
  }

  lemma KeyIsProperPrefix(paths: seq<Path>, t: Tree, q: Path)
    requires NonEmptySets(t) && forall c :: Edge(t, q, c) <==> Listed(paths, q + [c])
    ensures q in t <==> ProperPrefix(paths, q)
  {
    if q in t {
      var c :| c in t[q];
      assert Edge(t, q, c);
      var i :| 0 <= i < |paths| && q + [c] <= paths[i];
      assert q < q + [c];
    }
    if ProperPrefix(paths, q) {
      var i :| 0 <= i < |paths| && q < paths[i];
      assert paths[i][..|q| + 1] == q + [paths[i][|q|]];
      assert q + [paths[i][|q|]] <= paths[i];
      assert Edge(t, q, paths[i][|q|]);
    }
  }

  ghost function Lines(paths: seq<Path>): seq<Line>
    requires Shallow(Build(paths), Longest(paths) + 1)
  {
    Emit(Build(paths), [], [], ChildNames(Build(paths), []), Longest(paths))
  }

  /** What a reader makes of the printed lines. */
  ghost predicate ReadsBack(paths: seq<Path>, w: seq<Entry>) {
    && Rising(w)
    && (forall q :: HasPath(w, q) <==> Listed(paths, q))
    && (forall i :: 0 <= i < |w| ==> (w[i].dir <==> ProperPrefix(paths, w[i].path)))
  }

  /** The tree reads back as the sorted list of all path prefixes, with the directories among them. */
  lemma LinesReadBack(paths: seq<Path>)
    ensures Shallow(Build(paths), Longest(paths) + 1) && ReadsBack(paths, Decode([], Lines(paths)))
  {
    var t := Build(paths);
    var names := ChildNames(t, []);
    BuildShape(paths);
    assert forall x :: x in names ==> Edge(t, [], x);
    DecodeEmit(t, [], [], names, Longest(paths), []);
    WalkLists(t, [], names, Longest(paths));
    hide Walk, Emit, Build, Shallow, Rising;
    WholeListing(paths, t, names, Walk(t, [], names, Longest(paths)));
  }

  lemma WholeListing(paths: seq<Path>, t: Tree, names: seq<string>, w: seq<Entry>)
    requires Closed(t) && RightListing(t, [], names, w) && names == ChildNames(t, [])
    requires forall q :: Node(t, q) <==> Listed(paths, q)
    requires forall q :: q in t <==> ProperPrefix(paths, q)
    ensures ReadsBack(paths, w)
  {
    hide Rising, Listed, ProperPrefix;
    forall q | Node(t, q) ensures Below([], names, q) {
      StepAlong(t, q, 0);
    }
  }
}
