/** How the lines of a path tree are drawn: indents and connectors of `_build_path_tree` in
    agentflow/agents/answer/agent.py, seen from the lines alone. */
module PathTreeDrawing {

  import opened NameOrder
  import opened PathTrees
  import opened Options

  // ---------------------------------------------------------------- one line

  /** Four characters for every ancestor, four for the line's own place among its siblings, then the name,
      with a slash behind a directory. */
  lemma {:induction false} LineIs(l: Line)
    ensures var s, n := Render(l), |l.groups|;
            && |s| == 4 * n + 4 + |l.name| + (if l.dir then 1 else 0)
            && (forall i: nat :: i < n ==> s[4 * i..4 * i + 4] == if l.groups[i] then "    " else "│   ")
            && s[4 * n..4 * n + 4] == (if l.last then "└── " else "├── ")
            && s[4 * n + 4..] == l.name + if l.dir then "/" else ""
  {
    GroupsAre(l.groups);
    var g, c := Groups(l.groups), if l.last then "└── " else "├── ";
    var rest := l.name + if l.dir then "/" else "";
    hide Groups, IndentAt;
    assert Render(l) == g + c + rest;
    hide Render;
    var s, n := Render(l), |l.groups|;
    Parts(g, c, rest);
    forall i: nat | i < n ensures s[4 * i..4 * i + 4] == if l.groups[i] then "    " else "│   " {
      IndentShows(g, c + rest, l.groups, i);
      assert g + (c + rest) == s;
    }
  }

  lemma Parts(g: string, c: string, rest: string)
    ensures var s, n := g + c + rest, |g|;
            s[n..n + |c|] == c && s[n + |c|..] == rest
  {
  }

  lemma IndentShows(g: string, rest: string, groups: seq<bool>, i: nat)
    requires i < |groups| && IndentAt(g, groups, i)
    ensures 4 * i + 4 <= |g| && (g + rest)[4 * i..4 * i + 4] == if groups[i] then "    " else "│   "
  {
    assert (g + rest)[4 * i..4 * i + 4] == g[4 * i..4 * i + 4];
  }

  /** Characters 4 i to 4 i + 3 are the indent of ancestor `i`. */
  predicate IndentAt(s: string, groups: seq<bool>, i: nat)
    requires i < |groups|
  {
    4 * i + 4 <= |s| && s[4 * i..4 * i + 4] == if groups[i] then "    " else "│   "
  }

  lemma GroupsUnfold(groups: seq<bool>)
    requires groups != []
    ensures var n := |groups| - 1;
            Groups(groups) == Groups(groups[..n]) + if groups[n] then "    " else "│   "
  {
  }

  lemma IndentOfFront(a: string, b: string, groups: seq<bool>, i: nat)
    requires i < |groups| - 1 && IndentAt(a, groups[..|groups| - 1], i)
    ensures IndentAt(a + b, groups, i)
  {
    assert (a + b)[4 * i..4 * i + 4] == a[4 * i..4 * i + 4];
  }

  lemma IndentOfLast(a: string, groups: seq<bool>)
    requires groups != [] && |a| == 4 * (|groups| - 1)
    ensures IndentAt(a + if groups[|groups| - 1] then "    " else "│   ", groups, |groups| - 1)
  {
    var b := if groups[|groups| - 1] then "    " else "│   ";
    assert (a + b)[|a|..|a| + 4] == b;
  }

  lemma {:induction false} GroupsAre(groups: seq<bool>)
    ensures |Groups(groups)| == 4 * |groups|
    ensures forall i: nat :: i < |groups| ==> IndentAt(Groups(groups), groups, i)
  {
    if groups != [] {
      hide *;
      var n := |groups| - 1;
      GroupsAre(groups[..n]);
      GroupsUnfold(groups);
      IndentOfLast(Groups(groups[..n]), groups);
      forall i: nat | i < n ensures IndentAt(Groups(groups), groups, i) {
        IndentOfFront(Groups(groups[..n]), if groups[n] then "    " else "│   ", groups, i);
      }
    }
  }

  // ---------------------------------------------------------------- all lines

  /** A later line stands beside line `i`, with nothing shallower in between. */
  ghost predicate Beside(ls: seq<Line>, i: nat, j: nat) {
    && i < j < |ls| && |ls[j].groups| == |ls[i].groups|
    && forall k :: i < k < j ==> |ls[k].groups| >= |ls[i].groups|
  }

  /** No sibling of line `i` comes. */
  ghost predicate Lonely(ls: seq<Line>, i: nat) {
    forall j: nat :: !Beside(ls, i, j)
  }

  /** Line `a` is the ancestor of line `i` at depth `e`: the nearest line before it that is no deeper. */
  ghost predicate AncestorAt(ls: seq<Line>, i: nat, e: nat, a: nat) {
    && a < i < |ls| && |ls[a].groups| == e
    && forall k :: a < k < i ==> |ls[k].groups| > e
  }

  /** The corner is drawn exactly for the last of its siblings. */
  ghost predicate CornersRight(ls: seq<Line>) {
    forall i: nat :: i < |ls| ==> (ls[i].last <==> Lonely(ls, i))
  }

  /** At depth `e` line `i` carries a bar exactly if more siblings of its ancestor there come. */
  ghost predicate BarRight(ls: seq<Line>, i: nat, e: nat) {
    i < |ls| && e < |ls[i].groups| && exists a: nat :: AncestorAt(ls, i, e, a) && ls[i].groups[e] == ls[a].last
  }

  /** From depth `d` on, a bar is drawn below an ancestor exactly if more of its siblings come. */
  ghost predicate BarsRight(ls: seq<Line>, d: nat) {
    forall i: nat, e: nat :: i < |ls| && d <= e < |ls[i].groups| ==> BarRight(ls, i, e)
  }

  /** These are lines below `groups`, the first of them directly, drawn right. */
  ghost predicate Drawn(ls: seq<Line>, groups: seq<bool>) {
    && (forall i :: 0 <= i < |ls| ==> groups <= ls[i].groups)
    && (ls != [] ==> ls[0].groups == groups)
    && CornersRight(ls) && BarsRight(ls, |groups|)
  }

  /** The lines below a head, as lines of the whole. */
  lemma BelowHead(head: Line, below: seq<Line>)
    requires Drawn(below, head.groups + [head.last])
    ensures var ls := [head] + below;
            forall i :: 1 <= i < |ls| ==>
              && ls[i] == below[i - 1] && head.groups + [head.last] <= ls[i].groups
              && |ls[i].groups| > |head.groups| && (ls[i].last <==> Lonely(below, i - 1))
    ensures BarsRight(below, |head.groups| + 1) && ([head] + below)[0] == head
    ensures forall k :: 0 <= k < |below| ==> head.groups + [head.last] <= below[k].groups
  {
    hide Lonely, BarsRight;
    var ls := [head] + below;
    assert forall i :: 1 <= i < |ls| ==> ls[i] == below[i - 1];
  }

  lemma HeadIsLonely(head: Line, below: seq<Line>)
    requires forall i :: 1 <= i < |[head] + below| ==> |([head] + below)[i].groups| > |head.groups|
    ensures Lonely([head] + below, 0)
  {
  }

  /** Deeper lines under a head. */
  lemma DrawnChild(head: Line, below: seq<Line>)
    requires Drawn(below, head.groups + [head.last])
    ensures var ls := [head] + below;
            && (forall i :: 1 <= i < |ls| ==> head.groups + [head.last] <= ls[i].groups)
            && (forall i: nat :: 1 <= i < |ls| ==> (ls[i].last <==> Lonely(ls, i)))
            && Lonely(ls, 0)
            && BarsRight(ls, |head.groups|)
  {
    hide *;
    var ls := [head] + below;
    BelowHead(head, below);
    HeadIsLonely(head, below);
    forall i: nat | 1 <= i < |ls| ensures ls[i].last <==> Lonely(ls, i) {
      ShiftLonely([head], below, i - 1);
    }
    ShiftBars(head, below);
  }

  lemma ShiftBeside(front: seq<Line>, ls: seq<Line>, i: nat, j: nat)
    requires i < |ls|
    ensures Beside(front + ls, |front| + i, j) <==> j >= |front| && Beside(ls, i, j - |front|)
  {
    var all := front + ls;
    assert forall k :: 0 <= k < |ls| ==> all[|front| + k] == ls[k];
    if j >= |front| && Beside(ls, i, j - |front|) {
      assert forall k :: |front| + i < k < j ==> all[k] == ls[k - |front|];
    }
    if Beside(all, |front| + i, j) {
      assert forall k :: i < k < j - |front| ==> ls[k] == all[|front| + k];
    }
  }

  lemma ShiftLonely(front: seq<Line>, ls: seq<Line>, i: nat)
    requires i < |ls|
    ensures Lonely(front + ls, |front| + i) <==> Lonely(ls, i)
  {
    var n, all := |front| + i, front + ls;
    if j: nat :| Beside(ls, i, j) {
      ShiftBeside(front, ls, i, |front| + j);
      assert Beside(all, n, |front| + j);
    }
    if j: nat :| Beside(all, n, j) {
      ShiftBeside(front, ls, i, j);
      assert Beside(ls, i, j - |front|);
    }
  }

  lemma ShiftAncestor(front: seq<Line>, ls: seq<Line>, i: nat, e: nat, a: nat)
    requires AncestorAt(ls, i, e, a)
    ensures AncestorAt(front + ls, |front| + i, e, |front| + a)
  {
    var all := front + ls;
    assert forall k :: |front| + a < k < |front| + i ==> all[k] == ls[k - |front|];
  }

  lemma ShiftBar(front: seq<Line>, ls: seq<Line>, i: nat, e: nat)
    requires BarRight(ls, i, e)
    ensures BarRight(front + ls, |front| + i, e)
  {
    var all := front + ls;
    var a: nat :| AncestorAt(ls, i, e, a) && ls[i].groups[e] == ls[a].last;
    ShiftAncestor(front, ls, i, e, a);
    assert all[|front| + i] == ls[i] && all[|front| + a] == ls[a];
  }

  lemma ExtendBar(x: seq<Line>, y: seq<Line>, i: nat, e: nat)
    requires BarRight(x, i, e)
    ensures BarRight(x + y, i, e)
  {
    var ls := x + y;
    assert forall k :: 0 <= k < |x| ==> ls[k] == x[k];
    var a: nat :| AncestorAt(x, i, e, a) && x[i].groups[e] == x[a].last;
    assert AncestorAt(ls, i, e, a);
  }

  lemma HeadBar(head: Line, below: seq<Line>, i: nat)
    requires 1 <= i <= |below| && forall k :: 0 <= k < |below| ==> head.groups + [head.last] <= below[k].groups
    ensures BarRight([head] + below, i, |head.groups|)
  {
    var ls, d := [head] + below, |head.groups|;
    assert forall k :: 1 <= k < |ls| ==> ls[k] == below[k - 1];
    assert below[i - 1].groups[d] == (head.groups + [head.last])[d];
    assert AncestorAt(ls, i, d, 0);
  }

  lemma ShiftBars(head: Line, below: seq<Line>)
    requires Drawn(below, head.groups + [head.last])
    ensures BarsRight([head] + below, |head.groups|)
  {
    var ls, d := [head] + below, |head.groups|;
    BelowHead(head, below);
    hide BarRight, CornersRight, Drawn, Lonely;
    forall i: nat, e: nat | i < |ls| && d <= e < |ls[i].groups| ensures BarRight(ls, i, e) {
      assert i > 0;
      if e == d {
        HeadBar(head, below, i);
      } else {
        ShiftBar([head], below, i - 1, e);
      }
    }
  }

  /** A child's lines and those of its later siblings. */
  lemma DrawnTogether(x: seq<Line>, y: seq<Line>, groups: seq<bool>)
    requires x != [] && x[0].groups == groups && (x[0].last <==> y == []) && Drawn(y, groups)
    requires forall i :: 1 <= i < |x| ==> groups <= x[i].groups && |x[i].groups| > |groups|
    requires forall i: nat :: 1 <= i < |x| ==> (x[i].last <==> Lonely(x, i))
    requires BarsRight(x, |groups|)
    ensures Drawn(x + y, groups)
  {
    hide CornersRight, BarsRight, Lonely;
    CornersTogether(x, y, groups);
    BarsTogether(x, y, groups);
    var ls := x + y;
    assert ls[0] == x[0];
    forall i | 0 <= i < |ls| ensures groups <= ls[i].groups {
      assert ls[i] == if i < |x| then x[i] else y[i - |x|];
    }
  }

  lemma TailCorner(x: seq<Line>, y: seq<Line>, groups: seq<bool>, i: nat)
    requires Drawn(y, groups) && i < |y|
    ensures (x + y)[|x| + i] == y[i] && (y[i].last <==> Lonely(x + y, |x| + i))
  {
    hide BarsRight, Lonely;
    ShiftLonely(x, y, i);
  }

  lemma CornersTogether(x: seq<Line>, y: seq<Line>, groups: seq<bool>)
    requires x != [] && x[0].groups == groups && (x[0].last <==> y == []) && Drawn(y, groups)
    requires forall i :: 1 <= i < |x| ==> groups <= x[i].groups && |x[i].groups| > |groups|
    requires forall i: nat :: 1 <= i < |x| ==> (x[i].last <==> Lonely(x, i))
    ensures CornersRight(x + y)
  {
    hide Lonely, Drawn;
    var ls := x + y;
    forall i: nat | i < |ls| ensures ls[i].last <==> Lonely(ls, i) {
      if i == 0 {
        HeadCorner(x, y, groups);
      } else if i < |x| {
        InnerCorner(x, y, groups, i);
      } else {
        TailCorner(x, y, groups, i - |x|);
      }
    }
  }

  lemma HeadCorner(x: seq<Line>, y: seq<Line>, groups: seq<bool>)
    requires x != [] && x[0].groups == groups && (x[0].last <==> y == []) && Drawn(y, groups)
    requires forall i :: 1 <= i < |x| ==> groups <= x[i].groups && |x[i].groups| > |groups|
    ensures x[0].last <==> Lonely(x + y, 0)
  {
    var ls := x + y;
    assert forall i :: 0 <= i < |x| ==> ls[i] == x[i];
    if y != [] {
      assert ls[|x|] == y[0];
      assert Beside(ls, 0, |x|);
    } else {
      assert ls == x;
    }
  }

  lemma InnerCorner(x: seq<Line>, y: seq<Line>, groups: seq<bool>, i: nat)
    requires 1 <= i < |x| && Drawn(y, groups) && |x[i].groups| > |groups|
    ensures Lonely(x + y, i) <==> Lonely(x, i)
  {
    var ls := x + y;
    assert forall k :: 0 <= k < |x| ==> ls[k] == x[k];
    assert y != [] ==> ls[|x|] == y[0];
    if j: nat :| Beside(x, i, j) {
      assert Beside(ls, i, j);
    }
    if j: nat :| Beside(ls, i, j) {
      assert j < |x|;
      assert Beside(x, i, j);
    }
  }

  lemma BarsTogether(x: seq<Line>, y: seq<Line>, groups: seq<bool>)
    requires BarsRight(x, |groups|) && BarsRight(y, |groups|)
    ensures BarsRight(x + y, |groups|)
  {
    var ls := x + y;
    hide BarRight;
    forall i: nat, e: nat | i < |ls| && |groups| <= e < |ls[i].groups| ensures BarRight(ls, i, e) {
      if i < |x| {
        assert ls[i] == x[i];
        ExtendBar(x, y, i, e);
      } else {
        assert ls[i] == y[i - |x|];
        ShiftBar(x, y, i - |x|, e);
      }
    }
  }

  lemma {:induction false} EmitIsDrawn(t: Tree, parent: Path, groups: seq<bool>, names: seq<string>, d: nat)
    requires Shallow(t, |parent| + d + 1) && forall x :: x in names ==> Edge(t, parent, x)
    ensures Drawn(Emit(t, parent, groups, names, d), groups)
    ensures Emit(t, parent, groups, names, d) == [] <==> names == []
    decreases d, |names|
  {
    hide Drawn;
    if names != [] {
      var name, last, child := names[0], |names| == 1, parent + [names[0]];
      assert name in names;
      var head := Line(groups, last, name, child in t);
      var below := if child in t then Emit(t, child, groups + [last], ChildNames(t, child), d - 1) else [];
      EmitIsDrawn(t, parent, groups, names[1..], d);
      if child in t {
        ChildrenAreEdges(t, child);
        EmitIsDrawn(t, child, groups + [last], ChildNames(t, child), d - 1);
      }
      assert Emit(t, parent, groups, names, d) == ([head] + below) + Emit(t, parent, groups, names[1..], d);
      hide *;
      NothingDrawn(groups + [last]);
      Assembled(head, below, Emit(t, parent, groups, names[1..], d));
    } else {
      NothingDrawn(groups);
    }
  }

  lemma Assembled(head: Line, below: seq<Line>, rest: seq<Line>)
    requires Drawn(below, head.groups + [head.last]) && Drawn(rest, head.groups) && (head.last <==> rest == [])
    ensures Drawn(([head] + below) + rest, head.groups)
  {
    DrawnChild(head, below);
    hide BarsRight, CornersRight;
    assert forall i :: 1 <= i < |[head] + below| ==> |([head] + below)[i].groups| > |head.groups|;
    DrawnTogether([head] + below, rest, head.groups);
  }

  lemma NothingDrawn(groups: seq<bool>)
    ensures Drawn([], groups)
  {
  }

  lemma ChildrenAreEdges(t: Tree, parent: Path)
    ensures forall x :: x in ChildNames(t, parent) ==> Edge(t, parent, x)
  {
  }

  /** Main result: over the whole tree the corner is drawn exactly for the last of its siblings, and a bar
      exactly below an ancestor with more siblings to come. */
  lemma TreeIsDrawn(paths: seq<Path>)
    ensures Shallow(Build(paths), Longest(paths) + 1)
    ensures CornersRight(Lines(paths)) && BarsRight(Lines(paths), 0)
  {
    LinesReadBack(paths);
    var t := Build(paths);
    ChildrenAreEdges(t, []);
    EmitIsDrawn(t, [], [], ChildNames(t, []), Longest(paths));
    hide Build, Emit, Shallow, CornersRight, BarsRight, ReadsBack;
  }
}
