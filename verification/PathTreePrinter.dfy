/** `_build_path_tree` as written: raw strings in, a dictionary keyed by joined paths, strings out. */
module PathTreePrinters {

  import opened NameOrder
  import opened PathTrees
  import opened Options

  // ---------------------------------------------------------------- from strings

  function Slashes(s: string): (r: string)
    ensures |r| == |s| && forall i :: 0 <= i < |r| ==> r[i] == if s[i] == '\\' then '/' else s[i]
  {
    seq(|s|, i requires 0 <= i < |s| => if s[i] == '\\' then '/' else s[i])
  }

  function StripSlashes(s: string): (r: string)
    ensures r != "" ==> r[0] != '/' && r[|r| - 1] != '/'
  {
    if s != [] && s[0] == '/' then StripSlashes(s[1..])
    else if s != [] && s[|s| - 1] == '/' then StripSlashes(s[..|s| - 1])
    else s
  }

  function Split(s: string): (r: seq<string>)
    ensures r != [] && forall i :: 0 <= i < |r| ==> '/' !in r[i]
  {
    if s == [] then [""]
    else
      var r := Split(s[1..]);
      if s[0] == '/' then [""] + r else [[s[0]] + r[0]] + r[1..]
  }

  function Join(p: Path): string {
    if p == [] then "" else if |p| == 1 then p[0] else p[0] + "/" + Join(p[1..])
  }

  /** `p.replace("\\", "/").strip("/").split("/")`. */
  function Parts(raw: string): (r: Path)
    ensures r != [] && forall i :: 0 <= i < |r| ==> '/' !in r[i]
  {
    Split(StripSlashes(Slashes(raw)))
  }

  /** The path is more than slashes. */
  predicate Rooted(raw: string) {
    StripSlashes(Slashes(raw)) != ""
  }

  function AllParts(raw: seq<string>): (r: seq<Path>)
    ensures |r| == |raw| && forall i :: 0 <= i < |r| ==> r[i] == Parts(raw[i])
  {
    seq(|raw|, i requires 0 <= i < |raw| => Parts(raw[i]))
  }

  /** The dictionary key of a child, `f"{parent}/{child}" if parent else child`. */
  function ChildKey(parent: string, name: string): string {
    if parent != "" then parent + "/" + name else name
  }

  /** A path that begins with a name, or the root. */
  predicate Keyed(p: Path) {
    (p != [] ==> p[0] != "") && forall i :: 0 <= i < |p| ==> '/' !in p[i]
  }

  lemma {:induction false} SplitWord(w: string)
    requires '/' !in w
    ensures Split(w) == [w]
  {
    if w != [] {
      SplitWord(w[1..]);
      assert w == [w[0]] + w[1..];
    }
  }

  lemma {:induction false} SplitFirst(w: string, rest: string)
    requires '/' !in w
    ensures Split(w + "/" + rest) == [w] + Split(rest)
  {
    var s := w + "/" + rest;
    if w == [] {
      assert s[1..] == rest;
    } else {
      SplitFirst(w[1..], rest);
      assert s[1..] == w[1..] + "/" + rest;
      assert w == [w[0]] + w[1..];
    }
  }

  /** Splitting undoes joining. */
  lemma {:induction false} SplitJoin(p: Path)
    requires p != [] && forall i :: 0 <= i < |p| ==> '/' !in p[i]
    ensures Split(Join(p)) == p
  {
    if |p| == 1 {
      SplitWord(p[0]);
    } else {
      SplitJoin(p[1..]);
      SplitFirst(p[0], Join(p[1..]));
    }
  }

  lemma {:induction false} JoinNonEmpty(p: Path)
    requires p != [] && p[0] != ""
    ensures Join(p) != ""
  {
  }

  /** Keying by joined strings loses nothing, and the child key is the child's joined path. */
  lemma KeysAreFaithful(a: Path, b: Path, name: string)
    requires Keyed(a) && Keyed(b)
    ensures Join(a) == Join(b) ==> a == b
    ensures ChildKey(Join(a), name) == Join(a + [name])
  {
    if a != [] { JoinNonEmpty(a); SplitJoin(a); }
    if b != [] { JoinNonEmpty(b); SplitJoin(b); }
    JoinSnoc(a, name);
  }

  lemma {:induction false} JoinSnoc(a: Path, name: string)
    requires a != [] ==> a[0] != ""
    ensures a == [] ==> Join(a + [name]) == name
    ensures a != [] ==> Join(a + [name]) == Join(a) + "/" + name
  {
    if |a| > 1 {
      JoinSnocAny(a[1..], name);
      assert (a + [name])[1..] == a[1..] + [name];
    } else if |a| == 1 {
      assert (a + [name])[1..] == [name];
    }
  }

  lemma {:induction false} JoinSnocAny(a: Path, name: string)
    requires a != []
    ensures Join(a + [name]) == Join(a) + "/" + name
  {
    if |a| > 1 {
      JoinSnocAny(a[1..], name);
      assert (a + [name])[1..] == a[1..] + [name];
    } else {
      assert (a + [name])[1..] == [name];
    }
  }

  /** A path without a name to begin with is one of slashes only. */
  lemma UnrootedIff(raw: string)
    ensures Parts(raw)[0] == "" <==> !Rooted(raw)
  {
    var s := StripSlashes(Slashes(raw));
    if s != "" {
      assert Split(s)[0] != "";
    }
  }

  // ---------------------------------------------------------------- the dictionary the source fills

  type Dictionary = map<string, set<string>>

  /** `tree.setdefault(key, set()).add(name)`. */
  function SetDefaultAdd(dict: Dictionary, key: string, name: string): Dictionary {
    dict[key := (if key in dict then dict[key] else {}) + {name}]
  }

  function FillParts(dict: Dictionary, p: Path, n: nat): Dictionary
    requires n <= |p|
  {
    if n == 0 then dict else SetDefaultAdd(FillParts(dict, p, n - 1), Join(p[..n - 1]), p[n - 1])
  }

  /** The dictionary of any list of paths. */
  function Fill(paths: seq<Path>): Dictionary {
    if paths == [] then map[] else FillParts(Fill(paths[..|paths| - 1]), paths[|paths| - 1], |paths[|paths| - 1]|)
  }

  /** The loops that fill it. */
  method BuildTree(paths: seq<Path>) returns (tree: Dictionary)
    ensures tree == Fill(paths)
  {
    tree := map[];
    for i := 0 to |paths|
      invariant tree == Fill(paths[..i])
    {
      var parts := paths[i];
      ghost var before := tree;
      for n := 0 to |parts|
        invariant tree == FillParts(before, parts, n)
      {
        var parent := Join(parts[..n]);
        if parent !in tree {
          tree := tree[parent := {}];
        }
        tree := tree[parent := tree[parent] + {parts[n]}];
      }
      assert paths[..i + 1][..i] == paths[..i];
    }
    assert paths[..|paths|] == paths;
  }

  /** The dictionary holds the tree under joined keys. */
  ghost predicate Mirrors(dict: Dictionary, t: Tree) {
    && (forall k :: k in t ==> Keyed(k) && Join(k) in dict && dict[Join(k)] == t[k])
    && (forall key :: key in dict ==> exists k :: k in t && Join(k) == key)
  }

  lemma MirrorsLookup(dict: Dictionary, t: Tree, q: Path)
    requires Mirrors(dict, t) && Keyed(q)
    ensures Join(q) in dict <==> q in t
  {
    if Join(q) in dict {
      var k :| k in t && Join(k) == Join(q);
      KeysAreFaithful(k, q, "");
    }
  }

  lemma MirrorsAdd(dict: Dictionary, t: Tree, k: Path, names: set<string>)
    requires Mirrors(dict, t) && Keyed(k)
    ensures Mirrors(dict[Join(k) := names], t[k := names])
  {
    hide Join;
    var d, u := dict[Join(k) := names], t[k := names];
    forall q | q in u ensures Keyed(q) && Join(q) in d && d[Join(q)] == u[q] {
      KeysAreFaithful(k, q, "");
    }
    forall key | key in d ensures exists q :: q in u && Join(q) == key {
      if key == Join(k) {
        assert k in u;
      } else {
        var q :| q in t && Join(q) == key;
        assert q in u;
      }
    }
  }

  ghost predicate AllKeyed(paths: seq<Path>) {
    forall i :: 0 <= i < |paths| ==> Keyed(paths[i])
  }

  lemma {:induction false} FillPartsMirrors(dict: Dictionary, t: Tree, p: Path, n: nat)
    requires Mirrors(dict, t) && Keyed(p) && n <= |p|
    ensures Mirrors(FillParts(dict, p, n), AddParts(t, p, n))
  {
    if n > 0 {
      hide Join, Mirrors;
      var d, u := FillParts(dict, p, n - 1), AddParts(t, p, n - 1);
      FillPartsMirrors(dict, t, p, n - 1);
      SameNames(d, u, p[..n - 1]);
      var names := if p[..n - 1] in u then u[p[..n - 1]] else {};
      MirrorsAdd(d, u, p[..n - 1], names + {p[n - 1]});
    }
  }

  /** Where every path begins with a name, the dictionary keyed by joined strings holds the tree. */
  lemma {:induction false} FillMirrors(paths: seq<Path>)
    requires AllKeyed(paths)
    ensures Mirrors(Fill(paths), Build(paths))
  {
    if paths == [] {
      NothingMirrored();
    } else {
      hide Mirrors, Keyed;
      var front, p := paths[..|paths| - 1], paths[|paths| - 1];
      FillMirrors(front);
      assert Keyed(p);
      FillPartsMirrors(Fill(front), Build(front), p, |p|);
    }
  }

  lemma NothingMirrored()
    ensures Mirrors(map[], map[])
  {
  }

  lemma SameNames(dict: Dictionary, t: Tree, q: Path)
    requires Mirrors(dict, t) && Keyed(q)
    ensures Join(q) in dict <==> q in t
    ensures q in t ==> dict[Join(q)] == t[q]
  {
    MirrorsLookup(dict, t, q);
  }

  /** Every step of the tree leads to a path that begins with a name. */
  ghost predicate KeyedSteps(t: Tree) {
    forall k, c :: Edge(t, k, c) ==> Keyed(k + [c])
  }

  lemma BuildKeyedSteps(paths: seq<Path>)
    requires AllKeyed(paths)
    ensures KeyedSteps(Build(paths))
  {
    BuildEdges(paths);
    hide Build;
    forall k, c | Edge(Build(paths), k, c) ensures Keyed(k + [c]) {
      assert Listed(paths, k + [c]);
      var i :| 0 <= i < |paths| && k + [c] <= paths[i];
      assert Keyed(paths[i]);
    }
  }

  /** `_emit`. */
  method EmitChildren(tree: Dictionary, parent: string, prefix: string, ghost t: Tree, ghost path: Path,
                      ghost groups: seq<bool>, ghost d: nat)
    returns (result: seq<string>)
    requires Mirrors(tree, t) && KeyedSteps(t) && Shallow(t, |path| + d + 1)
    requires Keyed(path) && parent == Join(path) && prefix == Groups(groups)
    ensures result == RenderAll(Emit(t, path, groups, ChildNames(t, path), d))
    decreases d, 1
  {
    hide *;
    result := [];
    var children := ChildNamesOf(tree, parent, t, path);
    ghost var all := RenderAll(Emit(t, path, groups, children, d));
    assert children[0..] == children;
    var i := 0;
    while i < |children|
      invariant i <= |children|
      invariant result + RenderAll(Emit(t, path, groups, children[i..], d)) == all
    {
      assert children[i] in children;
      var lines := EmitOne(tree, parent, prefix, children[i], i == |children| - 1, t, path, groups, d);
      RenderStep(t, path, groups, children, i, d);
      result := result + lines;
      i := i + 1;
    }
    RenderEnd(t, path, groups, children, d);
  }

  /** `sorted(tree.get(parent, set()))`. */
  method ChildNamesOf(tree: Dictionary, parent: string, ghost t: Tree, ghost path: Path) returns (names: seq<string>)
    requires Mirrors(tree, t) && Keyed(path) && parent == Join(path)
    ensures names == ChildNames(t, path)
    ensures forall x :: x in names ==> Edge(t, path, x)
  {
    SameNames(tree, t, path);
    names := SortNames(if parent in tree then tree[parent] else {});
  }

  /** The body of the loop in `_emit`. */
  method EmitOne(tree: Dictionary, parent: string, prefix: string, name: string, isLast: bool,
                 ghost t: Tree, ghost path: Path, ghost groups: seq<bool>, ghost d: nat)
    returns (result: seq<string>)
    requires Mirrors(tree, t) && KeyedSteps(t) && Shallow(t, |path| + d + 1)
    requires Keyed(path) && parent == Join(path) && prefix == Groups(groups) && Edge(t, path, name)
    ensures result == RenderAll(EmitChild(t, path, groups, name, isLast, d))
    decreases d, 0
  {
    hide Mirrors, Join, Groups, Emit, Parse, Edge, ChildNames;
    var childPath := ChildKey(parent, name);
    ghost var child := path + [name];
    KeysAreFaithful(path, path, name);
    MirrorsLookup(tree, t, child);
    var isDir := childPath in tree;
    result := [prefix + (if isLast then "└── " else "├── ") + name + if isDir then "/" else ""];
    ghost var head := Line(groups, isLast, name, isDir);
    assert result == RenderAll([head]);
    if isDir {
      DeeperGroups(groups, isLast);
      var indent := prefix + if isLast then "    " else "│   ";
      var below := EmitChildren(tree, childPath, indent, t, child, groups + [isLast], d - 1);
      RenderOver([head], Emit(t, child, groups + [isLast], ChildNames(t, child), d - 1));
      result := result + below;
    }
  }

  // ---------------------------------------------------------------- whether the recursion ends

  function DictNames(dict: Dictionary, key: string): (r: set<string>) {
    if key in dict then dict[key] else {}
  }

  /** `_emit` for the children `names` of `parent` that are still to be printed, allowed to call itself
      `limit` levels deep; None when that is not enough. */
  ghost function EmitWithin(dict: Dictionary, parent: string, prefix: string, names: seq<string>, limit: nat)
    : Option<seq<string>>
    decreases limit, |names|
  {
    if names == [] then Some([])
    else
      var child, last := ChildKey(parent, names[0]), |names| == 1;
      var line := prefix + (if last then "└── " else "├── ") + names[0] + if child in dict then "/" else "";
      var below :=
        if child !in dict then Some([])
        else if limit == 0 then None
        else EmitWithin(dict, child, prefix + if last then "    " else "│   ", Sorted(dict[child]), limit - 1);
      var rest := EmitWithin(dict, parent, prefix, names[1..], limit);
      if below.None? || rest.None? then None else Some([line] + below.value + rest.value)
  }

  /** The empty name is the least of all. */
  lemma EmptyNameComesFirst(names: set<string>)
    requires "" in names
    ensures Sorted(names) != [] && Sorted(names)[0] == ""
  {
    var r := Sorted(names);
    assert "" in r;
    var i :| 0 <= i < |r| && r[i] == "";
    assert i > 0 ==> Less(r[0], r[i]);
  }

  /** Where the root stands below itself, `_emit("")` begins with a call of `_emit("")`: no depth is enough. */
  lemma {:induction false} RootBelowItselfNeverEnds(dict: Dictionary, prefix: string, limit: nat)
    requires "" in dict && "" in dict[""]
    ensures EmitWithin(dict, "", prefix, Sorted(dict[""]), limit).None?
    decreases limit
  {
    var names := Sorted(dict[""]);
    EmptyNameComesFirst(dict[""]);
    if limit > 0 {
      RootBelowItselfNeverEnds(dict, prefix + if |names| == 1 then "    " else "│   ", limit - 1);
    }
  }

  /** The step from `key` to `name` is one of the first `n` of the path. */
  ghost predicate StepIn(p: Path, n: nat, key: string, name: string)
    requires n <= |p|
  {
    exists k: nat :: k < n && Join(p[..k]) == key && p[k] == name
  }

  lemma {:induction false} FillPartsSteps(dict: Dictionary, p: Path, n: nat, key: string, name: string)
    requires n <= |p|
    ensures name in DictNames(FillParts(dict, p, n), key) <==> name in DictNames(dict, key) || StepIn(p, n, key, name)
  {
    if n > 0 {
      FillPartsSteps(dict, p, n - 1, key, name);
      if Join(p[..n - 1]) == key && p[n - 1] == name {
        assert StepIn(p, n, key, name);
      }
      if StepIn(p, n - 1, key, name) {
        var k: nat :| k < n - 1 && Join(p[..k]) == key && p[k] == name;
        assert StepIn(p, n, key, name);
      }
    }
  }

  /** The only step from the root to the root is that of a path without a name. */
  lemma RootStep(p: Path)
    requires p != []
    ensures StepIn(p, |p|, "", "") <==> p[0] == ""
  {
    if p[0] == "" {
      assert Join(p[..0]) == "";
    }
    if StepIn(p, |p|, "", "") {
      var k: nat :| k < |p| && Join(p[..k]) == "" && p[k] == "";
      if k > 0 && p[0] != "" {
        JoinNonEmpty(p[..k]);
      }
    }
  }

  lemma SomeUnrooted(raw: seq<string>)
    requires raw != []
    ensures var n := |raw| - 1;
            (exists i :: 0 <= i < |raw| && !Rooted(raw[i]))
            <==> !Rooted(raw[n]) || exists i :: 0 <= i < n && !Rooted(raw[..n][i])
  {
    hide Rooted;
    var n := |raw| - 1;
    if i :| 0 <= i < n && !Rooted(raw[..n][i]) {
      assert !Rooted(raw[i]);
    }
    if i :| 0 <= i < |raw| && !Rooted(raw[i]) {
      assert i < n ==> !Rooted(raw[..n][i]);
    }
  }

  /** The dictionary puts the root below itself exactly when some path is slashes only. */
  lemma {:induction false} RootIsItsOwnChildIff(raw: seq<string>)
    ensures "" in DictNames(Fill(AllParts(raw)), "") <==> exists i :: 0 <= i < |raw| && !Rooted(raw[i])
  {
    if raw != [] {
      var n := |raw| - 1;
      RootIsItsOwnChildIff(raw[..n]);
      assert AllParts(raw)[..n] == AllParts(raw[..n]);
      FillPartsSteps(Fill(AllParts(raw[..n])), Parts(raw[n]), |Parts(raw[n])|, "", "");
      RootStep(Parts(raw[n]));
      UnrootedIff(raw[n]);
      assert Fill(AllParts(raw)) == FillParts(Fill(AllParts(raw[..n])), Parts(raw[n]), |Parts(raw[n])|);
      hide *;
      SomeUnrooted(raw);
    }
  }

  /** With depth enough for the longest path the recursion ends, and prints the lines of the tree. */
  lemma {:induction false} EmitWithinIsEmit(dict: Dictionary, t: Tree, path: Path, groups: seq<bool>,
                                            names: seq<string>, d: nat)
    requires Mirrors(dict, t) && KeyedSteps(t) && Shallow(t, |path| + d + 1)
    requires Keyed(path) && forall x :: x in names ==> Edge(t, path, x)
    ensures EmitWithin(dict, Join(path), Groups(groups), names, d) == Some(RenderAll(Emit(t, path, groups, names, d)))
    decreases d, |names|
  {
    hide *;
    if names == [] {
      NothingToEmit(dict, t, path, groups, d);
    } else {
      assert names[0] in names;
      var child, last := path + [names[0]], |names| == 1;
      EmitChildWithin(dict, t, path, groups, names[0], last, d);
      if child in t {
        EmitWithinIsEmit(dict, t, child, groups + [last], ChildNames(t, child), d - 1);
      }
      EmitWithinIsEmit(dict, t, path, groups, names[1..], d);
      EmitHead(t, path, groups, names[0], last, d);
      assert names[0..] == names;
      RenderStep(t, path, groups, names, 0, d);
      EmitWithinUnfolds(dict, Join(path), Groups(groups), names, d);
    }
  }

  lemma NothingToEmit(dict: Dictionary, t: Tree, path: Path, groups: seq<bool>, d: nat)
    requires Shallow(t, |path| + d + 1)
    ensures EmitWithin(dict, Join(path), Groups(groups), [], d) == Some(RenderAll(Emit(t, path, groups, [], d)))
  {
  }

  lemma EmitWithinUnfolds(dict: Dictionary, parent: string, prefix: string, names: seq<string>, limit: nat)
    requires names != []
    ensures var child, last := ChildKey(parent, names[0]), |names| == 1;
            var line := prefix + (if last then "└── " else "├── ") + names[0] + if child in dict then "/" else "";
            var rest := EmitWithin(dict, parent, prefix, names[1..], limit);
            && (child !in dict && rest.Some? ==>
                  EmitWithin(dict, parent, prefix, names, limit) == Some([line] + [] + rest.value))
            && (child in dict && limit > 0 ==>
                  var indent := prefix + if last then "    " else "│   ";
                  var below := EmitWithin(dict, child, indent, Sorted(dict[child]), limit - 1);
                  below.Some? && rest.Some? ==>
                    EmitWithin(dict, parent, prefix, names, limit) == Some([line] + below.value + rest.value))
  {
  }

  /** The child's key, its kind, its names and its indent, as the source computes them. */
  lemma EmitChildWithin(dict: Dictionary, t: Tree, path: Path, groups: seq<bool>, name: string, last: bool, d: nat)
    requires Mirrors(dict, t) && KeyedSteps(t) && Shallow(t, |path| + d + 1) && Keyed(path) && Edge(t, path, name)
    ensures var child := path + [name];
            && ChildKey(Join(path), name) == Join(child) && Keyed(child)
            && (Join(child) in dict <==> child in t)
            && (child in t ==> d > 0 && Sorted(dict[Join(child)]) == ChildNames(t, child)
                               && forall x :: x in ChildNames(t, child) ==> Edge(t, child, x))
            && Groups(groups + [last]) == Groups(groups) + if last then "    " else "│   "
  {
    var child := path + [name];
    assert Keyed(child);
    KeysAreFaithful(path, path, name);
    SameNames(dict, t, child);
    DeeperGroups(groups, last);
  }

  /** The lines of one child: its own, then those below it. */
  lemma EmitHead(t: Tree, path: Path, groups: seq<bool>, name: string, last: bool, d: nat)
    requires Shallow(t, |path| + d + 1)
    ensures var child := path + [name];
            var line := Groups(groups) + (if last then "└── " else "├── ") + name + if child in t then "/" else "";
            RenderAll(EmitChild(t, path, groups, name, last, d))
            == [line] + if child in t then RenderAll(Emit(t, child, groups + [last], ChildNames(t, child), d - 1))
              else []
  {
    var child := path + [name];
    var head := Line(groups, last, name, child in t);
    assert RenderAll([head]) == [Render(head)];
    if child in t {
      RenderOver([head], Emit(t, child, groups + [last], ChildNames(t, child), d - 1));
    } else {
      assert EmitChild(t, path, groups, name, last, d) == [head];
    }
  }

  /** The names `_emit("")` starts with. */
  ghost function RootNames(raw: seq<string>): seq<string> {
    Sorted(DictNames(Fill(AllParts(raw)), ""))
  }

  /** Main result: the recursion ends, at any depth at all, exactly when every path is more than slashes. */
  lemma RecursionEndsIff(raw: seq<string>)
    ensures (exists limit: nat :: EmitWithin(Fill(AllParts(raw)), "", "", RootNames(raw), limit).Some?)
        <==> forall i :: 0 <= i < |raw| ==> Rooted(raw[i])
  {
    var paths := AllParts(raw);
    var dict := Fill(paths);
    RootIsItsOwnChildIff(raw);
    if forall i :: 0 <= i < |raw| ==> Rooted(raw[i]) {
      EndsAtLongest(raw);
    } else {
      hide EmitWithin, Fill, Rooted;
      forall limit: nat ensures EmitWithin(dict, "", "", RootNames(raw), limit).None? {
        RootBelowItselfNeverEnds(dict, "", limit);
      }
    }
  }

  /** Depth for the longest path is enough. */
  lemma EndsAtLongest(raw: seq<string>)
    requires forall i :: 0 <= i < |raw| ==> Rooted(raw[i])
    ensures EmitWithin(Fill(AllParts(raw)), "", "", RootNames(raw), Longest(AllParts(raw))).Some?
  {
    var paths := AllParts(raw);
    PartsAreKeyed(raw);
    hide Fill, Build, Mirrors, EmitWithin, Lines, RenderAll, Sorted, Keyed, Rooted, Parts, Longest;
    FillMirrors(paths);
    RootNamesAreChildren(paths, Build(paths));
    LinesWithin(paths);
  }

  lemma LinesWithin(paths: seq<Path>)
    requires AllKeyed(paths)
    ensures Shallow(Build(paths), Longest(paths) + 1)
    ensures EmitWithin(Fill(paths), "", "", ChildNames(Build(paths), []), Longest(paths))
         == Some(RenderAll(Lines(paths)))
  {
    hide *;
    var t := Build(paths);
    FillMirrors(paths);
    BuildKeyedSteps(paths);
    LinesReadBack(paths);
    RootNamesAreChildren(paths, t);
    LinesAreEmitted(paths);
    EmitWithinIsEmit(Fill(paths), t, [], [], ChildNames(t, []), Longest(paths));
  }

  lemma LinesAreEmitted(paths: seq<Path>)
    requires Shallow(Build(paths), Longest(paths) + 1)
    ensures Lines(paths) == Emit(Build(paths), [], [], ChildNames(Build(paths), []), Longest(paths))
  {
    hide Emit, Build, Shallow, Longest;
  }

  lemma RootNamesAreChildren(paths: seq<Path>, t: Tree)
    requires Mirrors(Fill(paths), t)
    ensures Sorted(DictNames(Fill(paths), "")) == ChildNames(t, []) && Keyed([]) && Join([]) == "" && Groups([]) == ""
    ensures forall x :: x in ChildNames(t, []) ==> Edge(t, [], x)
  {
    hide Fill, Mirrors;
    SameNames(Fill(paths), t, []);
    assert Sorted({}) == [];
  }

  lemma PartsAreKeyed(raw: seq<string>)
    requires forall i :: 0 <= i < |raw| ==> Rooted(raw[i])
    ensures AllKeyed(AllParts(raw))
  {
    forall i | 0 <= i < |raw| ensures Keyed(AllParts(raw)[i]) {
      assert Rooted(raw[i]);
      UnrootedIff(raw[i]);
    }
  }

  // ---------------------------------------------------------------- main result

  function ParseAll(ls: seq<string>): seq<Option<Line>> {
    if ls == [] then [] else [Parse(ls[0])] + ParseAll(ls[1..])
  }

  function Present(ls: seq<Option<Line>>): seq<Line> {
    if ls == [] then [] else (if ls[0].Some? then [ls[0].value] else []) + Present(ls[1..])
  }

  ghost predicate PlainNames(ls: seq<Line>) {
    forall i :: 0 <= i < |ls| ==> '/' !in ls[i].name
  }

  lemma {:induction false} ParseRenderAll(ls: seq<Line>)
    requires PlainNames(ls)
    ensures Present(ParseAll(RenderAll(ls))) == ls
  {
    if ls != [] {
      ParseRender(ls[0]);
      ParseRenderAll(ls[1..]);
      assert RenderAll(ls)[0] == Render(ls[0]) && RenderAll(ls)[1..] == RenderAll(ls[1..]);
      hide Parse, Render;
    }
  }

  lemma AllParse(ls: seq<Line>)
    requires PlainNames(ls)
    ensures forall i :: 0 <= i < |ls| ==> Parse(RenderAll(ls)[i]) == Some(ls[i])
  {
    hide Parse, Render;
    forall i | 0 <= i < |ls| ensures Parse(RenderAll(ls)[i]) == Some(ls[i]) {
      ParseRender(ls[i]);
    }
  }

  /** The names a decoded listing ends its paths with are the names on the lines. */
  lemma {:induction false} DecodedNames(cur: Path, ls: seq<Line>)
    ensures |Decode(cur, ls)| == |ls|
    ensures forall i :: 0 <= i < |ls| ==>
              var path := Decode(cur, ls)[i].path;
              path != [] && path[|path| - 1] == ls[i].name
    decreases ls
  {
    if ls != [] {
      DecodedNames(Upto(cur, |ls[0].groups|) + [ls[0].name], ls[1..]);
    }
  }

  lemma LinesArePlain(paths: seq<Path>)
    requires forall i, j :: 0 <= i < |paths| && 0 <= j < |paths[i]| ==> '/' !in paths[i][j]
    ensures Shallow(Build(paths), Longest(paths) + 1) && PlainNames(Lines(paths))
  {
    LinesReadBack(paths);
    var ls := Lines(paths);
    var w := Decode([], ls);
    DecodedNames([], ls);
    hide Lines, Decode, Build, Rising;
    forall i | 0 <= i < |ls| ensures '/' !in ls[i].name {
      assert HasPath(w, w[i].path);
      var k :| 0 <= k < |paths| && w[i].path <= paths[k];
      assert paths[k][|w[i].path| - 1] == ls[i].name;
    }
  }

  /** The fallback for an empty result is never taken. */
  lemma SomethingListed(paths: seq<Path>)
    requires paths != [] && paths[0] != []
    ensures Shallow(Build(paths), Longest(paths) + 1) && Lines(paths) != []
  {
    LinesReadBack(paths);
    hide Lines, Rising;
    assert paths[0][..1] <= paths[0];
    assert Listed(paths, paths[0][..1]);
  }

  /** `_build_path_tree`.  RecursionEndsIff says why its paths must be more than slashes. */
  method BuildPathTree(raw: seq<string>) returns (result: seq<string>)
    requires forall i :: 0 <= i < |raw| ==> Rooted(raw[i])
    ensures ReadsBack(AllParts(raw), Decode([], Present(ParseAll(result))))
    ensures forall i :: 0 <= i < |result| ==> Parse(result[i]).Some?
    ensures result == [] <==> raw == []
  {
    var paths := AllParts(raw);
    PartsAreKeyed(raw);
    BuildKeyedSteps(paths);
    LinesReadBack(paths);
    LinesArePlain(paths);
    ParseRenderAll(Lines(paths));
    AllParse(Lines(paths));
    if raw == [] {
      NothingListed(paths);
      return [];
    }
    SomethingListed(paths);
    hide Emit, Build, Keyed, Mirrors, ReadsBack, Decode;
    var tree := BuildTree(paths);
    FillMirrors(paths);
    result := EmitChildren(tree, "", "", Build(paths), [], [], Longest(paths));
  }

  lemma NothingListed(paths: seq<Path>)
    requires paths == []
    ensures ReadsBack(paths, Decode([], Present(ParseAll([]))))
  {
    assert forall q :: !Listed(paths, q);
  }
}
