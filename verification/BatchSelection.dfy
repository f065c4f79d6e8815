/** `_select_parallel_tasks` (agentflow/graph/workflow.py): which TODO tasks may run in threads.
    A selected task is named by its position in the queue, as the source hands out references to
    the queue's own dicts. */
module BatchSelection {
  import opened Tasks
  import opened Text
  import opened Lists

  const READ_ACTIONS: set<string> :=
    {"read_file", "list_directory", "tree", "exists", "search_file", "search_content"}
  const WRITE_ACTIONS: set<string> := {"write_file", "create_file", "append_file"}
  const MAX_BATCH: nat := 8

  datatype Candidate = Candidate(index: nat, isWrite: bool)

  /** The paths already claimed after the first `n` tasks, and the candidates found among them. */
  datatype Scan = Scan(found: seq<Candidate>, seen: set<string>)

  /** What a task may contribute to a batch: nothing, an external search, or one file operation. */
  datatype Kind = Unfit | Search | FileOp(path: string, isWrite: bool)

  function Classify(t: Task): Kind {
    if !t.status.Todo? then Unfit
    else if t.tool == "search" then Search
    else if t.tool != "filesystem" || t.action !in WRITE_ACTIONS + READ_ACTIONS || Strip(t.path) == "" then Unfit
    else FileOp(Strip(t.path), t.action in WRITE_ACTIONS)
  }

  function ScanTask(s: Scan, t: Task, i: nat): Scan {
    match Classify(t)
    case Unfit => s
    case Search => s.(found := s.found + [Candidate(i, false)])
    case FileOp(p, isWrite) => if p in s.seen then s else Scan(s.found + [Candidate(i, isWrite)], s.seen + {p})
  }

  function ScanQueue(q: seq<Task>, n: nat): Scan
    requires n <= |q|
  {
    if n == 0 then Scan([], {}) else ScanTask(ScanQueue(q, n - 1), q[n - 1], n - 1)
  }

  function Group(cs: seq<Candidate>, write: bool): seq<nat> {
    if cs == [] then [] else (if cs[0].isWrite == write then [cs[0].index] else []) + Group(cs[1..], write)
  }

  ghost predicate InQueue(q: seq<Task>, xs: seq<nat>) {
    forall k :: 0 <= k < |xs| ==> xs[k] < |q|
  }

  /** `max(priorities, default=-1)`. */
  function TopPriority(q: seq<Task>, xs: seq<nat>): (m: int)
    requires InQueue(q, xs)
    ensures forall k :: 0 <= k < |xs| ==> q[xs[k]].priority <= m
    ensures xs != [] ==> exists k :: 0 <= k < |xs| && q[xs[k]].priority == m
  {
    if xs == [] then -1
    else if |xs| == 1 then q[xs[0]].priority
    else
      var m := TopPriority(q, xs[1..]);
      assert forall k :: 0 < k < |xs| ==> xs[k] == xs[1..][k - 1];
      if q[xs[0]].priority > m then q[xs[0]].priority else m
  }

  function AtPriority(q: seq<Task>, xs: seq<nat>, p: int): (r: seq<nat>)
    requires InQueue(q, xs)
    ensures forall x :: x in r <==> x in xs && q[x].priority == p
  {
    if xs == [] then []
    else
      assert xs == [xs[0]] + xs[1..];
      (if q[xs[0]].priority == p then [xs[0]] else []) + AtPriority(q, xs[1..], p)
  }

  /** The writes of top priority, then every read and search. */
  function Ordered(q: seq<Task>, cs: seq<Candidate>): seq<nat>
    requires InQueue(q, Group(cs, true))
  {
    AtPriority(q, Group(cs, true), TopPriority(q, Group(cs, true))) + Group(cs, false)
  }

  function Select(q: seq<Task>): seq<nat> {
    var cs := ScanQueue(q, |q|).found;
    if |cs| < 2 then []
    else
      ScanFindsEligible(q, |q|);
      GroupInQueue(q, cs, true);
      var selected := Ordered(q, cs);
      if |selected| < 2 then [] else selected[..if |selected| < MAX_BATCH then |selected| else MAX_BATCH]
  }

  // ---------------------------------------------------------------- what the scan guarantees

  predicate IsWrite(t: Task) {
    Classify(t).FileOp? && Classify(t).isWrite
  }

  ghost predicate Eligible(q: seq<Task>, c: Candidate) {
    c.index < |q| && !Classify(q[c.index]).Unfit? && (c.isWrite <==> IsWrite(q[c.index]))
  }

  ghost predicate PathsDiffer(t: Task, u: Task) {
    Classify(t).FileOp? && Classify(u).FileOp? ==> Classify(t).path != Classify(u).path
  }

  lemma {:induction false} ScanFindsEligible(q: seq<Task>, n: nat)
    requires n <= |q|
    ensures forall c :: c in ScanQueue(q, n).found ==> Eligible(q, c) && c.index < n
  {
    hide Classify;
    if n > 0 { ScanFindsEligible(q, n - 1); }
  }

  lemma {:induction false} ScanRecordsPaths(q: seq<Task>, n: nat)
    requires n <= |q|
    ensures forall c :: c in ScanQueue(q, n).found && c.index < |q| && Classify(q[c.index]).FileOp?
                ==> Classify(q[c.index]).path in ScanQueue(q, n).seen
  {
    hide Classify;
    if n > 0 { ScanRecordsPaths(q, n - 1); }
  }

  lemma {:induction false} ScanSeparates(q: seq<Task>, n: nat, c: Candidate, d: Candidate)
    requires n <= |q| && c in ScanQueue(q, n).found && d in ScanQueue(q, n).found && c.index < d.index < |q|
    ensures PathsDiffer(q[c.index], q[d.index])
  {
    hide Classify;
    ScanFindsEligible(q, n - 1);
    ScanRecordsPaths(q, n - 1);
    if d in ScanQueue(q, n - 1).found && c in ScanQueue(q, n - 1).found {
      ScanSeparates(q, n - 1, c, d);
    }
  }

  lemma {:induction false} GroupMembers(cs: seq<Candidate>, write: bool)
    ensures forall x :: x in Group(cs, write) <==> Candidate(x, write) in cs
  {
    if cs != [] {
      GroupMembers(cs[1..], write);
      assert cs == [cs[0]] + cs[1..];
    }
  }

  lemma GroupInQueue(q: seq<Task>, cs: seq<Candidate>, write: bool)
    requires forall c :: c in cs ==> Eligible(q, c)
    ensures InQueue(q, Group(cs, write))
  {
    GroupMembers(cs, write);
    forall k | 0 <= k < |Group(cs, write)| ensures Group(cs, write)[k] < |q| {
      assert Group(cs, write)[k] in Group(cs, write);
      assert Eligible(q, Candidate(Group(cs, write)[k], write));
    }
  }

  lemma {:induction false} GroupSnoc(cs: seq<Candidate>, c: Candidate, write: bool)
    ensures Group(cs + [c], write) == Group(cs, write) + (if c.isWrite == write then [c.index] else [])
  {
    if cs != [] {
      assert (cs + [c])[1..] == cs[1..] + [c];
      GroupSnoc(cs[1..], c, write);
    } else {
      assert (cs + [c])[1..] == [];
    }
  }

  /** One more task of the queue adds at most one candidate, itself. */
  lemma ScanSnoc(q: seq<Task>, n: nat)
    requires 0 < n <= |q|
    ensures var before, now := ScanQueue(q, n - 1).found, ScanQueue(q, n).found;
            now == before || now == before + [Candidate(n - 1, true)] || now == before + [Candidate(n - 1, false)]
  {
    hide Classify, Strip;
    var before, now := ScanQueue(q, n - 1).found, ScanQueue(q, n).found;
    if now != before {
      var c := now[|now| - 1];
      assert now == before + [Candidate(n - 1, c.isWrite)];
    }
  }

  lemma GroupAscends(cs: seq<Candidate>, c: Candidate, write: bool)
    requires Ascending(Group(cs, write)) && forall x :: x in cs ==> x.index < c.index
    ensures Ascending(Group(cs + [c], write))
  {
    hide Group, Ascending;
    GroupSnoc(cs, c, write);
    GroupMembers(cs, write);
    assert Group(cs, write) + [] == Group(cs, write);
    forall y | y in Group(cs, write) ensures y < c.index { assert Candidate(y, write) in cs; }
    AscendingSnoc(Group(cs, write), c.index);
  }

  lemma NoneAscend(q: seq<Task>, write: bool)
    ensures Ascending(Group(ScanQueue(q, 0).found, write))
  {
  }

  lemma {:induction false} ScanGroupsAscend(q: seq<Task>, n: nat, write: bool)
    requires n <= |q|
    ensures Ascending(Group(ScanQueue(q, n).found, write))
  {
    hide *;
    if n == 0 {
      NoneAscend(q, write);
    } else {
      ScanGroupsAscend(q, n - 1, write);
      ScanSnoc(q, n);
      ScanFindsEligible(q, n - 1);
      var before := ScanQueue(q, n - 1).found;
      GroupAscends(before, Candidate(n - 1, true), write);
      GroupAscends(before, Candidate(n - 1, false), write);
    }
  }

  lemma {:induction false} AtPriorityAscends(q: seq<Task>, xs: seq<nat>, p: int)
    requires InQueue(q, xs) && Ascending(xs)
    ensures Ascending(AtPriority(q, xs, p))
  {
    if xs != [] {
      var rest := AtPriority(q, xs[1..], p);
      AtPriorityAscends(q, xs[1..], p);
      assert forall y :: y in xs[1..] ==> xs[0] < y;
      AscendingCons(xs[0], rest);
      assert [] + rest == rest;
    }
  }

  lemma AscendingCons(x: nat, rest: seq<nat>)
    requires Ascending(rest) && forall y :: y in rest ==> x < y
    ensures Ascending([x] + rest)
  {
    assert forall k :: 0 <= k < |rest| ==> rest[k] in rest;
  }

  // ---------------------------------------------------------------- the batch

  ghost predicate MayRun(q: seq<Task>, x: nat) {
    x < |q| && !Classify(q[x]).Unfit?
  }

  /** Two members of a batch: different tasks, on different paths, of one priority if both write. */
  ghost predicate Independent(q: seq<Task>, x: nat, y: nat)
    requires x < |q| && y < |q|
  {
    && x != y
    && PathsDiffer(q[x], q[y])
    && (IsWrite(q[x]) && IsWrite(q[y]) ==> q[x].priority == q[y].priority)
  }

  /** A usable batch: empty or of 2..8 runnable TODO tasks, pairwise independent. */
  ghost predicate SoundBatch(q: seq<Task>, b: seq<nat>) {
    && (b == [] || 2 <= |b| <= MAX_BATCH)
    && (forall k :: 0 <= k < |b| ==> MayRun(q, b[k]))
    && (forall k, l :: 0 <= k < l < |b| ==> Independent(q, b[k], b[l]))
  }

  /** Every entry of the ordered selection is an eligible candidate, of its own kind. */
  lemma OrderedEntry(q: seq<Task>, k: nat) returns (c: Candidate)
    requires InQueue(q, Group(ScanQueue(q, |q|).found, true))
    requires k < |Ordered(q, ScanQueue(q, |q|).found)|
    ensures c in ScanQueue(q, |q|).found && Eligible(q, c)
    ensures c.index == Ordered(q, ScanQueue(q, |q|).found)[k]
    ensures c.isWrite ==> q[c.index].priority == TopPriority(q, Group(ScanQueue(q, |q|).found, true))
  {
    hide Classify;
    var cs := ScanQueue(q, |q|).found;
    var writes := Group(cs, true);
    var ws, rs := AtPriority(q, writes, TopPriority(q, writes)), Group(cs, false);
    ScanFindsEligible(q, |q|);
    GroupMembers(cs, true);
    GroupMembers(cs, false);
    if k < |ws| {
      assert Ordered(q, cs)[k] == ws[k] && ws[k] in ws;
      c := Candidate(ws[k], true);
    } else {
      assert Ordered(q, cs)[k] == rs[k - |ws|] && rs[k - |ws|] in rs;
      c := Candidate(rs[k - |ws|], false);
    }
  }

  lemma OrderedDistinct(q: seq<Task>, k: nat, l: nat)
    requires InQueue(q, Group(ScanQueue(q, |q|).found, true))
    requires k < l < |Ordered(q, ScanQueue(q, |q|).found)|
    ensures Ordered(q, ScanQueue(q, |q|).found)[k] != Ordered(q, ScanQueue(q, |q|).found)[l]
  {
    hide Classify;
    var cs := ScanQueue(q, |q|).found;
    var writes := Group(cs, true);
    var ws, rs := AtPriority(q, writes, TopPriority(q, writes)), Group(cs, false);
    ScanGroupsAscend(q, |q|, true);
    ScanGroupsAscend(q, |q|, false);
    AtPriorityAscends(q, writes, TopPriority(q, writes));
    assert Ordered(q, cs) == ws + rs;
    ScanFindsEligible(q, |q|);
    GroupMembers(cs, true);
    GroupMembers(cs, false);
    hide ScanQueue, Group, AtPriority, TopPriority, Ordered;
    if k < |ws| <= l {
      assert ws[k] in ws && rs[l - |ws|] in rs;
      assert Eligible(q, Candidate(ws[k], true)) && Eligible(q, Candidate(rs[l - |ws|], false));
    }
  }

  lemma SelectIsSound(q: seq<Task>)
    ensures SoundBatch(q, Select(q))
  {
    hide Classify;
    var cs := ScanQueue(q, |q|).found;
    ScanFindsEligible(q, |q|);
    GroupInQueue(q, cs, true);
    var b := Select(q);
    forall k | 0 <= k < |b| ensures MayRun(q, b[k]) {
      var c := OrderedEntry(q, k);
    }
    forall k, l | 0 <= k < l < |b| ensures Independent(q, b[k], b[l]) {
      var c := OrderedEntry(q, k);
      var d := OrderedEntry(q, l);
      OrderedDistinct(q, k, l);
      if c.index < d.index { ScanSeparates(q, |q|, c, d); } else { ScanSeparates(q, |q|, d, c); }
    }
  }

  /** The loop of the source, with its `candidates` list and `seen_paths` set. */
  method SelectParallelTasks(q: seq<Task>) returns (selected: seq<nat>)
    ensures selected == Select(q)
    ensures SoundBatch(q, selected)
  {
    SelectIsSound(q);
    var candidates: seq<Candidate> := [];
    var seenPaths: set<string> := {};
    for i := 0 to |q|
      invariant Scan(candidates, seenPaths) == ScanQueue(q, i)
    {
      var task := q[i];
      if !task.status.Todo? { continue; }
      if task.tool == "search" {
        candidates := candidates + [Candidate(i, false)];
        continue;
      }
      if task.tool != "filesystem" { continue; }
      if task.action !in WRITE_ACTIONS + READ_ACTIONS { continue; }
      var path := Strip(task.path);
      if path == "" || path in seenPaths { continue; }
      seenPaths := seenPaths + {path};
      candidates := candidates + [Candidate(i, task.action in WRITE_ACTIONS)];
    }
    if |candidates| < 2 { return []; }
    ScanFindsEligible(q, |q|);
    GroupInQueue(q, candidates, true);
    var writeGroup, readGroup := Group(candidates, true), Group(candidates, false);
    selected := AtPriority(q, writeGroup, TopPriority(q, writeGroup)) + readGroup;
    if |selected| < 2 { return []; }
    if |selected| > MAX_BATCH { selected := selected[..MAX_BATCH]; }
  }
}
