/** Which batch `_select_parallel_tasks` (agentflow/graph/workflow.py) forms, told from the tasks alone. */
module SelectionLaws {

  import opened Tasks
  import opened Text
  import opened BatchSelection
  import opened Lists

  predicate Searches(t: Task) {
    t.status == Todo && t.tool == "search"
  }

  predicate OnPath(t: Task) {
    t.status == Todo && t.tool == "filesystem" && Strip(t.path) != ""
  }

  predicate Writes(t: Task) {
    OnPath(t) && t.action in {"write_file", "create_file", "append_file"}
  }

  predicate Reads(t: Task) {
    OnPath(t) && t.action in {"read_file", "list_directory", "tree", "exists", "search_file", "search_content"}
  }

  /** The task is the first file operation on its path. */
  ghost predicate Claims(q: seq<Task>, i: nat) {
    && i < |q| && (Writes(q[i]) || Reads(q[i]))
    && forall j :: 0 <= j < i && (Writes(q[j]) || Reads(q[j])) ==> Strip(q[j].path) != Strip(q[i].path)
  }

  /** The task may join: a search, a read of a new path, or a write of a new path than which no other such
      write is more urgent. */
  ghost predicate MayJoin(q: seq<Task>, i: nat) {
    && i < |q|
    && (|| Searches(q[i])
        || (Claims(q, i) && Reads(q[i]))
        || (Claims(q, i) && Writes(q[i])
            && forall j: nat :: Claims(q, j) && Writes(q[j]) ==> q[j].priority <= q[i].priority))
  }

  /** Writes come before reads and searches; otherwise the queue decides. */
  predicate Precedes(q: seq<Task>, x: nat, y: nat)
    requires x < |q| && y < |q|
  {
    (Writes(q[x]) && !Writes(q[y])) || (Writes(q[x]) == Writes(q[y]) && x < y)
  }

  // ---------------------------------------------------------------- the scan

  lemma ClassifyIs(t: Task)
    ensures Classify(t).Search? <==> Searches(t)
    ensures Classify(t).FileOp? <==> Writes(t) || Reads(t)
    ensures Classify(t).FileOp? ==> Classify(t).path == Strip(t.path) && (Classify(t).isWrite <==> Writes(t))
    ensures !(Searches(t) && (Writes(t) || Reads(t))) && !(Writes(t) && Reads(t))
  {
    hide Strip;
  }

  /** A candidate that the first `n` tasks give. */
  ghost predicate Offered(q: seq<Task>, n: nat, c: Candidate)
    requires n <= |q|
  {
    c.index < n && (Searches(q[c.index]) || Claims(q, c.index)) && (c.isWrite <==> Writes(q[c.index]))
  }

  /** A path that one of them names. */
  ghost predicate Named(q: seq<Task>, n: nat, p: string)
    requires n <= |q|
  {
    exists j :: 0 <= j < n && (Writes(q[j]) || Reads(q[j])) && Strip(q[j].path) == p
  }

  ghost predicate Found(q: seq<Task>, n: nat, s: Scan)
    requires n <= |q|
  {
    && (forall c :: c in s.found <==> Offered(q, n, c))
    && (forall p :: p in s.seen <==> Named(q, n, p))
  }

  lemma {:induction false} ScanIs(q: seq<Task>, n: nat)
    requires n <= |q|
    ensures Found(q, n, ScanQueue(q, n))
  {
    if n > 0 {
      ScanIs(q, n - 1);
      ClassifyIs(q[n - 1]);
      hide Classify, ScanQueue, Searches, Writes, Reads, Strip;
      ScanStep(q, n - 1, ScanQueue(q, n - 1));
      ScanUnfolds(q, n);
    }
  }

  lemma ScanUnfolds(q: seq<Task>, n: nat)
    requires 0 < n <= |q|
    ensures ScanQueue(q, n) == ScanTask(ScanQueue(q, n - 1), q[n - 1], n - 1)
  {
    hide ScanTask;
  }

  lemma NamedStep(q: seq<Task>, n: nat, s: Scan, p: string)
    requires n < |q| && (p in s.seen <==> Named(q, n, p))
    ensures p in ScanTask(s, q[n], n).seen <==> Named(q, n + 1, p)
  {
    ClassifyIs(q[n]);
    hide Classify, Searches, Writes, Reads, Strip, Claims;
    if Named(q, n, p) {
      var j :| 0 <= j < n && (Writes(q[j]) || Reads(q[j])) && Strip(q[j].path) == p;
      assert 0 <= j < n + 1;
    }
    if (Writes(q[n]) || Reads(q[n])) && Strip(q[n].path) == p {
      assert 0 <= n < n + 1;
    }
  }

  lemma FoundGrows(s: Scan, t: Task, i: nat, c: Candidate)
    ensures c in ScanTask(s, t, i).found <==>
              || c in s.found
              || (c.index == i && Searches(t) && !c.isWrite)
              || (c.index == i && (Writes(t) || Reads(t)) && Strip(t.path) !in s.seen && (c.isWrite <==> Writes(t)))
  {
    ClassifyIs(t);
    hide Classify, Searches, Writes, Reads, Strip;
  }

  lemma ClaimsIs(q: seq<Task>, i: nat)
    requires i < |q| && (Writes(q[i]) || Reads(q[i]))
    ensures Claims(q, i) <==> !Named(q, i, Strip(q[i].path))
  {
    hide Searches, Writes, Reads, Strip;
  }

  lemma OfferedStep(q: seq<Task>, n: nat, s: Scan, c: Candidate)
    requires n < |q| && (c in s.found <==> Offered(q, n, c))
    requires Strip(q[n].path) in s.seen <==> Named(q, n, Strip(q[n].path))
    ensures c in ScanTask(s, q[n], n).found <==> Offered(q, n + 1, c)
  {
    FoundGrows(s, q[n], n, c);
    ClassifyIs(q[n]);
    assert Claims(q, n) ==> Writes(q[n]) || Reads(q[n]);
    if Writes(q[n]) || Reads(q[n]) {
      ClaimsIs(q, n);
    }
    hide ScanTask, Classify, Searches, Writes, Reads, Strip, Claims, Named;
  }

  lemma ScanStep(q: seq<Task>, n: nat, s: Scan)
    requires n < |q| && Found(q, n, s)
    ensures Found(q, n + 1, ScanTask(s, q[n], n))
  {
    hide Offered, Named, ScanTask;
    var r := ScanTask(s, q[n], n);
    forall c ensures c in r.found <==> Offered(q, n + 1, c) {
      OfferedStep(q, n, s, c);
    }
    forall p ensures p in r.seen <==> Named(q, n + 1, p) {
      NamedStep(q, n, s, p);
    }
  }

  // ---------------------------------------------------------------- the order

  /** These are the tasks that may join, in the order of preference. */
  ghost predicate Line(q: seq<Task>, xs: seq<nat>) {
    && (forall x: nat :: x in xs <==> MayJoin(q, x))
    && (forall k :: 0 <= k < |xs| ==> xs[k] < |q|)
    && (forall k, l :: 0 <= k < l < |xs| ==> Precedes(q, xs[k], xs[l]))
  }

  lemma OrderedIs(q: seq<Task>)
    requires InQueue(q, Group(ScanQueue(q, |q|).found, true))
    ensures Line(q, Ordered(q, ScanQueue(q, |q|).found))
  {
    var cs := ScanQueue(q, |q|).found;
    var writes, rs := Group(cs, true), Group(cs, false);
    var top := TopPriority(q, writes);
    var ws := AtPriority(q, writes, top);
    assert Ordered(q, cs) == ws + rs;
    ScanIs(q, |q|);
    GroupMembers(cs, true);
    GroupMembers(cs, false);
    ScanGroupsAscend(q, |q|, true);
    ScanGroupsAscend(q, |q|, false);
    AtPriorityAscends(q, writes, top);
    hide ScanQueue, Group, Ordered, AtPriority, TopPriority;
    TopIs(q, cs, writes, ws, top);
    ReadersAre(q, cs, rs);
    hide *;
    InLine(q, ws, rs);
  }

  /** The writes of top priority. */
  lemma TopIs(q: seq<Task>, cs: seq<Candidate>, writes: seq<nat>, ws: seq<nat>, top: int)
    requires Found(q, |q|, Scan(cs, ScanQueue(q, |q|).seen))
    requires forall x :: x in writes <==> Candidate(x, true) in cs
    requires InQueue(q, writes) && top == TopPriority(q, writes)
    requires forall x :: x in ws <==> x in writes && q[x].priority == top
    ensures forall x: nat :: x in ws <==> x < |q| && MayJoin(q, x) && Writes(q[x])
  {
    hide Strip, ScanQueue;
    forall x: nat ensures x in writes <==> Claims(q, x) && Writes(q[x]) {
      if x < |q| { ClassifyIs(q[x]); }
      assert x in writes <==> Candidate(x, true) in cs;
    }
    hide Found, Writes, Reads, Searches, Claims;
    forall x: nat ensures x in ws <==> x < |q| && MayJoin(q, x) && Writes(q[x]) {
      if x in ws {
        forall j: nat | Claims(q, j) && Writes(q[j]) ensures q[j].priority <= q[x].priority {
          assert j in writes;
          var k :| 0 <= k < |writes| && writes[k] == j;
        }
      }
      if x < |q| && MayJoin(q, x) && Writes(q[x]) {
        ClassifyIs(q[x]);
        assert x in writes;
        var k :| 0 <= k < |writes| && q[writes[k]].priority == top;
        assert writes[k] in writes;
        var m :| 0 <= m < |writes| && writes[m] == x;
      }
    }
  }

  lemma ReadersAre(q: seq<Task>, cs: seq<Candidate>, rs: seq<nat>)
    requires Found(q, |q|, Scan(cs, ScanQueue(q, |q|).seen))
    requires forall x :: x in rs <==> Candidate(x, false) in cs
    ensures forall x: nat :: x in rs <==> x < |q| && MayJoin(q, x) && !Writes(q[x])
  {
    hide Strip, ScanQueue, Writes, Reads, Searches, Claims, MayJoin;
    forall x: nat ensures x in rs <==> x < |q| && MayJoin(q, x) && !Writes(q[x]) {
      assert x in rs <==> Candidate(x, false) in cs;
      if x < |q| {
        ReaderIs(q, x);
      }
    }
  }

  lemma ReaderIs(q: seq<Task>, x: nat)
    requires x < |q|
    ensures MayJoin(q, x) && !Writes(q[x]) <==> (Searches(q[x]) || Claims(q, x)) && !Writes(q[x])
  {
    ClassifyIs(q[x]);
    hide Writes, Reads, Searches, Strip, Classify;
  }

  lemma InLine(q: seq<Task>, ws: seq<nat>, rs: seq<nat>)
    requires Ascending(ws) && Ascending(rs)
    requires forall x: nat :: x in ws <==> x < |q| && MayJoin(q, x) && Writes(q[x])
    requires forall x: nat :: x in rs <==> x < |q| && MayJoin(q, x) && !Writes(q[x])
    ensures Line(q, ws + rs)
  {
    hide Writes, MayJoin;
    var xs := ws + rs;
    JoinBounded(q);
    forall k | 0 <= k < |xs| ensures xs[k] < |q| && (Writes(q[xs[k]]) <==> k < |ws|) {
      assert xs[k] in if k < |ws| then ws else rs;
    }
  }

  lemma JoinBounded(q: seq<Task>)
    ensures forall x: nat :: MayJoin(q, x) ==> x < |q|
  {
  }

  // ---------------------------------------------------------------- main result

  /** Main result: the batch is empty exactly when fewer than two tasks may join; otherwise it is the first
      eight, or all, of those that may, writes before reads and searches. */
  lemma SelectIs(q: seq<Task>)
    ensures var b := Select(q);
            && (forall k :: 0 <= k < |b| ==> b[k] < |q| && MayJoin(q, b[k]))
            && (forall k, l :: 0 <= k < l < |b| ==> Precedes(q, b[k], b[l]))
            && (b == [] <==> forall x: nat, y: nat :: MayJoin(q, x) && MayJoin(q, y) ==> x == y)
            && (forall y: nat :: b != [] && MayJoin(q, y) && y !in b ==>
                  |b| == 8 && forall k :: 0 <= k < |b| ==> Precedes(q, b[k], y))
            && |b| <= 8
  {
    var cs := ScanQueue(q, |q|).found;
    ScanFindsEligible(q, |q|);
    GroupInQueue(q, cs, true);
    OrderedIs(q);
    var xs := Ordered(q, cs);
    FewCandidates(q, xs);
    assert Select(q) == if |cs| < 2 || |xs| < 2 then [] else xs[..if |xs| < 8 then |xs| else 8];
    hide *;
    CutLine(q, xs, Select(q));
  }

  /** With fewer than two candidates the ordered selection has fewer than two. */
  lemma FewCandidates(q: seq<Task>, xs: seq<nat>)
    requires InQueue(q, Group(ScanQueue(q, |q|).found, true)) && xs == Ordered(q, ScanQueue(q, |q|).found)
    ensures |ScanQueue(q, |q|).found| < 2 ==> |xs| < 2
  {
    var cs := ScanQueue(q, |q|).found;
    GroupSizes(cs);
    AtPrioritySize(q, Group(cs, true), TopPriority(q, Group(cs, true)));
    hide ScanQueue, Group, AtPriority, TopPriority;
  }

  lemma {:induction false} GroupSizes(cs: seq<Candidate>)
    ensures |Group(cs, true)| + |Group(cs, false)| == |cs|
  {
    if cs != [] {
      GroupSizes(cs[1..]);
    }
  }

  lemma {:induction false} AtPrioritySize(q: seq<Task>, xs: seq<nat>, p: int)
    requires InQueue(q, xs)
    ensures |AtPriority(q, xs, p)| <= |xs|
  {
    if xs != [] {
      AtPrioritySize(q, xs[1..], p);
    }
  }

  lemma CutLine(q: seq<Task>, xs: seq<nat>, b: seq<nat>)
    requires Line(q, xs)
    requires b == if |xs| < 2 then [] else xs[..if |xs| < 8 then |xs| else 8]
    ensures (forall k :: 0 <= k < |b| ==> b[k] < |q| && MayJoin(q, b[k]))
         && (forall k, l :: 0 <= k < l < |b| ==> Precedes(q, b[k], b[l]))
         && (b == [] <==> forall x: nat, y: nat :: MayJoin(q, x) && MayJoin(q, y) ==> x == y)
         && (forall y: nat :: b != [] && MayJoin(q, y) && y !in b ==>
               |b| == 8 && y < |q| && forall k :: 0 <= k < |b| ==> Precedes(q, b[k], y))
         && |b| <= 8
  {
    hide MayJoin;
    forall k | 0 <= k < |xs| ensures MayJoin(q, xs[k]) { assert xs[k] in xs; }
    if |xs| >= 2 {
      assert xs[0] != xs[1];
    }
    forall y: nat | b != [] && MayJoin(q, y) && y !in b
      ensures |b| == 8 && y < |q| && forall k :: 0 <= k < |b| ==> Precedes(q, b[k], y)
    {
      var m :| 0 <= m < |xs| && xs[m] == y;
      assert forall k :: 0 <= k < |b| ==> b[k] in b;
      assert m >= |b|;
    }
  }
}
