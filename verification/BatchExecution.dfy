/** The whole batch path of the tool executor: selection, threads, and results written back. */
module BatchExecution {

  import opened Tasks
  import opened Text
  import BatchSelection
  import P = ParallelFiles
  import AgentLoop
  import opened Options

  /** What the outside world decides, task by task: where a path resolves (symlinks, workspace root; None
      when validation refuses it), whether the registry refuses the task on other grounds (no such tool,
      another path argument), the reply of a web search (None when it has no query or its provider
      raises), the text of an error, and what the argument repair of a failed file task leads to on a given
      disk (None when nothing is repaired).  Content is taken after fence stripping. */
  datatype World = World(
    Resolve: string -> Option<P.Path>,
    Refuses: Task -> bool,
    Search: Task -> Option<string>,
    ErrorText: (Task, P.Reason) -> string,
    Repair: (Task, string, P.Disk) -> Option<(P.Disk, P.Result)>)

  /** `search_file` and `search_content` are selected as reads, but the file tool offers no such action. */
  function ActionOf(w: World, t: Task): P.Action {
    if t.tool == "search" then P.WebSearch(if w.Refuses(t) then None else w.Search(t))
    else if t.action == "create_file" then P.Create(t.content)
    else if t.action == "write_file" then P.Write(t.content)
    else if t.action == "append_file" then P.Append(t.content)
    else if t.action == "read_file" then P.Read
    else if t.action == "exists" then P.Exists
    else if t.action == "list_directory" then P.List
    else if t.action == "tree" then P.Tree
    else P.Unsupported
  }

  function FileTaskOf(w: World, t: Task): P.FileTask {
    P.FileTask(if w.Refuses(t) then None else w.Resolve(t.path), ActionOf(w, t))
  }

  function BatchOf(w: World, q: seq<Task>, b: seq<nat>): (r: seq<P.FileTask>)
    requires BatchSelection.InQueue(q, b)
    ensures |r| == |b| && forall k :: 0 <= k < |b| ==> r[k] == FileTaskOf(w, q[b[k]])
  {
    seq(|b|, k requires 0 <= k < |b| => FileTaskOf(w, q[b[k]]))
  }

  /** Of any two file tasks of the batch that do not both only read, neither resolved path is the other
      or an ancestor of it. */
  ghost predicate ResolvedApart(w: World, q: seq<Task>, b: seq<nat>)
    requires BatchSelection.InQueue(q, b)
  {
    forall k, l :: 0 <= k < l < |b| ==> P.Independent(FileTaskOf(w, q[b[k]]), FileTaskOf(w, q[b[l]]))
  }

  function OutcomeOf(w: World, t: Task, r: P.Result): AgentLoop.Outcome {
    if r.Failed? then AgentLoop.Failure(w.ErrorText(t, r.reason)) else AgentLoop.Success
  }

  function Outcomes(w: World, q: seq<Task>, b: seq<nat>, rs: seq<P.Result>): (os: seq<AgentLoop.Outcome>)
    requires BatchSelection.InQueue(q, b) && |rs| == |b|
    ensures |os| == |rs| && forall k :: 0 <= k < |rs| ==> os[k] == OutcomeOf(w, q[b[k]], rs[k])
  {
    seq(|rs|, k requires 0 <= k < |rs| => OutcomeOf(w, q[b[k]], rs[k]))
  }

  // ---------------------------------------------------------------- argument repair

  /** What the repair of this task leads to, if there is one: only a failed file task gets it. */
  function RepairOf(w: World, t: Task, disk: P.Disk, r: P.Result): Option<(P.Disk, P.Result)> {
    if t.tool == "filesystem" && r.Failed? then w.Repair(t, w.ErrorText(t, r.reason), disk) else None
  }

  /** One failed task after the other, in batch order, is given its one repair on the disk as it then is. */
  function Repaired(w: World, q: seq<Task>, b: seq<nat>, disk: P.Disk, rs: seq<P.Result>)
    : (r: (P.Disk, seq<P.Result>))
    requires BatchSelection.InQueue(q, b) && |rs| == |b|
    ensures |r.1| == |rs|
  {
    if rs == [] then (disk, [])
    else
      var n := |rs| - 1;
      var (d, done) := Repaired(w, q, b[..n], disk, rs[..n]);
      match RepairOf(w, q[b[n]], d, rs[n])
      case None => (d, done + [rs[n]])
      case Some((after, again)) => (after, done + [again])
  }

  /** The loop over the results of a batch, in place. */
  method RepairBatch(w: World, ws: P.Workspace, q: seq<Task>, b: seq<nat>, rs: seq<P.Result>)
    returns (final: seq<P.Result>)
    requires BatchSelection.InQueue(q, b) && |rs| == |b|
    modifies ws
    ensures (ws.disk, final) == Repaired(w, q, b, old(ws.disk), rs)
  {
    final := [];
    for k := 0 to |rs|
      invariant (ws.disk, final) == Repaired(w, q, b[..k], old(ws.disk), rs[..k])
    {
      assert rs[..k + 1][..k] == rs[..k] && b[..k + 1][..k] == b[..k];
      var result := rs[k];
      var repaired := RepairOf(w, q[b[k]], ws.disk, result);
      if repaired.Some? {
        ws.disk := repaired.value.0;
        result := repaired.value.1;
      }
      final := final + [result];
    }
    assert rs[..|rs|] == rs && b[..|rs|] == b;
  }

  /** What the repairs come to, one after the other: each finds the disk the one before left. */
  ghost predicate RepairsAlong(w: World, q: seq<Task>, b: seq<nat>, rs: seq<P.Result>, disks: seq<P.Disk>,
                               final: seq<P.Result>)
    requires BatchSelection.InQueue(q, b) && |rs| == |b|
  {
    && |disks| == |rs| + 1 && |final| == |rs|
    && forall k: nat :: k < |rs| ==>
         var t := q[b[k]];
         var repair := if t.tool != "filesystem" || !rs[k].Failed? then None
                       else w.Repair(t, w.ErrorText(t, rs[k].reason), disks[k]);
         (disks[k + 1], final[k]) == if repair.Some? then repair.value else (disks[k], rs[k])
  }

  /** Exactly the failed file tasks the model has a repair for get its result, in batch order. */
  lemma {:induction false} RepairedIs(w: World, q: seq<Task>, b: seq<nat>, disk: P.Disk, rs: seq<P.Result>)
    returns (disks: seq<P.Disk>)
    requires BatchSelection.InQueue(q, b) && |rs| == |b|
    ensures var (last, final) := Repaired(w, q, b, disk, rs);
            RepairsAlong(w, q, b, rs, disks, final) && disks[0] == disk && disks[|rs|] == last
  {
    if rs == [] {
      disks := [disk];
    } else {
      var n := |rs| - 1;
      var front := RepairedIs(w, q, b[..n], disk, rs[..n]);
      var (d, done) := Repaired(w, q, b[..n], disk, rs[..n]);
      var (last, final) := Repaired(w, q, b, disk, rs);
      disks := front + [last];
      assert disks[n] == d;
      assert forall k: nat :: k <= n ==> disks[k] == front[k];
      assert forall k: nat :: k < n ==> final[k] == done[k];
      hide Repaired;
    }
  }

  /** Which action each task is, by its tool and the action in its input. */
  lemma ActionsAre(w: World, t: Task)
    ensures ActionOf(w, t).WebSearch? <==> t.tool == "search"
    ensures t.tool != "search" ==>
              && (t.action == "create_file" ==> ActionOf(w, t) == P.Create(t.content))
              && (t.action == "write_file" ==> ActionOf(w, t) == P.Write(t.content))
              && (t.action == "append_file" ==> ActionOf(w, t) == P.Append(t.content))
              && (ActionOf(w, t).Read? <==> t.action == "read_file")
              && (ActionOf(w, t).Exists? <==> t.action == "exists")
              && (ActionOf(w, t).List? <==> t.action == "list_directory")
              && (ActionOf(w, t).Tree? <==> t.action == "tree")
              && (t.action in {"search_file", "search_content"} ==> ActionOf(w, t).Unsupported?)
    ensures FileTaskOf(w, t).target == if w.Refuses(t) then None else w.Resolve(t.path)
  {
  }

  /** No disk the repairs of others leave makes a repair of this result possible: so for a success, for a
      search, and where the model has nothing better to offer. */
  ghost predicate NeverRepaired(w: World, t: Task, r: P.Result) {
    forall disk :: RepairOf(w, t, disk, r).None?
  }

  /** Such a result stays through the repairs of the others. */
  lemma {:induction false} UnrepairedStays(w: World, q: seq<Task>, b: seq<nat>, disk: P.Disk, rs: seq<P.Result>, k: nat)
    requires BatchSelection.InQueue(q, b) && |rs| == |b| && k < |rs|
    requires NeverRepaired(w, q[b[k]], rs[k])
    ensures Repaired(w, q, b, disk, rs).1[k] == rs[k]
  {
    var n := |rs| - 1;
    if k < n {
      UnrepairedStays(w, q, b[..n], disk, rs[..n], k);
    }
  }

  /** The k-th outcome lands on the k-th task of the batch and on no other. */
  lemma {:induction false} OutcomeLandsOnItsTask(q: seq<Task>, b: seq<nat>, os: seq<AgentLoop.Outcome>, k: nat)
    requires |b| == |os| && BatchSelection.InQueue(q, b) && k < |b|
    requires forall i, j :: 0 <= i < j < |b| ==> b[i] != b[j]
    ensures AgentLoop.FinishAll(q, b, os)[b[k]] == AgentLoop.Finish(q[b[k]], os[k])
  {
    hide AgentLoop.Finish;
    var n := |b| - 1;
    assert b == b[..n] + [b[n]];
    assert b[n] !in b[..n];
    if k < n {
      OutcomeLandsOnItsTask(q, b[..n], os[..n], k);
      assert b[..n][k] == b[k] && os[..n][k] == os[k] && b[k] != b[n];
    }
  }

  /** What each task of the batch gives alone on the disk the batch found. */
  function OwnResults(w: World, q: seq<Task>, b: seq<nat>, disk: P.Disk): (rs: seq<P.Result>)
    requires BatchSelection.InQueue(q, b)
    ensures |rs| == |b| && forall k :: 0 <= k < |b| ==> rs[k] == P.Command(disk, FileTaskOf(w, q[b[k]])).1
  {
    seq(|b|, k requires 0 <= k < |b| => P.Command(disk, FileTaskOf(w, q[b[k]])).1)
  }

  /** Main result for the threads of a batch chosen by the selector: whatever their interleaving and
      whatever the serial order it is compared with, the disk is the same and every task gets the result of
      its own action alone. */
  lemma SelectedBatchEqualsSerial(w: World, q: seq<Task>, disk: P.Disk, schedule: seq<nat>, order: seq<nat>,
                                  rs: seq<P.Result>)
    requires BatchSelection.InQueue(q, BatchSelection.Select(q))
    requires ResolvedApart(w, q, BatchSelection.Select(q))
    requires var tasks := BatchOf(w, q, BatchSelection.Select(q));
             && P.IsOrder(order, |tasks|)
             && P.Complete(P.Execute(tasks, P.StartConfig(disk, tasks), schedule))
             && |rs| == |tasks|
             && forall k :: 0 <= k < |rs|
                            ==> rs[k] == P.Execute(tasks, P.StartConfig(disk, tasks), schedule).locals[k].result
    ensures var b := BatchSelection.Select(q);
            var tasks := BatchOf(w, q, b);
            && P.Execute(tasks, P.StartConfig(disk, tasks), schedule).disk == P.Serial(tasks, disk, order).0
            && rs == OwnResults(w, q, b, disk)
  {
    hide P.Command;
    var b := BatchSelection.Select(q);
    var tasks := BatchOf(w, q, b);
    P.ParallelEqualsSerial(tasks, disk, schedule, order);
    forall k | 0 <= k < |b| ensures rs[k] == OwnResults(w, q, b, disk)[k] {
      P.OwnResult(tasks, disk, schedule, k);
    }
  }

  /** The queue once the failed tasks of the batch had their repair on disk `after`. */
  function Ended(w: World, q: seq<Task>, b: seq<nat>, disk: P.Disk, after: P.Disk): seq<Task>
    requires BatchSelection.InQueue(q, b)
  {
    AgentLoop.FinishAll(q, b, Outcomes(w, q, b, Repaired(w, q, b, after, OwnResults(w, q, b, disk)).1))
  }

  /** How every task of the selected batch ends: as its own action alone says, unless that failed and was
      repaired; a success is final, and a search is done exactly when it was let through and had a reply. */
  lemma SelectedTaskEnds(w: World, q: seq<Task>, disk: P.Disk, after: P.Disk, k: nat)
    requires BatchSelection.InQueue(q, BatchSelection.Select(q)) && k < |BatchSelection.Select(q)|
    ensures var b := BatchSelection.Select(q);
            var t, own, end := q[b[k]], P.Command(disk, FileTaskOf(w, q[b[k]])).1, Ended(w, q, b, disk, after)[b[k]];
            && (NeverRepaired(w, t, own) ==> end == AgentLoop.Finish(t, OutcomeOf(w, t, own)))
            && (!own.Failed? ==> end.status.Done?)
            && (t.tool == "search" ==> (end.status.Done? <==> !w.Refuses(t) && w.Search(t).Some?))
  {
    var b := BatchSelection.Select(q);
    BatchSelection.SelectIsSound(q);
    forall i, j | 0 <= i < j < |b| ensures b[i] != b[j] { assert BatchSelection.Independent(q, b[i], b[j]); }
    var t, own := q[b[k]], P.Command(disk, FileTaskOf(w, q[b[k]])).1;
    SuccessIsFinal(w, t, own);
    hide *;
    if NeverRepaired(w, t, own) {
      TaskEnds(w, q, b, disk, after, k);
    }
    if t.tool == "search" {
      SearchEnds(w, disk, t);
    }
  }

  lemma SuccessIsFinal(w: World, t: Task, r: P.Result)
    ensures t.tool == "search" || !r.Failed? ==> NeverRepaired(w, t, r)
    ensures !r.Failed? ==> AgentLoop.Finish(t, OutcomeOf(w, t, r)).status.Done?
  {
  }

  lemma TaskEnds(w: World, q: seq<Task>, b: seq<nat>, disk: P.Disk, after: P.Disk, k: nat)
    requires BatchSelection.InQueue(q, b) && k < |b| && forall i, j :: 0 <= i < j < |b| ==> b[i] != b[j]
    requires NeverRepaired(w, q[b[k]], P.Command(disk, FileTaskOf(w, q[b[k]])).1)
    ensures Ended(w, q, b, disk, after)[b[k]]
         == AgentLoop.Finish(q[b[k]], OutcomeOf(w, q[b[k]], P.Command(disk, FileTaskOf(w, q[b[k]])).1))
  {
    hide P.Command, Repaired;
    var rs := OwnResults(w, q, b, disk);
    UnrepairedStays(w, q, b, after, rs, k);
    OutcomeLandsOnItsTask(q, b, Outcomes(w, q, b, Repaired(w, q, b, after, rs).1), k);
  }

  lemma SearchEnds(w: World, disk: P.Disk, t: Task)
    requires t.tool == "search"
    ensures AgentLoop.Finish(t, OutcomeOf(w, t, P.Command(disk, FileTaskOf(w, t)).1)).status.Done?
        <==> !w.Refuses(t) && w.Search(t).Some?
  {
    hide P.Command;
    SearchAlone(w, disk, t);
  }

  /** A search succeeds exactly when it is let through and has a reply. */
  lemma SearchAlone(w: World, disk: P.Disk, t: Task)
    requires t.tool == "search"
    ensures P.Command(disk, FileTaskOf(w, t)).1
         == if !w.Refuses(t) && w.Search(t).Some? then P.Reply(w.Search(t).value) else P.Failed(P.SearchFailed)
  {
  }

  // ---------------------------------------------------------------- one file under two names

  /** A waiting write of `content` at `path`. */
  predicate WaitingWrite(t: Task, path: string, content: string) {
    && t.status.Todo? && t.tool == "filesystem" && t.action == "write_file"
    && t.path == path && t.content == content
  }

  /** The selector compares stripped raw paths, so it takes both of two writes whose names differ. */
  lemma DifferentNamesAreSelected(t: Task, u: Task)
    requires WaitingWrite(t, t.path, t.content) && WaitingWrite(u, u.path, u.content) && t.priority == u.priority
    requires Strip(t.path) != "" && Strip(u.path) != "" && Strip(t.path) != Strip(u.path)
    ensures BatchSelection.Select([t, u]) == [0, 1]
  {
    hide Strip;
    var q := [t, u];
    var one := BatchSelection.ScanQueue(q, 1);
    assert BatchSelection.ScanQueue(q, 0) == BatchSelection.Scan([], {});
    assert one == BatchSelection.Scan([BatchSelection.Candidate(0, true)], {Strip(t.path)});
    var cs := [BatchSelection.Candidate(0, true), BatchSelection.Candidate(1, true)];
    assert BatchSelection.ScanQueue(q, 2).found == cs;
    TwoWrites(q, cs);
  }

  lemma TwoWrites(q: seq<Task>, cs: seq<BatchSelection.Candidate>)
    requires |q| == 2 && q[0].priority == q[1].priority
    requires cs == [BatchSelection.Candidate(0, true), BatchSelection.Candidate(1, true)]
    ensures BatchSelection.Group(cs, true) == [0, 1] && BatchSelection.Group(cs, false) == []
    ensures BatchSelection.Ordered(q, cs) == [0, 1]
  {
    var rest := [BatchSelection.Candidate(1, true)];
    assert cs[1..] == rest && rest[1..] == [];
    assert BatchSelection.Group(rest, true) == [1] && BatchSelection.Group(rest, false) == [];
    assert [0, 1][1..] == [1] && [1][1..] == [];
    assert BatchSelection.AtPriority(q, [1], q[0].priority) == [1];
  }

  /** So the selected batch races whenever the two names resolve to one file: the outcome on the disk
      depends on which thread comes last. */
  lemma SelectedPairRaces(w: World, t: Task, u: Task, disk: P.Disk, p: P.Path)
    requires WaitingWrite(t, t.path, t.content) && WaitingWrite(u, u.path, u.content) && t.priority == u.priority
    requires Strip(t.path) != "" && Strip(u.path) != "" && Strip(t.path) != Strip(u.path)
    requires !w.Refuses(t) && !w.Refuses(u) && w.Resolve(t.path) == w.Resolve(u.path) == Some(p)
    requires t.content != u.content
    requires p != [] && P.ParentsClear(disk, p) && P.Look(disk, p) != Some(P.Dir)
    ensures BatchSelection.Select([t, u]) == [0, 1] && BatchSelection.InQueue([t, u], [0, 1])
    ensures var tasks := BatchOf(w, [t, u], [0, 1]);
            var start := P.StartConfig(disk, tasks);
            var one := P.Execute(tasks, start, P.SerialSchedule(tasks, [0, 1]));
            var two := P.Execute(tasks, start, P.SerialSchedule(tasks, [1, 0]));
            && P.Complete(one) && P.Complete(two) && one.disk != two.disk
            && P.Look(one.disk, p) == Some(P.File(u.content)) && P.Look(two.disk, p) == Some(P.File(t.content))
  {
    hide *;
    DifferentNamesAreSelected(t, u);
    TasksOfPair(w, t, u, p);
    P.SharedTargetRaces(disk, p, t.content, u.content);
  }

  lemma TasksOfPair(w: World, t: Task, u: Task, p: P.Path)
    requires WaitingWrite(t, t.path, t.content) && WaitingWrite(u, u.path, u.content)
    requires !w.Refuses(t) && !w.Refuses(u) && w.Resolve(t.path) == w.Resolve(u.path) == Some(p)
    ensures BatchSelection.InQueue([t, u], [0, 1])
    ensures BatchOf(w, [t, u], [0, 1])
         == [P.FileTask(Some(p), P.Write(t.content)), P.FileTask(Some(p), P.Write(u.content))]
  {
  }

  function WriteTask(id: string, priority: int, path: string, content: string): Task {
    Task(id, priority, "filesystem", Todo, "write_file", path, content, None)
  }

  /** The plainest such queue: the names "a" and "./a". */
  lemma DotSlashRaces(w: World, disk: P.Disk, priority: int, c: string, d: string)
    requires w.Resolve("a") == w.Resolve("./a") == Some(["a"]) && c != d && P.Look(disk, ["a"]) != Some(P.Dir)
    requires !w.Refuses(WriteTask("t", priority, "a", c)) && !w.Refuses(WriteTask("u", priority, "./a", d))
    ensures var q := [WriteTask("t", priority, "a", c), WriteTask("u", priority, "./a", d)];
            var tasks := BatchOf(w, q, [0, 1]);
            var start := P.StartConfig(disk, tasks);
            && BatchSelection.Select(q) == [0, 1]
            && P.Execute(tasks, start, P.SerialSchedule(tasks, [0, 1])).disk
               != P.Execute(tasks, start, P.SerialSchedule(tasks, [1, 0])).disk
  {
    NamesStayApart();
    hide Strip;
    assert P.ParentsClear(disk, ["a"]);
    SelectedPairRaces(w, WriteTask("t", priority, "a", c), WriteTask("u", priority, "./a", d), disk, ["a"]);
  }

  lemma NamesStayApart()
    ensures Strip("a") == "a" && Strip("./a") == "./a"
  {
  }
}
