/** The workflow nodes as the source writes them: methods that loop over the queue and change the
    request's state in place.  Each is proved against its step function in `AgentLoop`. */
module Workflows {

  import opened Tasks
  import opened TaskQueues
  import opened AgentLoop
  import BatchSelection
  import opened Options

  class Workflow {
    var node: Node
    var queue: seq<Task>
    var cycle: nat
    var replans: nat
    var verdict: Option<Verdict>
    var plan: Option<bool>
    var lastFailed: bool
    var stuckRounds: nat

    function View(): State
      reads this
    {
      State(node, queue, cycle, replans, verdict, plan, lastFailed, stuckRounds)
    }

    constructor ()
      ensures View() == Initial()
    {
      node, queue, cycle, replans := ConversationManager, [], 0, 0;
      verdict, plan, lastFailed, stuckRounds := None, None, false, 0;
    }

    method PlannerNode(env: Env, i: Input)
      requires i.PlannerCrash? || i.Planned?
      modifies this
      ensures View() == RunPlanner(env, old(View()), i)
    {
      var count := cycle + 1;
      if AnswersDirectly(env) {
        queue, plan := [], Some(true);
      } else if i.Planned? {
        var current := new TaskQueue(queue);
        for n := 0 to |i.tasks|
          invariant current.tasks == AddAll(old(queue), i.tasks[..n])
          invariant View() == old(View())
        {
          assert i.tasks[..n + 1][..n] == i.tasks[..n];
          AddSingle(current.tasks, i.tasks[n]);
          current.Add([i.tasks[n]]);
        }
        assert i.tasks[..|i.tasks|] == i.tasks;
        queue, plan := current.tasks, Some(i.goalCompleted || i.directAnswer);
      }
      var hasTodo := false;
      for n := 0 to |queue|
        invariant hasTodo <==> exists k :: 0 <= k < n && queue[k].status.Todo?
      {
        hasTodo := hasTodo || queue[n].status.Todo?;
      }
      if env.policy.PlannerShouldForceComplete(count, hasTodo, plan == Some(true)) {
        plan := if plan.None? then None else Some(true);
        verdict := Some(GoalDone);
      }
      cycle := count;
    }

    method QueryRewriterNode()
      modifies this`queue
      ensures queue == MarkFirstTodo(old(queue))
    {
      var n := 0;
      while n < |queue|
        invariant n <= |queue| && queue == old(queue)
        invariant forall k :: 0 <= k < n ==> !queue[k].status.Todo?
      {
        if queue[n].status.Todo? {
          queue := queue[n := queue[n].(status := Running)];
          return;
        }
        n := n + 1;
      }
    }

    method SearchNode()
      modifies this`queue
      ensures queue == FinishRunning(old(queue))
    {
      for n := 0 to |queue|
        invariant |queue| == |old(queue)|
        invariant forall k :: 0 <= k < |queue|
                              ==> queue[k] == if k < n then FinishRunning(old(queue))[k] else old(queue)[k]
      {
        if queue[n].status.Running? {
          queue := queue[n := queue[n].(status := Done)];
        }
      }
    }

    method ToolExecutorNode(outcomes: seq<Outcome>)
      requires |outcomes| == |Dispatch(queue)|
      modifies this`queue, this`lastFailed
      ensures View() == RunToolExecutor(old(View()), outcomes)
    {
      var batch := BatchSelection.SelectParallelTasks(queue);
      if |batch| > 1 {
        RunBatch(batch, outcomes);
      } else {
        RunNext(outcomes);
      }
    }

    /** Several independent tasks at once. */
    method RunBatch(batch: seq<nat>, outcomes: seq<Outcome>)
      requires batch == Dispatch(queue) && |outcomes| == |batch| > 0
      modifies this`queue, this`lastFailed
      ensures View() == RunToolExecutor(old(View()), outcomes)
    {
      DispatchInQueue(queue);
      hide Dispatch, FinishAll, Finish;
      ghost var before := queue;
      MarkRunning(batch);
      FinishIgnoresMarks(before, queue, batch, outcomes);
      RecordResults(batch, outcomes);
      lastFailed := outcomes[|outcomes| - 1].Failure?;
    }

    /** The single next task. */
    method RunNext(outcomes: seq<Outcome>)
      requires |BatchSelection.Select(queue)| <= 1 && |outcomes| == |Dispatch(queue)|
      modifies this`queue, this`lastFailed
      ensures View() == RunToolExecutor(old(View()), outcomes)
    {
      DispatchInQueue(queue);
      hide BatchSelection.Select;
      var next := NextTodo(queue);
      if next.None? {
        lastFailed := false;
        return;
      }
      queue := queue[next.value := queue[next.value].(status := Running)];
      queue := queue[next.value := Finish(queue[next.value], outcomes[0])];
      lastFailed := outcomes[0].Failure?;
      FinishSingle(old(queue), next.value, outcomes[0]);
      assert outcomes == [outcomes[0]];
    }

    /** Every task of the batch is shown as running before any of them runs. */
    method MarkRunning(batch: seq<nat>)
      requires BatchSelection.InQueue(queue, batch)
      modifies this`queue
      ensures |queue| == |old(queue)|
      ensures forall x :: 0 <= x < |queue|
                          ==> queue[x] == if x in batch then old(queue)[x].(status := Running) else old(queue)[x]
    {
      for n := 0 to |batch|
        invariant |queue| == |old(queue)|
        invariant forall x :: 0 <= x < |queue| ==>
          queue[x] == if x in batch[..n] then old(queue)[x].(status := Running) else old(queue)[x]
      {
        assert batch[..n + 1] == batch[..n] + [batch[n]];
        queue := queue[batch[n] := queue[batch[n]].(status := Running)];
      }
      assert batch[..|batch|] == batch;
    }

    /** Results are written back by index: the n-th result finishes the n-th task of the batch. */
    method RecordResults(batch: seq<nat>, outcomes: seq<Outcome>)
      requires |batch| == |outcomes| && BatchSelection.InQueue(queue, batch)
      modifies this`queue
      ensures queue == FinishAll(old(queue), batch, outcomes)
    {
      for n := 0 to |batch|
        invariant queue == FinishAll(old(queue), batch[..n], outcomes[..n])
      {
        assert batch[..n + 1][..n] == batch[..n] && outcomes[..n + 1][..n] == outcomes[..n];
        queue := queue[batch[n] := Finish(queue[batch[n]], outcomes[n])];
      }
      assert batch[..|batch|] == batch && outcomes[..|outcomes|] == outcomes;
    }

    method FindPythonTask() returns (r: Option<nat>)
      ensures r == PythonTask(queue)
    {
      for n := 0 to |queue|
        invariant forall k :: 0 <= k < n ==> !(queue[k].tool == "python" && queue[k].status in {Todo, Running})
      {
        if queue[n].tool == "python" && queue[n].status in {Todo, Running} {
          return Some(n);
        }
      }
      return None;
    }

    method PythonNode(i: Input)
      requires i.PythonCrash? || i.PythonRan?
      modifies this`queue, this`lastFailed
      ensures View() == RunPython(old(View()), i)
    {
      var task := FindPythonTask();
      if task.Some? {
        queue := queue[task.value := queue[task.value].(status := Running)];
      }
      if i.PythonCrash? {
        return;
      }
      if task.Some? {
        queue := queue[task.value := FinishPython(queue[task.value], i.outcome)];
      }
      lastFailed := task.Some? && i.outcome.Failure?;
    }

    method ReflectorNode(env: Env, i: Input)
      requires i.ReflectorCrash? || i.Reflected?
      modifies this
      ensures View() == RunReflector(env, old(View()), i)
    {
      if i.ReflectorCrash? { return; }
      var current := new TaskQueue(queue);
      if queue == [] {
        if env.goalType == "project" && i.generated != [] {
          current.Add(Seeds(i.generated));
          queue, verdict := current.tasks, Some(Continue);
        } else {
          verdict := Some(GoalDone);
        }
        return;
      }
      ApplyTo(current, i.reflection);
      var completed := i.reflection.goalCompleted;
      if (!completed && !HasTodo(current.tasks)) || (completed && !CreatesFiles(current.tasks)) {
        if i.generated != [] {
          completed := false;
          Refill(current, i.generated, false);
        } else {
          completed := true;
        }
      }
      if i.templateDone { completed := true; }
      queue := current.tasks;
      if completed {
        verdict := Some(GoalDone);
      } else if i.reflection.needReplan {
        replans := replans + 1;
        verdict := Some(Replan);
      } else {
        verdict := Some(Continue);
      }
    }

    method ApplyTo(current: TaskQueue, r: Reflection)
      modifies current
      ensures current.tasks == ApplyReflection(old(current.tasks), r)
    {
      for n := 0 to |r.updates|
        invariant current.tasks == ApplyUpdates(old(current.tasks), r.updates[..n])
      {
        assert r.updates[..n + 1][..n] == r.updates[..n];
        var u := r.updates[n];
        if u.taskId != "" {
          UpdateIsRevision(current.tasks, u.taskId, u.status, u.priority);
          var _ := current.Update(u.taskId, Keywords(u.status, u.priority));
        }
      }
      assert r.updates[..|r.updates|] == r.updates;
      Refill(current, r.newTasks, true);
      label refilled:
      for n := 0 to |r.removals|
        invariant current.tasks == RemoveAll(old@refilled(current.tasks), r.removals[..n])
      {
        assert r.removals[..n + 1][..n] == r.removals[..n];
        var _ := current.Remove(r.removals[n]);
      }
      assert r.removals[..|r.removals|] == r.removals;
    }

    method Refill(current: TaskQueue, ts: seq<Task>, needContent: bool)
      modifies current
      ensures current.tasks == AddMissing(old(current.tasks), ts, needContent)
    {
      for n := 0 to |ts|
        invariant current.tasks == AddMissing(old(current.tasks), ts[..n], needContent)
      {
        assert ts[..n + 1][..n] == ts[..n];
        var t := ts[n];
        var known := current.FindIndex(t.taskId);
        if t.taskId != "" && known.None? && !(needContent && LacksContent(t)) {
          AddSingle(current.tasks, Fresh(t));
          current.Add([Fresh(t)]);
        }
      }
      assert ts[..|ts|] == ts;
    }

    /** One visit of the current node and its router. */
    method Visit(env: Env, i: Input)
      requires Fits(View(), i)
      modifies this
      ensures View() == Step(env, old(View()), i)
    {
      match node
      case ConversationManager => node := GoalAnalyzer;
      case GoalAnalyzer => node := RouteAfterGoalAnalyzer(env);
      case KnowledgeAgent => node := Planner;
      case Planner => PlannerNode(env, i); node := RouteAfterPlanner(View());
      case QueryRewriter => QueryRewriterNode(); node := SearchAgent;
      case SearchAgent => SearchNode(); node := Answer;
      case ToolExecutor => ToolExecutorNode(i.outcomes); node := RouteAfterExecutor(View());
      case Python => PythonNode(i); node := RouteAfterExecutor(View());
      case Reflector =>
        ReflectorNode(env, i);
        var route := RouteAfterReflector(env.policy, View());
        if verdict == Some(Continue) && NextTodo(queue).None? && i.Reflected? && i.stuckPersists {
          stuckRounds := stuckRounds + 1;
        }
        node := route;
      case Answer => node := Memory;
      case Memory => node := End;
    }
  }

  /** Finishing a task that was marked as running is finishing the task. */
  lemma FinishMarked(t: Task, o: Outcome)
    ensures Finish(t.(status := Running), o) == Finish(t, o)
  {
  }

  lemma {:induction false} FinishIgnoresMark(q: seq<Task>, marked: seq<Task>, b: seq<nat>, os: seq<Outcome>, x: nat)
    requires |b| == |os| && BatchSelection.InQueue(q, b) && |marked| == |q| && x < |q|
    requires marked[x] == q[x] || marked[x] == q[x].(status := Running)
    ensures x in b ==> FinishAll(marked, b, os)[x] == FinishAll(q, b, os)[x]
  {
    if b != [] {
      var n := |b| - 1;
      FinishIgnoresMark(q, marked, b[..n], os[..n], x);
      FinishMarked(q[x], os[n]);
      hide Finish;
      assert b == b[..n] + [b[n]];
    }
  }

  lemma FinishIgnoresMarks(q: seq<Task>, marked: seq<Task>, b: seq<nat>, os: seq<Outcome>)
    requires |b| == |os| && BatchSelection.InQueue(q, b) && |marked| == |q|
    requires forall x :: 0 <= x < |q| ==> marked[x] == if x in b then q[x].(status := Running) else q[x]
    ensures FinishAll(marked, b, os) == FinishAll(q, b, os)
  {
    forall x | 0 <= x < |q| ensures FinishAll(marked, b, os)[x] == FinishAll(q, b, os)[x] {
      FinishIgnoresMark(q, marked, b, os, x);
    }
  }

  lemma AddSingle(q: seq<Task>, t: Task)
    ensures AddAll(q, [t]) == AddOne(q, t)
  {
    assert [t][..0] == [];
  }

  lemma FinishSingle(q: seq<Task>, k: nat, o: Outcome)
    requires k < |q|
    ensures FinishAll(q, [k], [o]) == q[k := Finish(q[k].(status := Running), o)]
  {
    assert [k][..0] == [] && [o][..0] == [];
  }
}
