/** How long a request can be: a potential that every node visit pays from, except for three kinds of wild
    visit, which cost at most two.  No run is excluded: the bounds count the wild visits. */
module Termination {

  import opened Tasks
  import opened TaskQueues
  import opened AgentLoop
  import BatchSelection
  import opened Options

  // ---------------------------------------------------------------- pending work

  predicate Waits(t: Task) {
    t.status in {Todo, Running}
  }

  /** Number of todo and running tasks. */
  function Outstanding(q: seq<Task>): nat {
    if q == [] then 0 else Outstanding(q[..|q| - 1]) + if Waits(q[|q| - 1]) then 1 else 0
  }

  function Max(a: int, b: int): int {
    if a >= b then a else b
  }

  lemma {:induction false} PendingUpdate(q: seq<Task>, k: nat, t: Task)
    requires k < |q|
    ensures Outstanding(q[k := t]) + (if Waits(q[k]) then 1 else 0) == Outstanding(q) + if Waits(t) then 1 else 0
  {
    var n := |q| - 1;
    if k == n {
      assert q[k := t][..n] == q[..n];
    } else {
      assert q[k := t][..n] == q[..n][k := t];
      PendingUpdate(q[..n], k, t);
    }
  }

  lemma PendingSnoc(q: seq<Task>, t: Task)
    ensures Outstanding(q + [t]) == Outstanding(q) + if Waits(t) then 1 else 0
  {
    assert (q + [t])[..|q|] == q;
  }

  lemma {:induction false} PendingConcat(a: seq<Task>, b: seq<Task>)
    ensures Outstanding(a + b) == Outstanding(a) + Outstanding(b)
  {
    if b == [] {
      assert a + b == a;
    } else {
      assert (a + b)[..|a + b| - 1] == a + b[..|b| - 1];
      PendingConcat(a, b[..|b| - 1]);
    }
  }

  lemma {:induction false} PendingAtLeastOne(q: seq<Task>, k: nat)
    requires k < |q| && Waits(q[k])
    ensures Outstanding(q) >= 1
  {
    if k < |q| - 1 { PendingAtLeastOne(q[..|q| - 1], k); }
  }

  /** Running a batch takes every one of its tasks out of the pending count. */
  lemma {:induction false} FinishAllPays(q: seq<Task>, b: seq<nat>, os: seq<Outcome>)
    requires |b| == |os| && BatchSelection.InQueue(q, b)
    requires forall k :: 0 <= k < |b| ==> q[b[k]].status.Todo?
    requires forall k, l :: 0 <= k < l < |b| ==> b[k] != b[l]
    ensures Outstanding(FinishAll(q, b, os)) + |b| == Outstanding(q)
  {
    if b != [] {
      var n := |b| - 1;
      FinishAllPays(q, b[..n], os[..n]);
      var before := FinishAll(q, b[..n], os[..n]);
      assert b[n] !in b[..n];
      PendingUpdate(before, b[n], Finish(before[b[n]], os[n]));
    }
  }

  lemma {:induction false} FinishRunningPays(q: seq<Task>)
    ensures Outstanding(FinishRunning(q)) <= Outstanding(q)
  {
    if q != [] {
      var n := |q| - 1;
      assert FinishRunning(q)[..n] == FinishRunning(q[..n]);
      FinishRunningPays(q[..n]);
    }
  }

  // ---------------------------------------------------------------- wild visits

  /** The reflector hands over to the planner because the next task is a "knowledge" task. */
  predicate KnowledgeBounce(t: State) {
    t.verdict == Some(Continue) && NextTodo(t.queue).Some? && t.queue[NextTodo(t.queue).value].tool == "knowledge"
  }

  /** No crash inside the python node, no reflector crash on top of an old replan verdict, and no
      "knowledge" task waiting on top when the reflector says to go on. */
  predicate Tame(env: Env, s: State, i: Input)
    requires Fits(s, i)
  {
    && !i.PythonCrash?
    && (i.ReflectorCrash? ==> s.verdict != Some(Replan))
    && (s.node.Reflector? ==> !KnowledgeBounce(RunReflector(env, s, i)))
  }

  /** What one visit adds to the count of wild ones. */
  function Wildness(env: Env, s: State, i: Input): nat
    requires Fits(s, i)
  {
    if Tame(env, s, i) then 0 else 1
  }

  /** The number of wild visits of a run. */
  function Wild(env: Env, s: State, inputs: seq<Input>): nat {
    if inputs == [] then 0
    else
      var n := |inputs| - 1;
      Wild(env, s, inputs[..n]) +
      match Run(env, s, inputs[..n])
      case Some(t) => if Fits(t, inputs[n]) then Wildness(env, t, inputs[n]) else 0
      case None => 0
  }

  // ---------------------------------------------------------------- budgets and potential

  /** Planner entries the reflector may still cause. */
  function Budget(p: Policy, s: State): nat {
    Max(0, p.reflectorPlannerCycleCap - s.cycle) + Max(0, p.maxReplanCount - 1 - s.replans)
  }

  /** Largest number of planner entries of any request. */
  function PlannerCap(p: Policy): nat {
    Max(1, p.reflectorPlannerCycleCap) + Max(0, p.maxReplanCount - 1)
  }

  predicate Starting(n: Node) {
    n.ConversationManager? || n.GoalAnalyzer? || n.KnowledgeAgent?
  }

  predicate UnpaidPlanner(p: Policy, s: State) {
    (s.node.Planner? || Starting(s.node)) && s.cycle >= p.reflectorPlannerCycleCap
  }

  function Offset(p: Policy, s: State): nat {
    match s.node
    case End => 0
    case Memory => 1
    case Answer => 2
    case SearchAgent => 3
    case QueryRewriter => 4
    case ToolExecutor => 4
    case Python => 4
    case Reflector => 5
    case Planner => if UnpaidPlanner(p, s) then 6 else 4
    case KnowledgeAgent => if UnpaidPlanner(p, s) then 7 else 5
    case GoalAnalyzer => if UnpaidPlanner(p, s) then 8 else 6
    case ConversationManager => if UnpaidPlanner(p, s) then 9 else 7
  }

  function Potential(p: Policy, s: State): nat {
    2 * Outstanding(s.queue) + 2 * Budget(p, s) + Offset(p, s)
  }

  /** Work put into the queue by one step. */
  function Queued(env: Env, s: State, i: Input): nat
    requires Fits(s, i)
  {
    Max(0, Outstanding(Step(env, s, i).queue) - Outstanding(s.queue))
  }

  function TotalQueued(env: Env, s: State, inputs: seq<Input>): nat {
    if inputs == [] then 0
    else
      var n := |inputs| - 1;
      TotalQueued(env, s, inputs[..n]) +
      match Run(env, s, inputs[..n])
      case Some(t) => if Fits(t, inputs[n]) then Queued(env, t, inputs[n]) else 0
      case None => 0
  }

  /** Holds at every state of every run from the initial state. */
  ghost predicate Inv(s: State) {
    && (s.node.ToolExecutor? ==> HasTodo(s.queue))
    && (s.node.Python? ==> PythonTask(s.queue).Some?)
    && s.verdict != Some(Retry)
    && (Starting(s.node) ==> s.cycle == 0)
  }

  // ---------------------------------------------------------------- one step pays

  lemma NextIsReady(q: seq<Task>)
    requires NextTodo(q).Some?
    ensures HasTodo(q)
    ensures q[NextTodo(q).value].tool == "python" ==> PythonTask(q).Some?
  {
  }

  /** A router that names an executor has seen a task for it. */
  ghost predicate ReadyFor(n: Node, q: seq<Task>) {
    && (n.ToolExecutor? ==> HasTodo(q))
    && (n.Python? ==> PythonTask(q).Some?)
  }

  lemma PlannerRoutes(t: State)
    ensures RouteAfterPlanner(t) in {Answer, Reflector, QueryRewriter, Python, ToolExecutor}
    ensures ReadyFor(RouteAfterPlanner(t), t.queue)
  {
    if NextTodo(t.queue).Some? { NextIsReady(t.queue); }
  }

  lemma ExecutorRoutes(t: State)
    ensures RouteAfterExecutor(t) in {Reflector, QueryRewriter, Python, ToolExecutor}
    ensures ReadyFor(RouteAfterExecutor(t), t.queue)
  {
    if NextTodo(t.queue).Some? { NextIsReady(t.queue); }
  }

  lemma PlannerPays(env: Env, s: State, i: Input)
    requires s.node.Planner? && Fits(s, i) && Inv(s)
    ensures Inv(Step(env, s, i))
    ensures Potential(env.policy, Step(env, s, i)) + 1 <= Potential(env.policy, s) + 2 * Queued(env, s, i)
  {
    hide RouteAfterPlanner, AddAll, AnswersDirectly, HasTodo, Outstanding, Dispatch;
    var t := RunPlanner(env, s, i);
    PlannerRoutes(t);
    assert t.cycle == s.cycle + 1 && t.replans == s.replans;
  }

  lemma ToolExecutorPays(env: Env, s: State, i: Input)
    requires s.node.ToolExecutor? && Fits(s, i) && Inv(s)
    ensures Inv(Step(env, s, i))
    ensures Outstanding(Step(env, s, i).queue) + 1 <= Outstanding(s.queue)
    ensures Potential(env.policy, Step(env, s, i)) + 1 <= Potential(env.policy, s)
  {
    hide RouteAfterExecutor, FinishAll, Dispatch, Outstanding;
    DispatchInQueue(s.queue);
    FinishAllPays(s.queue, Dispatch(s.queue), i.outcomes);
    ExecutorRoutes(RunToolExecutor(s, i.outcomes));
  }

  lemma PythonPays(env: Env, s: State, i: Input)
    requires s.node.Python? && Fits(s, i) && Inv(s)
    ensures Inv(Step(env, s, i))
    ensures Outstanding(Step(env, s, i).queue) + 1 <= Outstanding(s.queue) + Wildness(env, s, i)
    ensures Potential(env.policy, Step(env, s, i)) + 1 <= Potential(env.policy, s) + 2 * Wildness(env, s, i)
  {
    hide RouteAfterExecutor, Outstanding, RunPython, HasTodo, PythonTask;
    PythonCosts(s, i);
    ExecutorRoutes(RunPython(s, i));
  }

  /** A python visit finishes its task, or leaves it running in a crash. */
  lemma PythonCosts(s: State, i: Input)
    requires s.node.Python? && (i.PythonCrash? || i.PythonRan?) && PythonTask(s.queue).Some?
    ensures var t := RunPython(s, i);
            && t.cycle == s.cycle && t.replans == s.replans && t.verdict == s.verdict
            && Outstanding(t.queue) + (if i.PythonCrash? then 0 else 1) <= Outstanding(s.queue)
  {
    var k := PythonTask(s.queue).value;
    var task := if i.PythonCrash? then s.queue[k].(status := Running) else FinishPython(s.queue[k], i.outcome);
    PendingUpdate(s.queue, k, task);
    hide Outstanding;
  }

  /** Where the reflector can send a request, and that it sees a task for every executor it names. */
  lemma ReflectorRoutes(p: Policy, t: State)
    requires t.verdict != Some(Retry)
    ensures RouteAfterReflector(p, t) in {Answer, Planner, QueryRewriter, Python, ToolExecutor}
    ensures ReadyFor(RouteAfterReflector(p, t), t.queue)
  {
    if NextTodo(t.queue).Some? { NextIsReady(t.queue); }
  }

  lemma ReflectorPays(env: Env, s: State, i: Input)
    requires s.node.Reflector? && Fits(s, i) && Inv(s)
    ensures Inv(Step(env, s, i))
    ensures Potential(env.policy, Step(env, s, i)) + 1
         <= Potential(env.policy, s) + 2 * Queued(env, s, i) + 2 * Wildness(env, s, i)
  {
    hide RunReflector, Outstanding, HasTodo, PythonTask;
    ReflectorVerdict(env, s, i);
    ReflectorRoutes(env.policy, RunReflector(env, s, i));
  }

  lemma ReflectorVerdict(env: Env, s: State, i: Input)
    requires s.node.Reflector? && Fits(s, i) && s.verdict != Some(Retry)
    ensures var t := RunReflector(env, s, i);
            && t.verdict != Some(Retry) && t.cycle == s.cycle && t.node == s.node
            && t.replans == s.replans + (if i.Reflected? && t.verdict == Some(Replan) then 1 else 0)
            && (i.ReflectorCrash? ==> t == s)
  {
  }

  lemma SearchChainPays(env: Env, s: State, i: Input)
    requires s.node.QueryRewriter? || s.node.SearchAgent?
    requires Fits(s, i) && Inv(s)
    ensures Inv(Step(env, s, i))
    ensures Potential(env.policy, Step(env, s, i)) + 1 <= Potential(env.policy, s)
  {
    if s.node.SearchAgent? {
      FinishRunningPays(s.queue);
    } else if FirstTodo(s.queue).Some? {
      var k := FirstTodo(s.queue).value;
      PendingUpdate(s.queue, k, s.queue[k].(status := Running));
    }
  }

  /** Every visit lowers the potential by one, but for the work it queues and for two if it is wild. */
  lemma StepPays(env: Env, s: State, i: Input)
    requires Fits(s, i) && Inv(s)
    ensures Inv(Step(env, s, i))
    ensures Potential(env.policy, Step(env, s, i)) + 1
         <= Potential(env.policy, s) + 2 * Queued(env, s, i) + 2 * Wildness(env, s, i)
  {
    match s.node
    case Planner => PlannerPays(env, s, i);
    case ToolExecutor => ToolExecutorPays(env, s, i);
    case Python => PythonPays(env, s, i);
    case Reflector => ReflectorPays(env, s, i);
    case QueryRewriter => SearchChainPays(env, s, i);
    case SearchAgent => SearchChainPays(env, s, i);
    case _ =>
  }

  lemma {:induction false} RunPays(env: Env, inputs: seq<Input>)
    requires Run(env, Initial(), inputs).Some?
    ensures var s := Run(env, Initial(), inputs).value;
            && Inv(s)
            && Potential(env.policy, s) + |inputs|
               <= Potential(env.policy, Initial())
                  + 2 * TotalQueued(env, Initial(), inputs) + 2 * Wild(env, Initial(), inputs)
  {
    if inputs != [] {
      hide Step, Inv, Potential, Queued, Wildness;
      var n := |inputs| - 1;
      RunPays(env, inputs[..n]);
      StepPays(env, Run(env, Initial(), inputs[..n]).value, inputs[n]);
    } else {
      assert Inv(Initial());
    }
  }

  /** Main result, for every run whatever: a request visits at most 2 * (planner cap) + 7 nodes, plus two
      for every task that is ever put (back) into the queue and two for every wild visit.  The stuck
      counter plays no part.  A request without end thus has queued work or wild visits without end. */
  lemma EveryRunEnds(env: Env, inputs: seq<Input>)
    requires Run(env, Initial(), inputs).Some?
    ensures |inputs| <= 2 * PlannerCap(env.policy) + 7
                        + 2 * TotalQueued(env, Initial(), inputs) + 2 * Wild(env, Initial(), inputs)
  {
    RunPays(env, inputs);
  }

  /** Short of the end there is always a tame way on that queues nothing, so with the bound above every
      run that is carried on ends. */
  lemma NeverStuck(env: Env, s: State) returns (i: Input)
    requires Inv(s) && !s.node.End?
    ensures Fits(s, i) && Tame(env, s, i) && Inv(Step(env, s, i)) && Queued(env, s, i) == 0
  {
    DispatchInQueue(s.queue);
    var nothing := Reflection([], [], [], false, false);
    i := match s.node
      case Planner => Planned([], true, false)
      case ToolExecutor => Executed(seq(|Dispatch(s.queue)|, _ => Success))
      case Python => PythonRan(Success)
      case Reflector => Reflected(nothing, [], true, false)
      case _ => Tick;
    StepPays(env, s, i);
    match s.node
    case Reflector => NothingChanges(s.queue);
    case ToolExecutor => ToolExecutorPays(env, s, i);
    case Python => PythonPays(env, s, i);
    case QueryRewriter =>
      if FirstTodo(s.queue).Some? {
        var k := FirstTodo(s.queue).value;
        PendingUpdate(s.queue, k, s.queue[k].(status := Running));
      }
    case SearchAgent => FinishRunningPays(s.queue);
    case _ =>
  }

  lemma NothingChanges(q: seq<Task>)
    ensures ApplyReflection(q, Reflection([], [], [], false, false)) == q
  {
  }

  // ---------------------------------------------------------------- planner entries

  function PlannerVisits(env: Env, s: State, inputs: seq<Input>): nat {
    if inputs == [] then 0
    else
      var n := |inputs| - 1;
      PlannerVisits(env, s, inputs[..n]) +
      match Run(env, s, inputs[..n])
      case Some(t) => if t.node.Planner? then 1 else 0
      case None => 0
  }

  function EntriesLeft(p: Policy, s: State): nat {
    Budget(p, s) + if UnpaidPlanner(p, s) then 1 else 0
  }

  /** Only a wild visit leads to a planner entry that is not paid for. */
  lemma EntryIsPaid(env: Env, s: State, i: Input)
    requires Fits(s, i) && Inv(s)
    ensures EntriesLeft(env.policy, Step(env, s, i)) + (if s.node.Planner? then 1 else 0)
         <= EntriesLeft(env.policy, s) + Wildness(env, s, i)
  {
    hide RouteAfterPlanner, RouteAfterExecutor, AddAll, AnswersDirectly, FinishAll, Dispatch, HasTodo;
    match s.node
    case Planner => PlannerRoutes(RunPlanner(env, s, i));
    case ToolExecutor => DispatchInQueue(s.queue); ExecutorRoutes(RunToolExecutor(s, i.outcomes));
    case Python => ExecutorRoutes(RunPython(s, i));
    case Reflector => ReflectorEntryIsPaid(env, s, i);
    case _ =>
  }

  lemma ReflectorEntryIsPaid(env: Env, s: State, i: Input)
    requires s.node.Reflector? && Fits(s, i) && Inv(s)
    ensures EntriesLeft(env.policy, Step(env, s, i)) <= EntriesLeft(env.policy, s) + Wildness(env, s, i)
  {
    ReflectorVerdict(env, s, i);
    ReflectorRoutes(env.policy, RunReflector(env, s, i));
    hide RunReflector;
  }

  /** The planner is entered at most max(1, cycle cap) + max(0, max replans - 1) times, and once more for
      every wild visit. */
  lemma {:induction false} PlannerEntriesBounded(env: Env, inputs: seq<Input>)
    requires Run(env, Initial(), inputs).Some?
    ensures PlannerVisits(env, Initial(), inputs) + EntriesLeft(env.policy, Run(env, Initial(), inputs).value)
         <= PlannerCap(env.policy) + Wild(env, Initial(), inputs)
  {
    if inputs != [] {
      hide Step, Inv, EntriesLeft, Wildness;
      var n := |inputs| - 1;
      PlannerEntriesBounded(env, inputs[..n]);
      RunPays(env, inputs[..n]);
      EntryIsPaid(env, Run(env, Initial(), inputs[..n]).value, inputs[n]);
    }
  }

  // ---------------------------------------------------------------- executor stretches

  predicate Executes(n: Node) {
    n.ToolExecutor? || n.Python?
  }

  /** All of these inputs are consumed by executor nodes. */
  predicate ExecutorStretch(env: Env, s: State, inputs: seq<Input>) {
    if inputs == [] then true
    else
      var n := |inputs| - 1;
      && ExecutorStretch(env, s, inputs[..n])
      && Run(env, s, inputs[..n]).Some?
      && Executes(Run(env, s, inputs[..n]).value.node)
  }

  /** A stretch of executor steps is no longer than the number of todo and running tasks, plus its crashes
      of the python node. */
  lemma {:induction false} StretchBounded(env: Env, s: State, inputs: seq<Input>)
    requires Inv(s) && Run(env, s, inputs).Some? && ExecutorStretch(env, s, inputs)
    ensures Inv(Run(env, s, inputs).value)
    ensures |inputs| + Outstanding(Run(env, s, inputs).value.queue) <= Outstanding(s.queue) + Wild(env, s, inputs)
  {
    if inputs != [] {
      var n := |inputs| - 1;
      StretchBounded(env, s, inputs[..n]);
      var t := Run(env, s, inputs[..n]).value;
      if t.node.ToolExecutor? { ToolExecutorPays(env, t, inputs[n]); } else { PythonPays(env, t, inputs[n]); }
    }
  }

  // ---------------------------------------------------------------- the way out

  lemma Predecessors(env: Env, s: State, i: Input)
    requires Fits(s, i)
    ensures Step(env, s, i).node.End? ==> s.node.Memory?
    ensures Step(env, s, i).node.Memory? ==> s.node.Answer?
  {
    hide RouteAfterPlanner, RouteAfterExecutor, RunPlanner, RunPython, RunToolExecutor, RunReflector, Dispatch;
    match s.node
    case Planner => PlannerRoutes(RunPlanner(env, s, i));
    case ToolExecutor => ExecutorRoutes(RunToolExecutor(s, i.outcomes));
    case Python => ExecutorRoutes(RunPython(s, i));
    case _ =>
  }

  /** Whatever happened before, the request ends through answer and memory. */
  lemma EndsThroughAnswerAndMemory(env: Env, inputs: seq<Input>)
    requires Run(env, Initial(), inputs).Some? && Run(env, Initial(), inputs).value.node.End?
    ensures |inputs| >= 3
    ensures var n := |inputs|;
            && Run(env, Initial(), inputs[..n - 1]).Some? && Run(env, Initial(), inputs[..n - 1]).value.node.Memory?
            && Run(env, Initial(), inputs[..n - 2]).Some? && Run(env, Initial(), inputs[..n - 2]).value.node.Answer?
  {
    var n := |inputs|;
    Predecessors(env, Run(env, Initial(), inputs[..n - 1]).value, inputs[n - 1]);
    assert n - 1 > 0 && inputs[..n - 1][..n - 2] == inputs[..n - 2];
    Predecessors(env, Run(env, Initial(), inputs[..n - 2]).value, inputs[n - 2]);
    assert n - 2 > 0;
  }

  // ---------------------------------------------------------------- bounding the queued work

  /** How many task definitions and status changes an input carries. */
  function Requests(i: Input): nat {
    match i
    case Planned(ts, _, _) => |ts|
    case Reflected(r, gs, _, _) => |r.updates| + |r.newTasks| + |gs|
    case _ => 0
  }

  lemma AddOnePending(q: seq<Task>, t: Task)
    ensures Outstanding(AddOne(q, t)) <= Outstanding(q) + 1
  {
    match IndexOf(q, t.taskId)
    case None => PendingSnoc(q, t);
    case Some(k) => PendingUpdate(q, k, t);
  }

  lemma {:induction false} AddAllPending(q: seq<Task>, ts: seq<Task>)
    ensures Outstanding(AddAll(q, ts)) <= Outstanding(q) + |ts|
  {
    if ts != [] {
      AddAllPending(q, ts[..|ts| - 1]);
      AddOnePending(AddAll(q, ts[..|ts| - 1]), ts[|ts| - 1]);
    }
  }

  lemma {:induction false} UpdatesPending(q: seq<Task>, us: seq<TaskUpdate>)
    ensures Outstanding(ApplyUpdates(q, us)) <= Outstanding(q) + |us|
  {
    if us != [] {
      var n := |us| - 1;
      UpdatesPending(q, us[..n]);
      var before := ApplyUpdates(q, us[..n]);
      match IndexOf(before, us[n].taskId)
      case None =>
      case Some(k) => PendingUpdate(before, k, Revise(before[k], us[n].status, us[n].priority));
    }
  }

  lemma {:induction false} AddMissingPending(q: seq<Task>, ts: seq<Task>, needContent: bool)
    ensures Outstanding(AddMissing(q, ts, needContent)) <= Outstanding(q) + |ts|
  {
    if ts != [] {
      AddMissingPending(q, ts[..|ts| - 1], needContent);
      AddOnePending(AddMissing(q, ts[..|ts| - 1], needContent), Fresh(ts[|ts| - 1]));
    }
  }

  lemma RemovePending(q: seq<Task>, id: string)
    ensures Outstanding(RemoveId(q, id)) <= Outstanding(q)
  {
    match IndexOf(q, id)
    case None =>
    case Some(k) =>
      assert q == q[..k] + ([q[k]] + q[k + 1..]);
      PendingConcat(q[..k], [q[k]] + q[k + 1..]);
      PendingConcat([q[k]], q[k + 1..]);
      PendingConcat(q[..k], q[k + 1..]);
  }

  lemma {:induction false} RemoveAllPending(q: seq<Task>, ids: seq<string>)
    ensures Outstanding(RemoveAll(q, ids)) <= Outstanding(q)
  {
    if ids != [] {
      RemoveAllPending(q, ids[..|ids| - 1]);
      RemovePending(RemoveAll(q, ids[..|ids| - 1]), ids[|ids| - 1]);
    }
  }

  lemma {:induction false} SeedsSize(ts: seq<Task>)
    ensures |Seeds(ts)| <= |ts|
  {
    if ts != [] { SeedsSize(ts[..|ts| - 1]); }
  }

  lemma ReflectorQueued(env: Env, s: State, i: Input)
    requires s.node.Reflector? && Fits(s, i)
    ensures Outstanding(RunReflector(env, s, i).queue) <= Outstanding(s.queue) + Requests(i)
  {
    hide Outstanding, ReflectOnTasks;
    if i.Reflected? {
      if s.queue == [] {
        SeedsSize(i.generated);
        AddAllPending([], Seeds(i.generated));
        assert Outstanding([]) == 0 by { NothingPending(); }
      } else {
        ReflectOnTasksQueued(s, i);
      }
    }
  }

  lemma NothingPending()
    ensures Outstanding([]) == 0
  {
  }

  lemma ReflectOnTasksQueued(s: State, i: Input)
    requires i.Reflected?
    ensures Outstanding(ReflectOnTasks(s, i).queue) <= Outstanding(s.queue) + Requests(i)
  {
    hide Outstanding, ApplyUpdates, AddMissing, RemoveAll, HasTodo, CreatesFiles;
    var u := ApplyUpdates(s.queue, i.reflection.updates);
    var a := AddMissing(u, i.reflection.newTasks, true);
    UpdatesPending(s.queue, i.reflection.updates);
    AddMissingPending(u, i.reflection.newTasks, true);
    RemoveAllPending(a, i.reflection.removals);
    AddMissingPending(ApplyReflection(s.queue, i.reflection), i.generated, false);
  }

  /** A step queues no more tasks than its input asks for; executors and the search chain queue none. */
  lemma QueuedAtMostRequested(env: Env, s: State, i: Input)
    requires Fits(s, i) && Inv(s)
    ensures Queued(env, s, i) <= Requests(i)
  {
    match s.node
    case Planner => if i.Planned? { AddAllPending(s.queue, i.tasks); }
    case ToolExecutor => ToolExecutorPays(env, s, i);
    case Python => PythonPays(env, s, i);
    case Reflector => ReflectorQueued(env, s, i);
    case QueryRewriter =>
      if FirstTodo(s.queue).Some? {
        var k := FirstTodo(s.queue).value;
        PendingUpdate(s.queue, k, s.queue[k].(status := Running));
      }
    case SearchAgent => FinishRunningPays(s.queue);
    case _ =>
  }

  function TotalRequests(inputs: seq<Input>): nat {
    if inputs == [] then 0 else TotalRequests(inputs[..|inputs| - 1]) + Requests(inputs[|inputs| - 1])
  }

  lemma {:induction false} TotalQueuedAtMostRequested(env: Env, inputs: seq<Input>)
    requires Run(env, Initial(), inputs).Some?
    ensures TotalQueued(env, Initial(), inputs) <= TotalRequests(inputs)
  {
    if inputs != [] {
      var n := |inputs| - 1;
      TotalQueuedAtMostRequested(env, inputs[..n]);
      RunPays(env, inputs[..n]);
      QueuedAtMostRequested(env, Run(env, Initial(), inputs[..n]).value, inputs[n]);
    }
  }

  /** The same bound in terms of what planner and reflector asked for. */
  lemma EveryRunEndsByRequests(env: Env, inputs: seq<Input>)
    requires Run(env, Initial(), inputs).Some?
    ensures |inputs| <= 2 * PlannerCap(env.policy) + 7 + 2 * TotalRequests(inputs) + 2 * Wild(env, Initial(), inputs)
  {
    EveryRunEnds(env, inputs);
    TotalQueuedAtMostRequested(env, inputs);
  }
}
