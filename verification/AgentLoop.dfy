/** The goal-driven agent loop as a step system: the node graph and routers of
    agentflow/graph/workflow.py, the guards of agentflow/config/termination.py, the python node of
    agentflow/agents/python/agent.py and the reflector of agentflow/agents/reflection/agent.py.

    Whatever a language model, a tool or a template decides is an `Input`; everything else is `Step`. */
module AgentLoop {

  import opened Tasks
  import opened TaskQueues
  import BatchSelection
  import opened Options

  // ---------------------------------------------------------------- guards

  datatype Policy = Policy(
    maxPlannerCycles: int,
    maxReplanCount: int,
    maxStuckRounds: int,
    reflectorPlannerCycleCap: int)
  {
    predicate PlannerShouldForceComplete(cycle: nat, hasTodo: bool, planCompleted: bool) {
      !planCompleted && !hasTodo && cycle >= maxPlannerCycles
    }

    predicate ForceAnswerOnReplan(replans: nat) {
      replans >= maxReplanCount
    }

    predicate ForceAnswerWhenStuck(stuckRounds: nat, cycle: nat) {
      stuckRounds >= maxStuckRounds || cycle >= reflectorPlannerCycleCap
    }
  }

  // ---------------------------------------------------------------- state

  datatype Node =
    | ConversationManager | GoalAnalyzer | KnowledgeAgent | Planner | QueryRewriter | SearchAgent
    | ToolExecutor | Python | Reflector | Answer | Memory | End

  datatype Verdict = GoalDone | Continue | Replan | Retry

  /** What stays fixed during one request. */
  datatype Env = Env(policy: Policy, goalType: string, knowledgeSource: string, sourceMode: string)

  datatype State = State(
    node: Node,
    queue: seq<Task>,
    cycle: nat,
    replans: nat,
    verdict: Option<Verdict>,
    plan: Option<bool>,      // the plan's goal_completed-or-direct_answer flag, once there is a plan
    lastFailed: bool,        // the last entry of tool_results reports a failure
    stuckRounds: nat)

  function Initial(): State {
    State(ConversationManager, [], 0, 0, None, None, false, 0)
  }

  // ---------------------------------------------------------------- inputs

  datatype Outcome = Success | Failure(error: string)

  datatype TaskUpdate = TaskUpdate(taskId: string, status: Option<TaskStatus>, priority: Option<int>)

  /** A reflector decision: from the rules or from the model, after schema validation. */
  datatype Reflection = Reflection(
    updates: seq<TaskUpdate>,
    newTasks: seq<Task>,
    removals: seq<string>,
    goalCompleted: bool,
    needReplan: bool)

  datatype Input =
    | Tick
    | PlannerCrash
    | Planned(tasks: seq<Task>, goalCompleted: bool, directAnswer: bool)
    | Executed(outcomes: seq<Outcome>)
    | PythonCrash
    | PythonRan(outcome: Outcome)
    | ReflectorCrash
    | Reflected(reflection: Reflection, generated: seq<Task>, templateDone: bool, stuckPersists: bool)

  // ---------------------------------------------------------------- routing

  /** `ToolRegistry.get_node_for_tool`, with the router's fallback for unknown tools. */
  function NodeForTool(tool: string): Node {
    if tool == "search" then QueryRewriter else if tool == "python" then Python else ToolExecutor
  }

  function RouteAfterGoalAnalyzer(env: Env): Node {
    if env.sourceMode == "knowledge" then KnowledgeAgent
    else if env.goalType in {"other", "translation", "editing"} then Answer
    else if env.goalType in {"question", "analysis", "document"} then
      if env.knowledgeSource == "general" then Answer else KnowledgeAgent
    else Planner
  }

  function RouteAfterPlanner(s: State): Node {
    if s.verdict == Some(GoalDone) || s.plan == Some(true) then Answer
    else
      match NextTodo(s.queue)
      case None => Reflector
      case Some(i) => if s.queue[i].tool == "knowledge" then Reflector else NodeForTool(s.queue[i].tool)
  }

  function RouteAfterExecutor(s: State): Node {
    if s.lastFailed then Reflector
    else
      match NextTodo(s.queue)
      case None => Reflector
      case Some(i) => if s.queue[i].tool == "knowledge" then Reflector else NodeForTool(s.queue[i].tool)
  }

  function RouteAfterReflector(p: Policy, s: State): Node {
    match (if s.verdict.None? then GoalDone else s.verdict.value)
    case GoalDone => Answer
    case Replan => if p.ForceAnswerOnReplan(s.replans) then Answer else Planner
    case Retry => ToolExecutor
    case Continue =>
      match NextTodo(s.queue)
      case Some(i) => if s.queue[i].tool == "knowledge" then Planner else NodeForTool(s.queue[i].tool)
      case None => if p.ForceAnswerWhenStuck(s.stuckRounds + 1, s.cycle) then Answer else Planner
  }

  // ---------------------------------------------------------------- planner

  predicate AnswersDirectly(env: Env) {
    env.goalType in {"other", "translation", "editing", "question"}
  }

  /** The planner node: the agent's own run, then the forced completion of the wrapper. */
  function RunPlanner(env: Env, s: State, i: Input): State
    requires i.PlannerCrash? || i.Planned?
  {
    var queue := if AnswersDirectly(env) then [] else if i.PlannerCrash? then s.queue else AddAll(s.queue, i.tasks);
    var plan := if AnswersDirectly(env) then Some(true)
                else if i.PlannerCrash? then s.plan else Some(i.goalCompleted || i.directAnswer);
    var cycle := s.cycle + 1;
    if env.policy.PlannerShouldForceComplete(cycle, HasTodo(queue), plan == Some(true)) then
      s.(queue := queue, plan := if plan.None? then None else Some(true), cycle := cycle, verdict := Some(GoalDone))
    else
      s.(queue := queue, plan := plan, cycle := cycle)
  }

  // ---------------------------------------------------------------- executors

  function Finish(t: Task, o: Outcome): Task {
    match o
    case Success => t.(status := Done)
    case Failure(e) => t.(status := Failed, error := Some(if e == "" then "Unknown error" else e))
  }

  /** The tasks one visit of the tool executor runs: a parallel batch, else the next TODO. */
  function Dispatch(q: seq<Task>): (b: seq<nat>) {
    var batch := BatchSelection.Select(q);
    if |batch| > 1 then batch
    else
      match NextTodo(q)
      case None => []
      case Some(i) => [i]
  }

  function FinishAll(q: seq<Task>, b: seq<nat>, os: seq<Outcome>): (r: seq<Task>)
    requires |b| == |os| && BatchSelection.InQueue(q, b)
    ensures |r| == |q|
    ensures forall x :: 0 <= x < |q| && x !in b ==> r[x] == q[x]
    ensures forall x :: 0 <= x < |q| ==> r[x].taskId == q[x].taskId
    ensures forall x :: x in b ==> r[x].status in {Done, Failed}
  {
    if b == [] then q
    else
      var n := |b| - 1;
      var before := FinishAll(q, b[..n], os[..n]);
      assert b == b[..n] + [b[n]];
      before[b[n] := Finish(before[b[n]], os[n])]
  }

  function RunToolExecutor(s: State, os: seq<Outcome>): State
    requires |os| == |Dispatch(s.queue)|
  {
    DispatchInQueue(s.queue);
    s.(queue := FinishAll(s.queue, Dispatch(s.queue), os),
       lastFailed := os != [] && os[|os| - 1].Failure?)
  }

  /** First python task that is waiting or was left running. */
  function PythonTask(q: seq<Task>): (r: Option<nat>)
    ensures r.Some? ==> r.value < |q| && q[r.value].tool == "python" && q[r.value].status in {Todo, Running}
    ensures r.Some? ==> forall k :: 0 <= k < r.value ==> !(q[k].tool == "python" && q[k].status in {Todo, Running})
    ensures r.None? ==> forall k :: 0 <= k < |q| ==> !(q[k].tool == "python" && q[k].status in {Todo, Running})
  {
    if q == [] then None
    else
      var n := |q| - 1;
      var r := PythonTask(q[..n]);
      assert forall k :: 0 <= k < n ==> q[k] == q[..n][k];
      if r.Some? then r
      else if q[n].tool == "python" && q[n].status in {Todo, Running} then Some(n) else None
  }

  function FinishPython(t: Task, o: Outcome): Task {
    match o
    case Success => t.(status := Done)
    case Failure(e) => t.(status := Failed, error := if e == "" then t.error else Some(e))
  }

  /** A crash inside the python node leaves the task running and the earlier tool results in place. */
  function RunPython(s: State, i: Input): State
    requires i.PythonCrash? || i.PythonRan?
  {
    match PythonTask(s.queue)
    case None => if i.PythonCrash? then s else s.(lastFailed := false)
    case Some(k) =>
      if i.PythonCrash? then s.(queue := s.queue[k := s.queue[k].(status := Running)])
      else s.(queue := s.queue[k := FinishPython(s.queue[k], i.outcome)], lastFailed := i.outcome.Failure?)
  }

  // ---------------------------------------------------------------- search chain

  /** Position of the first TODO task, whatever its tool. */
  function FirstTodo(q: seq<Task>): (r: Option<nat>)
    ensures r.None? <==> !HasTodo(q)
    ensures r.Some? ==> r.value < |q| && q[r.value].status.Todo? && forall k :: 0 <= k < r.value ==> !q[k].status.Todo?
  {
    if q == [] then None
    else
      var n := |q| - 1;
      var r := FirstTodo(q[..n]);
      assert forall k :: 0 <= k < n ==> q[k] == q[..n][k];
      if r.Some? then r else if q[n].status.Todo? then Some(n) else None
  }

  function MarkFirstTodo(q: seq<Task>): seq<Task> {
    match FirstTodo(q)
    case None => q
    case Some(k) => q[k := q[k].(status := Running)]
  }

  function FinishRunning(q: seq<Task>): (r: seq<Task>)
    ensures |r| == |q|
    ensures forall k :: 0 <= k < |q| ==> r[k] == if q[k].status.Running? then q[k].(status := Done) else q[k]
  {
    seq(|q|, k requires 0 <= k < |q| => if q[k].status.Running? then q[k].(status := Done) else q[k])
  }

  // ---------------------------------------------------------------- reflector

  function ApplyUpdates(q: seq<Task>, us: seq<TaskUpdate>): seq<Task> {
    if us == [] then q
    else
      var n := |us| - 1;
      var before := ApplyUpdates(q, us[..n]);
      if us[n].taskId == "" then before else UpdateId(before, us[n].taskId, us[n].status, us[n].priority)
  }

  predicate LacksContent(t: Task) {
    t.tool == "filesystem" && t.action in {"write_file", "create_file"} && t.content == ""
  }

  function Fresh(t: Task): Task {
    t.(status := Todo, error := None)
  }

  /** Only ids the queue does not have yet are added, as TODO tasks. */
  function AddMissing(q: seq<Task>, ts: seq<Task>, needContent: bool): seq<Task> {
    if ts == [] then q
    else
      var n := |ts| - 1;
      var before := AddMissing(q, ts[..n], needContent);
      var t := ts[n];
      if t.taskId == "" || IndexOf(before, t.taskId).Some? || (needContent && LacksContent(t)) then before
      else AddOne(before, Fresh(t))
  }

  function RemoveAll(q: seq<Task>, ids: seq<string>): seq<Task> {
    if ids == [] then q else RemoveId(RemoveAll(q, ids[..|ids| - 1]), ids[|ids| - 1])
  }

  function ApplyReflection(q: seq<Task>, r: Reflection): seq<Task> {
    RemoveAll(AddMissing(ApplyUpdates(q, r.updates), r.newTasks, true), r.removals)
  }

  predicate CreatesFiles(q: seq<Task>) {
    exists k :: 0 <= k < |q| && q[k].action in {"write_file", "create_file", "append_file", "edit_file"}
  }

  /** The tasks written into an empty project queue: those with an id, all TODO. */
  function Seeds(ts: seq<Task>): seq<Task> {
    if ts == [] then []
    else Seeds(ts[..|ts| - 1]) + (if ts[|ts| - 1].taskId == "" then [] else [Fresh(ts[|ts| - 1])])
  }

  function ReflectOnEmpty(env: Env, s: State, i: Input): State
    requires i.Reflected?
  {
    if env.goalType == "project" && i.generated != [] then
      s.(queue := AddAll([], Seeds(i.generated)), verdict := Some(Continue))
    else
      s.(verdict := Some(GoalDone))
  }

  /** Apply the decision, refill a stuck queue, then decide how the loop goes on. */
  function ReflectOnTasks(s: State, i: Input): State
    requires i.Reflected?
  {
    var q := ApplyReflection(s.queue, i.reflection);
    var claimed := i.reflection.goalCompleted;
    var stuck := (!claimed && !HasTodo(q)) || (claimed && !CreatesFiles(q));
    var refilled := if stuck && i.generated != [] then AddMissing(q, i.generated, false) else q;
    var completed := (if stuck then i.generated == [] else claimed) || i.templateDone;
    if completed then s.(queue := refilled, verdict := Some(GoalDone))
    else if i.reflection.needReplan then s.(queue := refilled, replans := s.replans + 1, verdict := Some(Replan))
    else s.(queue := refilled, verdict := Some(Continue))
  }

  function RunReflector(env: Env, s: State, i: Input): State
    requires i.ReflectorCrash? || i.Reflected?
  {
    if i.ReflectorCrash? then s
    else if s.queue == [] then ReflectOnEmpty(env, s, i)
    else ReflectOnTasks(s, i)
  }

  // ---------------------------------------------------------------- one step

  predicate Fits(s: State, i: Input) {
    match s.node
    case Planner => i.PlannerCrash? || i.Planned?
    case ToolExecutor => i.Executed? && |i.outcomes| == |Dispatch(s.queue)|
    case Python => i.PythonCrash? || i.PythonRan?
    case Reflector => i.ReflectorCrash? || i.Reflected?
    case End => false
    case _ => i.Tick?
  }

  /** The stuck counter is bumped inside a router; whether that write survives is left open. */
  function AfterReflectorRoute(p: Policy, s: State, persists: bool): State {
    var stuckPath := s.verdict == Some(Continue) && NextTodo(s.queue).None?;
    s.(node := RouteAfterReflector(p, s), stuckRounds := s.stuckRounds + if stuckPath && persists then 1 else 0)
  }

  function Step(env: Env, s: State, i: Input): State
    requires Fits(s, i)
  {
    match s.node
    case ConversationManager => s.(node := GoalAnalyzer)
    case GoalAnalyzer => s.(node := RouteAfterGoalAnalyzer(env))
    case KnowledgeAgent => s.(node := Planner)
    case Planner => var t := RunPlanner(env, s, i); t.(node := RouteAfterPlanner(t))
    case QueryRewriter => s.(queue := MarkFirstTodo(s.queue), node := SearchAgent)
    case SearchAgent => s.(queue := FinishRunning(s.queue), node := Answer)
    case ToolExecutor => var t := RunToolExecutor(s, i.outcomes); t.(node := RouteAfterExecutor(t))
    case Python => var t := RunPython(s, i); t.(node := RouteAfterExecutor(t))
    case Reflector =>
      AfterReflectorRoute(env.policy, RunReflector(env, s, i), i.Reflected? && i.stuckPersists)
    case Answer => s.(node := Memory)
    case Memory => s.(node := End)
  }

  /** The state after a sequence of inputs, or None when some input does not fit its node. */
  function Run(env: Env, s: State, inputs: seq<Input>): Option<State> {
    if inputs == [] then Some(s)
    else
      match Run(env, s, inputs[..|inputs| - 1])
      case None => None
      case Some(t) => if Fits(t, inputs[|inputs| - 1]) then Some(Step(env, t, inputs[|inputs| - 1])) else None
  }

  // ---------------------------------------------------------------- elementary facts

  lemma DispatchInQueue(q: seq<Task>)
    ensures BatchSelection.InQueue(q, Dispatch(q))
    ensures forall k :: 0 <= k < |Dispatch(q)| ==> q[Dispatch(q)[k]].status.Todo?
    ensures forall k, l :: 0 <= k < l < |Dispatch(q)| ==> Dispatch(q)[k] != Dispatch(q)[l]
    ensures HasTodo(q) ==> Dispatch(q) != []
  {
    BatchSelection.SelectIsSound(q);
    var b := BatchSelection.Select(q);
    if |b| > 1 {
      forall k | 0 <= k < |b| ensures b[k] < |q| && q[b[k]].status.Todo? { assert BatchSelection.MayRun(q, b[k]); }
      forall k, l | 0 <= k < l < |b| ensures b[k] != b[l] { assert BatchSelection.Independent(q, b[k], b[l]); }
    }
  }
}
