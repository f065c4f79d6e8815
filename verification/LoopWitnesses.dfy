/** Runs of arbitrary length with one kind of wild visit each, whatever the policy.  Hardly anything is
    queued in the first two, and one task a round in the third, so no bound without a count of wild visits
    can hold: the guards of the source do not end these loops. */
module LoopWitnesses {

  import opened Tasks
  import opened TaskQueues
  import opened AgentLoop
  import opened Termination
  import BatchSelection
  import opened Options

  const PROJECT_START: seq<Input> := [Tick, Tick]

  function Waiting(id: string, tool: string, status: TaskStatus): Task {
    Task(id, 50, tool, status, "", "", "", None)
  }

  function ProjectEnv(p: Policy): Env {
    Env(p, "project", "local", "auto")
  }

  function AtNode(n: Node, q: seq<Task>, cycle: nat): State {
    State(n, q, cycle, 0, None, if cycle == 0 then None else Some(false), false, 0)
  }

  /** Two visits lead a project request from the start to its first planner entry. */
  lemma ProjectReachesPlanner(p: Policy)
    ensures Run(ProjectEnv(p), Initial(), PROJECT_START) == Some(AtNode(Planner, [], 0))
    ensures TotalQueued(ProjectEnv(p), Initial(), PROJECT_START) == 0
    ensures PlannerVisits(ProjectEnv(p), Initial(), PROJECT_START) == 0
    ensures Wild(ProjectEnv(p), Initial(), PROJECT_START) == 0
  {
    var e := ProjectEnv(p);
    FirstTicks(e);
    assert Run(e, Initial(), []) == Some(Initial()) && TotalQueued(e, Initial(), []) == 0;
    assert PlannerVisits(e, Initial(), []) == 0 && Wild(e, Initial(), []) == 0;
    hide Step, Queued, Wildness;
    RunSnoc(e, Initial(), [], Tick);
    assert [] + [Tick] == [Tick] && [Tick] + [Tick] == PROJECT_START;
    RunSnoc(e, Initial(), [Tick], Tick);
  }

  lemma FirstTicks(e: Env)
    requires RouteAfterGoalAnalyzer(e) == Planner
    ensures var s := Initial().(node := GoalAnalyzer);
            Step(e, Initial(), Tick) == s && Queued(e, Initial(), Tick) == 0
            && Step(e, s, Tick) == AtNode(Planner, [], 0) && Queued(e, s, Tick) == 0
            && Wildness(e, Initial(), Tick) == 0 && Wildness(e, s, Tick) == 0
  {
  }

  /** Appending one fitting input. */
  lemma RunSnoc(env: Env, s: State, inputs: seq<Input>, i: Input)
    requires Run(env, s, inputs).Some? && Fits(Run(env, s, inputs).value, i)
    ensures Run(env, s, inputs + [i]) == Some(Step(env, Run(env, s, inputs).value, i))
    ensures TotalQueued(env, s, inputs + [i]) == TotalQueued(env, s, inputs) + Queued(env, Run(env, s, inputs).value, i)
    ensures PlannerVisits(env, s, inputs + [i])
         == PlannerVisits(env, s, inputs) + if Run(env, s, inputs).value.node.Planner? then 1 else 0
    ensures Wild(env, s, inputs + [i]) == Wild(env, s, inputs) + Wildness(env, Run(env, s, inputs).value, i)
  {
    assert (inputs + [i])[..|inputs|] == inputs;
  }

  lemma SingleTodo(t: Task)
    requires t.status.Todo?
    ensures HasTodo([t]) && NextTodo([t]) == Some(0)
    ensures Outstanding([t]) == 1
  {
    assert [t][0].status.Todo?;
  }

  lemma AddToEmpty(t: Task)
    ensures AddAll([], [t]) == [t]
  {
    assert [t][..0] == [];
  }

  lemma AddTwoToEmpty(t: Task, u: Task)
    requires t.taskId != u.taskId
    ensures AddAll([], [t, u]) == [t, u]
  {
    assert [t, u][..1] == [t];
    AddToEmpty(t);
    assert IndexOf([t], u.taskId) == None;
  }

  /** The first plan of a request, with a task to do: its queue is set up and the router goes by its head. */
  lemma FreshPlan(e: Env, ts: seq<Task>, next: nat)
    requires !AnswersDirectly(e) && AddAll([], ts) == ts && HasTodo(ts) && NextTodo(ts) == Some(next) && next < |ts|
    ensures var s, i := AtNode(Planner, [], 0), Planned(ts, false, false);
            && Fits(s, i) && Queued(e, s, i) == Outstanding(ts) && Wildness(e, s, i) == 0
            && Step(e, s, i)
               == AtNode(if ts[next].tool == "knowledge" then Reflector else NodeForTool(ts[next].tool), ts, 1)
  {
    var s, i := AtNode(Planner, [], 0), Planned(ts, false, false);
    FreshPlanner(e, ts);
    FreshRoute(ts, next);
    NothingPending();
    hide *;
    PlannerVisit(e, s, i, AtNode(Planner, ts, 1));
  }

  lemma PlannerVisit(e: Env, s: State, i: Input, t: State)
    requires s.node.Planner? && i.Planned? && RunPlanner(e, s, i) == t
    ensures Fits(s, i) && Wildness(e, s, i) == 0
    ensures Step(e, s, i) == t.(node := RouteAfterPlanner(t))
    ensures Outstanding(s.queue) == 0 ==> Queued(e, s, i) == Outstanding(t.queue)
  {
    hide RunPlanner, RouteAfterPlanner, Outstanding;
  }

  lemma FreshRoute(ts: seq<Task>, next: nat)
    requires NextTodo(ts) == Some(next) && next < |ts|
    ensures var t := AtNode(Planner, ts, 1);
            var n := if ts[next].tool == "knowledge" then Reflector else NodeForTool(ts[next].tool);
            RouteAfterPlanner(t) == n && t.(node := n) == AtNode(n, ts, 1) && t.queue == ts
  {
    hide NextTodo, NodeForTool;
  }

  lemma FreshPlanner(e: Env, ts: seq<Task>)
    requires !AnswersDirectly(e) && AddAll([], ts) == ts && HasTodo(ts)
    ensures AtNode(Planner, [], 0).node.Planner? && AtNode(Planner, [], 0).queue == []
    ensures RunPlanner(e, AtNode(Planner, [], 0), Planned(ts, false, false)) == AtNode(Planner, ts, 1)
  {
    hide AddAll, HasTodo, AnswersDirectly;
  }

  const NOTHING: Reflection := Reflection([], [], [], false, false)

  /** A "knowledge" task on top sends the request from the reflector to the planner and back for ever,
      past every cap, although one single task is ever queued.  Every round has one wild visit. */
  lemma {:induction false} KnowledgeTaskLoops(p: Policy, n: nat) returns (inputs: seq<Input>)
    ensures |inputs| == 2 * n + 3
    ensures var r := Run(ProjectEnv(p), Initial(), inputs);
            r.Some? && r.value.node.Reflector? && r.value.queue == [Waiting("k", "knowledge", Todo)]
            && r.value.verdict in {None, Some(Continue)}
    ensures TotalQueued(ProjectEnv(p), Initial(), inputs) == 1
    ensures PlannerVisits(ProjectEnv(p), Initial(), inputs) == n + 1
    ensures Wild(ProjectEnv(p), Initial(), inputs) == n
  {
    var e := ProjectEnv(p);
    var k := Waiting("k", "knowledge", Todo);
    var none := Planned([], false, false);
    assert !AnswersDirectly(e);
    hide *;
    if n == 0 {
      ProjectReachesPlanner(p);
      KnowledgePlanned(e, k);
      RunSnoc(e, Initial(), PROJECT_START, Planned([k], false, false));
      inputs := PROJECT_START + [Planned([k], false, false)];
    } else {
      inputs := KnowledgeTaskLoops(p, n - 1);
      KnowledgeRound(e, Run(e, Initial(), inputs).value, k);
      RunSnoc(e, Initial(), inputs, Reflected(NOTHING, [], false, false));
      RunSnoc(e, Initial(), inputs + [Reflected(NOTHING, [], false, false)], none);
      inputs := inputs + [Reflected(NOTHING, [], false, false)] + [none];
    }
  }

  /** The plan that queues the task. */
  lemma KnowledgePlanned(e: Env, k: Task)
    requires !AnswersDirectly(e) && k.status.Todo? && k.tool == "knowledge"
    ensures var s, i := AtNode(Planner, [], 0), Planned([k], false, false);
            && Fits(s, i) && s.node.Planner? && Queued(e, s, i) == 1 && Wildness(e, s, i) == 0
            && var t := Step(e, s, i); t.node.Reflector? && t.queue == [k] && t.verdict == None
  {
    SingleTodo(k);
    AddToEmpty(k);
    FreshPlan(e, [k], 0);
    hide Step, Queued, Wildness, NextTodo, HasTodo, Outstanding, AddAll;
  }

  /** From the reflector to the planner and back, with nothing changed. */
  lemma KnowledgeRound(e: Env, s: State, k: Task)
    requires s.node.Reflector? && s.queue == [k] && k.status.Todo? && k.tool == "knowledge" && !AnswersDirectly(e)
    requires s.verdict in {None, Some(Continue)}
    ensures var back, t := Reflected(NOTHING, [], false, false), Step(e, s, Reflected(NOTHING, [], false, false));
            && Fits(s, back) && Fits(t, Planned([], false, false))
            && t.node.Planner? && t.queue == [k] && t.verdict == Some(Continue)
            && Queued(e, s, back) == 0 && Wildness(e, s, back) == 1
            && Queued(e, t, Planned([], false, false)) == 0 && Wildness(e, t, Planned([], false, false)) == 0
            && var u := Step(e, t, Planned([], false, false));
               u.node.Reflector? && u.queue == [k] && u.verdict == Some(Continue)
  {
    SingleTodo(k);
    NothingChanges([k]);
    hide ApplyReflection, Outstanding, NextTodo, HasTodo;
  }

  lemma CrashStep(e: Env, s: State, b: Task)
    requires s.node.Python? && !s.lastFailed && |s.queue| == 2
    requires s.queue[0].tool == "python" && s.queue[0].status in {Todo, Running}
    requires s.queue[1] == b && b.tool == "python" && b.status.Todo? && b.priority == s.queue[0].priority
    ensures Step(e, s, PythonCrash) == s.(queue := [s.queue[0].(status := Running), b])
    ensures Queued(e, s, PythonCrash) == 0 && Wildness(e, s, PythonCrash) == 1
  {
    var a, a' := s.queue[0], s.queue[0].(status := Running);
    assert s.queue == [a, b];
    TwoPythonTasks(a, b);
    TwoPythonTasks(a', b);
    assert s.queue[0 := a'] == [a', b];
  }

  lemma TwoPythonPlanned(e: Env, a: Task, b: Task)
    requires !AnswersDirectly(e) && a.taskId != b.taskId
    requires a.tool == b.tool == "python" && a.priority == b.priority && a.status.Todo? && b.status.Todo?
    ensures var s, i := AtNode(Planner, [], 0), Planned([a, b], false, false);
            Step(e, s, i) == AtNode(Python, [a, b], 1) && Queued(e, s, i) == 2 && Wildness(e, s, i) == 0
  {
    AddTwoToEmpty(a, b);
    TwoPythonTasks(a, b);
    FreshPlan(e, [a, b], 0);
    hide Step, Queued, Wildness, NextTodo, HasTodo, Outstanding, AddAll;
  }

  /** A python node that keeps crashing is entered for ever when two python tasks are queued: the crash
      leaves the first one running, and that one is found again instead of the waiting one. */
  lemma {:induction false} PythonCrashLoops(p: Policy, n: nat) returns (inputs: seq<Input>)
    ensures |inputs| == n + 4
    ensures Run(ProjectEnv(p), Initial(), inputs)
         == Some(AtNode(Python, [Waiting("a", "python", Running), Waiting("b", "python", Todo)], 1))
    ensures TotalQueued(ProjectEnv(p), Initial(), inputs) == 2
    ensures Wild(ProjectEnv(p), Initial(), inputs) == n + 1
  {
    hide Step, Queued, Wildness;
    var e := ProjectEnv(p);
    var a, b := Waiting("a", "python", Todo), Waiting("b", "python", Todo);
    if n == 0 {
      ProjectReachesPlanner(p);
      TwoPythonPlanned(e, a, b);
      var plan := Planned([a, b], false, false);
      RunSnoc(e, Initial(), PROJECT_START, plan);
      inputs := PROJECT_START + [plan];
    } else {
      inputs := PythonCrashLoops(p, n - 1);
    }
    CrashStep(e, Run(e, Initial(), inputs).value, b);
    RunSnoc(e, Initial(), inputs, PythonCrash);
    inputs := inputs + [PythonCrash];
  }

  lemma TwoPythonTasks(a: Task, b: Task)
    requires a.tool == b.tool == "python" && a.priority == b.priority
    requires a.status in {Todo, Running} && b.status.Todo?
    ensures HasTodo([a, b]) && NextTodo([a, b]) == Some(if a.status.Todo? then 0 else 1)
    ensures PythonTask([a, b]) == Some(0)
    ensures Outstanding([a, b]) == 2
  {
    assert [a, b][1].status.Todo?;
    assert [a, b][..1] == [a];
    assert [a, b] == [] + [a] + [b];
    PendingSnoc([] + [a], b);
    PendingSnoc([], a);
  }

  const GIT_TASK: Task := Waiting("t", "git", Todo)
  const GIT_FAILED: Task := Finish(GIT_TASK, Failure("x"))

  lemma GitTaskAlone()
    ensures NextTodo([GIT_TASK]) == Some(0) && HasTodo([GIT_TASK]) && Dispatch([GIT_TASK]) == [0]
    ensures FinishAll([GIT_TASK], [0], [Failure("x")]) == [GIT_FAILED]
    ensures AddAll([], [GIT_TASK]) == AddAll([GIT_FAILED], [GIT_TASK]) == [GIT_TASK]
  {
    SingleTodo(GIT_TASK);
    assert BatchSelection.ScanQueue([GIT_TASK], 1) == BatchSelection.ScanQueue([GIT_TASK], 0);
    assert [0][..0] == [] && [Failure("x")][..0] == [];
    AddToEmpty(GIT_TASK);
    assert [GIT_TASK][..0] == [];
    assert IndexOf([GIT_FAILED], "t") == Some(0);
  }

  /** Planner, then one failing git task, then the reflector. */
  lemma FailingRound(e: Env, s: State)
    requires s.node.Planner? && s.queue in {[], [GIT_FAILED]} && s.verdict != Some(GoalDone) && !AnswersDirectly(e)
    ensures var t := Step(e, s, Planned([GIT_TASK], false, false));
            t == s.(node := ToolExecutor, queue := [GIT_TASK], cycle := s.cycle + 1, plan := Some(false))
            && Fits(s, Planned([GIT_TASK], false, false)) && Fits(t, Executed([Failure("x")]))
            && Step(e, t, Executed([Failure("x")])) == FailedReflector(s)
            && Step(e, t, Executed([Failure("x")])) == t.(node := Reflector, queue := [GIT_FAILED], lastFailed := true)
            && Queued(e, s, Planned([GIT_TASK], false, false)) == 1 && Queued(e, t, Executed([Failure("x")])) == 0
            && Wildness(e, s, Planned([GIT_TASK], false, false)) == 0 && Wildness(e, t, Executed([Failure("x")])) == 0
  {
    GitTaskAlone();
    OneOrNone();
    hide Dispatch, AddAll, NextTodo, HasTodo, Outstanding, FinishAll;
  }

  lemma OneOrNone()
    ensures Outstanding([]) == 0 && Outstanding([GIT_TASK]) == 1 && Outstanding([GIT_FAILED]) == 0
  {
    assert [] + [GIT_TASK] == [GIT_TASK] && [] + [GIT_FAILED] == [GIT_FAILED];
    PendingSnoc([], GIT_TASK);
    PendingSnoc([], GIT_FAILED);
  }

  /** The stuck queue is refilled by nothing new, so the reflector asks for a new plan. */
  lemma AsksToReplan(e: Env, s: State)
    requires s.node.Reflector? && s.queue == [GIT_FAILED] && s.replans == 0 && e.policy.maxReplanCount >= 2
    ensures Step(e, s, Reflected(NOTHING.(needReplan := true), [GIT_TASK], false, false))
         == s.(node := Planner, replans := 1, verdict := Some(Replan))
    ensures Queued(e, s, Reflected(NOTHING.(needReplan := true), [GIT_TASK], false, false)) == 0
    ensures Wildness(e, s, Reflected(NOTHING.(needReplan := true), [GIT_TASK], false, false)) == 0
  {
    var r := NOTHING.(needReplan := true);
    assert ApplyUpdates(s.queue, r.updates) == s.queue;
    assert AddMissing(s.queue, r.newTasks, true) == s.queue;
    assert ApplyReflection(s.queue, r) == s.queue;
    assert !HasTodo(s.queue);
    assert [GIT_TASK][..0] == [];
    assert AddMissing(s.queue, [GIT_TASK], false) == s.queue by { assert IndexOf(s.queue, "t") == Some(0); }
  }

  /** A reflector that crashes on top of an old replan verdict re-enters the planner without raising the
      replan count: the planner is entered any number of times, whatever the caps.  Each round takes three
      visits and queues its task again, so the queued work alone pays for two of them. */
  lemma {:induction false} StaleReplanDefeatsTheCap(p: Policy, n: nat) returns (inputs: seq<Input>)
    requires p.maxReplanCount >= 2
    ensures var r := Run(ProjectEnv(p), Initial(), inputs);
            r.Some? && r.value.node.Planner? && r.value.verdict == Some(Replan) && r.value.replans == 1
            && r.value.queue == [GIT_FAILED]
    ensures PlannerVisits(ProjectEnv(p), Initial(), inputs) == n + 1
    ensures |inputs| == 3 * n + 5 && TotalQueued(ProjectEnv(p), Initial(), inputs) == n + 1
    ensures Wild(ProjectEnv(p), Initial(), inputs) == n
  {
    var e := ProjectEnv(p);
    assert !AnswersDirectly(e);
    hide Step, Queued, Wildness, AddAll, RunPlanner;
    if n == 0 {
      ProjectReachesPlanner(p);
      var t := FailedReflector(AtNode(Planner, [], 0));
      AsksToReplan(e, t);
      inputs := RoundSnoc(e, PROJECT_START, Reflected(NOTHING.(needReplan := true), [GIT_TASK], false, false));
    } else {
      inputs := StaleReplanDefeatsTheCap(p, n - 1);
      CrashKeepsReplan(e, FailedReflector(Run(e, Initial(), inputs).value));
      inputs := RoundSnoc(e, inputs, ReflectorCrash);
    }
  }

  /** The reflector's state after the git task failed in a round begun at `s`. */
  function FailedReflector(s: State): State {
    s.(node := Reflector, queue := [GIT_FAILED], cycle := s.cycle + 1, plan := Some(false), lastFailed := true)
  }

  /** Appending one such round. */
  lemma RoundSnoc(e: Env, inputs: seq<Input>, last: Input) returns (longer: seq<Input>)
    requires Run(e, Initial(), inputs).Some? && !AnswersDirectly(e)
    requires var s := Run(e, Initial(), inputs).value;
             s.node.Planner? && s.queue in {[], [GIT_FAILED]} && s.verdict != Some(GoalDone)
               && Fits(FailedReflector(s), last)
    ensures var s := Run(e, Initial(), inputs).value;
            && |longer| == |inputs| + 3
            && Run(e, Initial(), longer) == Some(Step(e, FailedReflector(s), last))
            && TotalQueued(e, Initial(), longer)
               == TotalQueued(e, Initial(), inputs) + 1 + Queued(e, FailedReflector(s), last)
            && PlannerVisits(e, Initial(), longer) == PlannerVisits(e, Initial(), inputs) + 1
            && Wild(e, Initial(), longer) == Wild(e, Initial(), inputs) + Wildness(e, FailedReflector(s), last)
  {
    var plan, ran := Planned([GIT_TASK], false, false), Executed([Failure("x")]);
    FailingRound(e, Run(e, Initial(), inputs).value);
    FailedNode(Run(e, Initial(), inputs).value);
    hide *;
    RunSnoc(e, Initial(), inputs, plan);
    RunSnoc(e, Initial(), inputs + [plan], ran);
    RunSnoc(e, Initial(), inputs + [plan] + [ran], last);
    longer := inputs + [plan] + [ran] + [last];
  }

  lemma FailedNode(s: State)
    ensures FailedReflector(s).node == Reflector
  {
  }

  lemma CrashKeepsReplan(e: Env, s: State)
    requires s.node.Reflector? && s.verdict == Some(Replan) && s.replans < e.policy.maxReplanCount
    ensures Step(e, s, ReflectorCrash) == s.(node := Planner)
    ensures Queued(e, s, ReflectorCrash) == 0 && Wildness(e, s, ReflectorCrash) == 1
  {
  }

  // ---------------------------------------------------------------- a search that is never made

  /** No executor has been visited so far. */
  ghost predicate Unexecuted(e: Env, inputs: seq<Input>) {
    inputs != [] ==>
      var front := inputs[..|inputs| - 1];
      Unexecuted(e, front) && Run(e, Initial(), front).Some? && !Executes(Run(e, Initial(), front).value.node)
  }

  lemma UnexecutedSnoc(e: Env, inputs: seq<Input>, s: State, i: Input)
    requires Run(e, Initial(), inputs) == Some(s) && Fits(s, i) && Unexecuted(e, inputs) && !Executes(s.node)
    ensures Run(e, Initial(), inputs + [i]) == Some(Step(e, s, i)) && Unexecuted(e, inputs + [i])
  {
    RunSnoc(e, Initial(), inputs, i);
    assert (inputs + [i])[..|inputs|] == inputs;
  }

  /** Planned ahead of a more urgent search, any other task ends done without an executor having seen it,
      and the search ends undone. */
  lemma TaskFinishedUnrun(p: Policy, t: Task, search: Task) returns (inputs: seq<Input>)
    requires t.status.Todo? && search.status.Todo? && search.tool == "search"
    requires t.taskId != search.taskId && t.priority < search.priority
    ensures Run(ProjectEnv(p), Initial(), inputs).Some? && Unexecuted(ProjectEnv(p), inputs)
    ensures var u := Run(ProjectEnv(p), Initial(), inputs).value;
            u.node.End? && u.queue == [t.(status := Done), search]
  {
    var e := ProjectEnv(p);
    var plan := Planned([t, search], false, false);
    SearchPlanned(e, t, search);
    SearchCloses(e, t, search);
    var s := AtNode(QueryRewriter, [t, search], 1);
    var started := s.(node := SearchAgent, queue := [t.(status := Running), search]);
    var ended := s.(node := Answer, queue := [t.(status := Done), search]);
    StartUnexecuted(p);
    hide *;
    inputs := PROJECT_START;
    UnexecutedSnoc(e, inputs, AtNode(Planner, [], 0), plan);
    inputs := inputs + [plan];
    UnexecutedSnoc(e, inputs, s, Tick);
    inputs := inputs + [Tick];
    UnexecutedSnoc(e, inputs, started, Tick);
    inputs := inputs + [Tick];
    UnexecutedSnoc(e, inputs, ended, Tick);
    inputs := inputs + [Tick];
    UnexecutedSnoc(e, inputs, ended.(node := Memory), Tick);
    inputs := inputs + [Tick];
  }

  lemma StartUnexecuted(p: Policy)
    ensures Run(ProjectEnv(p), Initial(), PROJECT_START) == Some(AtNode(Planner, [], 0))
    ensures Unexecuted(ProjectEnv(p), PROJECT_START)
  {
    var e := ProjectEnv(p);
    FirstTicks(e);
    assert Run(e, Initial(), []) == Some(Initial()) && Unexecuted(e, []);
    hide Step, Unexecuted;
    UnexecutedSnoc(e, [], Initial(), Tick);
    assert [] + [Tick] == [Tick] && [Tick] + [Tick] == PROJECT_START;
    UnexecutedSnoc(e, [Tick], Initial().(node := GoalAnalyzer), Tick);
  }

  lemma SearchPlanned(e: Env, t: Task, search: Task)
    requires t.status.Todo? && search.status.Todo? && search.tool == "search" && !AnswersDirectly(e)
    requires t.taskId != search.taskId && t.priority < search.priority
    ensures Step(e, AtNode(Planner, [], 0), Planned([t, search], false, false)) == AtNode(QueryRewriter, [t, search], 1)
    ensures FirstTodo([t, search]) == Some(0)
  {
    AddTwoToEmpty(t, search);
    LaterIsNext(t, search);
    FreshPlan(e, [t, search], 1);
    hide Step, Queued, Wildness, NextTodo, HasTodo, Outstanding, AddAll, FirstTodo;
  }

  lemma LaterIsNext(t: Task, u: Task)
    requires t.status.Todo? && u.status.Todo? && t.priority < u.priority
    ensures NextTodo([t, u]) == Some(1) && FirstTodo([t, u]) == Some(0) && HasTodo([t, u])
  {
    assert [t, u][0].status.Todo? && [t, u][1].status.Todo?;
  }

  /** The four visits that close the request. */
  lemma SearchCloses(e: Env, t: Task, search: Task)
    requires t.status.Todo? && search.status.Todo? && FirstTodo([t, search]) == Some(0)
    ensures var s := AtNode(QueryRewriter, [t, search], 1);
            var started := [t.(status := Running), search];
            var ended := [t.(status := Done), search];
            && Step(e, s, Tick) == s.(node := SearchAgent, queue := started)
            && Step(e, s.(node := SearchAgent, queue := started), Tick) == s.(node := Answer, queue := ended)
            && Step(e, s.(node := Answer, queue := ended), Tick) == s.(node := Memory, queue := ended)
            && Step(e, s.(node := Memory, queue := ended), Tick) == s.(node := End, queue := ended)
  {
    var q := [t, search];
    assert q[0 := t.(status := Running)] == [t.(status := Running), search];
    assert FinishRunning([t.(status := Running), search]) == [t.(status := Done), search];
  }
}
