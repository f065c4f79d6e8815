/** What one visit of a node does to a request and where it leads next, over all runs: the routers of
    agentflow/graph/workflow.py, the guards of agentflow/config/termination.py, and the nodes. */
module LoopLaws {

  import opened Tasks
  import opened TaskQueues
  import opened AgentLoop
  import opened ReflectionEffects
  import BatchSelection
  import StickyDone
  import Termination
  import opened Options

  /** Task `k` is the one to run next: the first of those that wait with the highest priority. */
  ghost predicate Head(q: seq<Task>, k: nat) {
    && k < |q| && q[k].status.Todo?
    && (forall j :: 0 <= j < |q| && q[j].status.Todo? ==> q[j].priority <= q[k].priority)
    && (forall j :: 0 <= j < k && q[j].status.Todo? ==> q[j].priority < q[k].priority)
  }

  ghost predicate NothingWaits(q: seq<Task>) {
    forall j :: 0 <= j < |q| ==> !q[j].status.Todo?
  }

  /** A task of this tool leads to this node; a knowledge task, which no executor takes, to `other`. */
  predicate Leads(tool: string, node: Node, other: Node) {
    && (tool == "knowledge" ==> node == other)
    && (tool == "search" ==> node == QueryRewriter)
    && (tool == "python" ==> node == Python)
    && (tool !in {"knowledge", "search", "python"} ==> node == ToolExecutor)
  }

  /** The next node goes by the head of the queue; with nothing waiting it is `idle`. */
  ghost predicate GoesByHead(q: seq<Task>, node: Node, knowledge: Node, idle: Node) {
    && (NothingWaits(q) ==> node == idle)
    && (forall k: nat :: Head(q, k) ==> Leads(q[k].tool, node, knowledge))
  }

  /** There is a head, and only one, exactly when something waits. */
  lemma HeadIs(q: seq<Task>)
    ensures NextTodo(q).None? <==> NothingWaits(q)
    ensures NothingWaits(q) <==> forall k: nat :: !Head(q, k)
    ensures forall k: nat :: Head(q, k) <==> NextTodo(q) == Some(k)
  {
    if NextTodo(q).Some? {
      assert Head(q, NextTodo(q).value);
    }
    forall k: nat | Head(q, k) ensures NextTodo(q) == Some(k) {
      assert NextTodo(q).Some? && NextTodo(q).value >= k && NextTodo(q).value <= k;
    }
  }

  // ---------------------------------------------------------------- goal analysis

  /** Without a wish for the knowledge base, six goal types are answered at once and all others planned. */
  lemma GoalAnalysisLeads(env: Env, s: State)
    requires s.node.GoalAnalyzer?
    ensures var t := Step(env, s, Tick);
            && t == s.(node := t.node)
            && (t.node.KnowledgeAgent? <==>
                  || env.sourceMode == "knowledge"
                  || (env.goalType in {"question", "analysis", "document"} && env.knowledgeSource != "general"))
            && (t.node.Answer? <==>
                  && env.sourceMode != "knowledge"
                  && (|| env.goalType in {"other", "translation", "editing"}
                      || (env.goalType in {"question", "analysis", "document"} && env.knowledgeSource == "general")))
            && (t.node.Planner? <==>
                  && env.sourceMode != "knowledge"
                  && env.goalType !in {"other", "translation", "editing", "question", "analysis", "document"})
  {
  }

  // ---------------------------------------------------------------- the planner

  /** The goal needs no work. */
  predicate NeedsNoWork(env: Env) {
    env.goalType in {"other", "translation", "editing", "question"}
  }

  /** The plan after the visit says that the goal is reached or the answer direct. */
  predicate SaysDone(env: Env, s: State, i: Input) {
    NeedsNoWork(env) || (i.Planned? && (i.goalCompleted || i.directAnswer)) || (i.PlannerCrash? && s.plan == Some(true))
  }

  /** The cap has been reached with nothing to do. */
  ghost predicate CapForces(env: Env, s: State, i: Input, after: seq<Task>) {
    !SaysDone(env, s, i) && NothingWaits(after) && s.cycle + 1 >= env.policy.maxPlannerCycles
  }

  /** What a planner visit changes besides the queue. */
  lemma PlannerVisitIs(env: Env, s: State, i: Input)
    requires s.node.Planner? && Fits(s, i)
    ensures var t := Step(env, s, i);
            && t.cycle == s.cycle + 1 && t.replans == s.replans && t.lastFailed == s.lastFailed
            && t.stuckRounds == s.stuckRounds
            && (NeedsNoWork(env) ==> t.queue == [])
            && (!NeedsNoWork(env) && i.PlannerCrash? ==> t.queue == s.queue)
            && (!NeedsNoWork(env) && i.Planned? ==> t.queue == AddAll(s.queue, i.tasks))
            && t.verdict == (if CapForces(env, s, i, t.queue) then Some(GoalDone) else s.verdict)
            && (CapForces(env, s, i, t.queue) ==>
                  t.plan == if i.PlannerCrash? && s.plan.None? then None else Some(true))
            && (!CapForces(env, s, i, t.queue) ==>
                  t.plan == if i.PlannerCrash? && !NeedsNoWork(env) then s.plan else Some(SaysDone(env, s, i)))
  {
    hide RouteAfterPlanner, AddAll, NextTodo;
    var queue := if AnswersDirectly(env) then [] else if i.PlannerCrash? then s.queue else AddAll(s.queue, i.tasks);
    assert HasTodo(queue) <==> !NothingWaits(queue);
    hide HasTodo, NothingWaits;
  }

  /** From the planner the request goes to the answer exactly when the plan says it is done, the cap is
      reached with nothing to do, or it was forced before; otherwise the head of the queue decides, and with
      nothing waiting the reflector. */
  lemma PlannerLeads(env: Env, s: State, i: Input)
    requires s.node.Planner? && Fits(s, i)
    ensures var t := Step(env, s, i);
            && (t.node.Answer? <==> SaysDone(env, s, i) || CapForces(env, s, i, t.queue) || s.verdict == Some(GoalDone))
            && (!t.node.Answer? ==> GoesByHead(t.queue, t.node, Reflector, Reflector))
  {
    PlannerVisitIs(env, s, i);
    hide RunPlanner, CapForces, SaysDone;
    var t := RunPlanner(env, s, i);
    HeadIs(t.queue);
    hide NextTodo, Head, NothingWaits;
  }

  // ---------------------------------------------------------------- the executors

  /** The last result of the visit is a failure; a crash leaves the earlier results in place. */
  predicate LastResultFailed(s: State, i: Input) {
    || (i.Executed? && i.outcomes != [] && i.outcomes[|i.outcomes| - 1].Failure?)
    || (i.PythonRan? && i.outcome.Failure?)
    || (i.PythonCrash? && s.lastFailed)
  }

  /** Over all runs: after an executor visit whose last result is a failure the reflector comes next;
      otherwise the head of the queue decides, and with nothing waiting the reflector. */
  lemma ExecutorLeads(env: Env, inputs: seq<Input>, i: Input)
    requires Run(env, Initial(), inputs).Some?
    requires var s := Run(env, Initial(), inputs).value; s.node in {ToolExecutor, Python} && Fits(s, i)
    ensures var s := Run(env, Initial(), inputs).value;
            var t := Step(env, s, i);
            && t.lastFailed == LastResultFailed(s, i)
            && (LastResultFailed(s, i) ==> t.node.Reflector?)
            && (!LastResultFailed(s, i) ==> GoesByHead(t.queue, t.node, Reflector, Reflector))
  {
    var s := Run(env, Initial(), inputs).value;
    Termination.RunPays(env, inputs);
    RouteIs(env, s, i);
  }

  lemma RouteIs(env: Env, s: State, i: Input)
    requires Termination.Inv(s) && s.node in {ToolExecutor, Python} && Fits(s, i)
    ensures var t := Step(env, s, i);
            && t.lastFailed == LastResultFailed(s, i)
            && (LastResultFailed(s, i) ==> t.node.Reflector?)
            && (!LastResultFailed(s, i) ==> GoesByHead(t.queue, t.node, Reflector, Reflector))
  {
    var t := if s.node.Python? then RunPython(s, i) else RunToolExecutor(s, i.outcomes);
    VisitThenRoute(env, s, i, t);
    ResultIs(s, i, t);
    RouteByHead(t);
    hide *;
  }

  lemma VisitThenRoute(env: Env, s: State, i: Input, t: State)
    requires s.node in {ToolExecutor, Python} && Fits(s, i)
    requires t == if s.node.Python? then RunPython(s, i) else RunToolExecutor(s, i.outcomes)
    ensures var u := Step(env, s, i);
            u == t.(node := RouteAfterExecutor(t)) && u.queue == t.queue && u.lastFailed == t.lastFailed
  {
    hide RunPython, RunToolExecutor, RouteAfterExecutor, Dispatch;
  }

  lemma ResultIs(s: State, i: Input, t: State)
    requires Termination.Inv(s) && s.node in {ToolExecutor, Python} && Fits(s, i)
    requires t == if s.node.Python? then RunPython(s, i) else RunToolExecutor(s, i.outcomes)
    ensures t.lastFailed == LastResultFailed(s, i)
  {
    hide FinishAll, Dispatch, FinishPython, HasTodo;
  }

  lemma RouteByHead(t: State)
    ensures t.lastFailed ==> RouteAfterExecutor(t).Reflector?
    ensures !t.lastFailed ==> GoesByHead(t.queue, RouteAfterExecutor(t), Reflector, Reflector)
  {
    HeadIs(t.queue);
    hide NextTodo, Head, NothingWaits;
  }

  /** Task `u` is `t` finished with this outcome. */
  predicate FinishedAs(t: Task, o: Outcome, u: Task) {
    && (o.Success? <==> u.status == Done)
    && (o.Failure? ==> u.status == Failed && u.error == Some(if o.error != "" then o.error else "Unknown error"))
    && u == t.(status := u.status, error := if o.Success? then t.error else u.error)
  }

  /** The tasks an executor visit takes: what the batch selector forms, else the head alone. */
  ghost predicate TakesTasks(q: seq<Task>, b: seq<nat>) {
    && (|BatchSelection.Select(q)| >= 2 ==> b == BatchSelection.Select(q))
    && (|BatchSelection.Select(q)| < 2 ==>
          if NothingWaits(q) then b == [] else |b| == 1 && Head(q, b[0]))
  }

  /** An executor visit finishes the tasks it takes, each with its own outcome, and changes no other. */
  lemma ExecutorVisitIs(env: Env, s: State, i: Input) returns (b: seq<nat>)
    requires s.node.ToolExecutor? && Fits(s, i)
    ensures var t := Step(env, s, i);
            && TakesTasks(s.queue, b) && |b| == |i.outcomes| && |t.queue| == |s.queue|
            && (forall k :: 0 <= k < |b| ==>
                  b[k] < |s.queue| && FinishedAs(s.queue[b[k]], i.outcomes[k], t.queue[b[k]]))
            && (forall x :: 0 <= x < |s.queue| && x !in b ==> t.queue[x] == s.queue[x])
            && t == s.(node := t.node, queue := t.queue, lastFailed := t.lastFailed)
  {
    b := Dispatch(s.queue);
    assert i.Executed? && |i.outcomes| == |b|;
    DispatchInQueue(s.queue);
    DispatchTakes(s.queue);
    AllFinish(s.queue, b, i.outcomes);
    VisitThenRoute(env, s, i, RunToolExecutor(s, i.outcomes));
    OnlyTheQueue(s, i.outcomes);
    hide *;
  }

  lemma OnlyTheQueue(s: State, os: seq<Outcome>)
    requires |os| == |Dispatch(s.queue)|
    ensures BatchSelection.InQueue(s.queue, Dispatch(s.queue))
    ensures var t := RunToolExecutor(s, os);
            t == s.(queue := FinishAll(s.queue, Dispatch(s.queue), os), lastFailed := t.lastFailed)
  {
    DispatchInQueue(s.queue);
    hide Dispatch, FinishAll;
  }

  lemma DispatchTakes(q: seq<Task>)
    ensures TakesTasks(q, Dispatch(q))
  {
    HeadIs(q);
    hide NextTodo, Head, NothingWaits, BatchSelection.Select;
  }

  lemma AllFinish(q: seq<Task>, b: seq<nat>, os: seq<Outcome>)
    requires |b| == |os| && BatchSelection.InQueue(q, b) && forall i, j :: 0 <= i < j < |b| ==> b[i] != b[j]
    ensures forall k :: 0 <= k < |b| ==> FinishedAs(q[b[k]], os[k], FinishAll(q, b, os)[b[k]])
  {
    forall k | 0 <= k < |b| ensures FinishedAs(q[b[k]], os[k], FinishAll(q, b, os)[b[k]]) {
      LandsOn(q, b, os, k);
      FinishIs(q[b[k]], os[k]);
      hide *;
    }
  }

  lemma FinishIs(t: Task, o: Outcome)
    ensures FinishedAs(t, o, Finish(t, o))
  {
  }

  lemma {:induction false} LandsOn(q: seq<Task>, b: seq<nat>, os: seq<Outcome>, k: nat)
    requires |b| == |os| && BatchSelection.InQueue(q, b) && k < |b|
    requires forall i, j :: 0 <= i < j < |b| ==> b[i] != b[j]
    ensures FinishAll(q, b, os)[b[k]] == Finish(q[b[k]], os[k])
  {
    hide Finish;
    var n := |b| - 1;
    assert b == b[..n] + [b[n]];
    assert b[n] !in b[..n];
    if k < n {
      LandsOn(q, b[..n], os[..n], k);
      assert b[..n][k] == b[k] && os[..n][k] == os[k] && b[k] != b[n];
    }
  }

  /** Task `k` is the first python task that waits or was left running. */
  ghost predicate FirstPython(q: seq<Task>, k: nat) {
    && k < |q| && q[k].tool == "python" && q[k].status in {Todo, Running}
    && forall j :: 0 <= j < k ==> !(q[j].tool == "python" && q[j].status in {Todo, Running})
  }

  /** Over all runs: a python visit has such a task; it ends done exactly when the outcome is a success,
      failed with the outcome's error when not, and running when the node crashes.  Nothing else changes. */
  lemma PythonVisitIs(env: Env, inputs: seq<Input>, i: Input) returns (k: nat)
    requires Run(env, Initial(), inputs).Some?
    requires var s := Run(env, Initial(), inputs).value; s.node.Python? && Fits(s, i)
    ensures var s := Run(env, Initial(), inputs).value;
            var t := Step(env, s, i);
            && FirstPython(s.queue, k) && |t.queue| == |s.queue|
            && (t.queue[k].status == Done <==> i.PythonRan? && i.outcome.Success?)
            && (t.queue[k].status == Failed <==> i.PythonRan? && i.outcome.Failure?)
            && (t.queue[k].status == Running <==> i.PythonCrash?)
            && (t.queue[k].error == if i.PythonRan? && i.outcome.Failure? && i.outcome.error != ""
                                    then Some(i.outcome.error) else s.queue[k].error)
            && t.queue[k] == s.queue[k].(status := t.queue[k].status, error := t.queue[k].error)
            && (forall x :: 0 <= x < |s.queue| && x != k ==> t.queue[x] == s.queue[x])
            && t == s.(node := t.node, queue := t.queue, lastFailed := t.lastFailed)
  {
    var s := Run(env, Initial(), inputs).value;
    Termination.RunPays(env, inputs);
    k := PythonTask(s.queue).value;
    hide Run, RouteAfterExecutor;
  }

  /** Without such a task a python visit, crash or not, leaves the queue alone; a crash leaves the earlier
      results, else there are none and nothing has failed. */
  lemma IdlePythonVisitIs(s: State, i: Input)
    requires (i.PythonRan? || i.PythonCrash?) && forall k: nat :: !FirstPython(s.queue, k)
    ensures RunPython(s, i) == s.(lastFailed := i.PythonCrash? && s.lastFailed)
  {
    PythonTaskIsFirst(s.queue);
  }

  lemma PythonTaskIsFirst(q: seq<Task>)
    ensures PythonTask(q).Some? ==> FirstPython(q, PythonTask(q).value)
  {
  }

  // ---------------------------------------------------------------- the reflector

  /** Some task of the queue creates a file. */
  ghost predicate WritesFile(q: seq<Task>) {
    exists k :: 0 <= k < |q| && q[k].action in {"write_file", "create_file", "append_file", "edit_file"}
  }

  /** An empty queue: a project is given the generated tasks, everything else is finished. */
  lemma EmptyQueueReflects(env: Env, s: State, i: Input)
    requires s.node.Reflector? && i.Reflected? && s.queue == []
    ensures var t := Step(env, s, i);
            var refill := env.goalType == "project" && i.generated != [];
            && t.queue == (if refill then AddAll([], Seeds(i.generated)) else [])
            && t.verdict == Some(if refill then Continue else GoalDone)
            && t.replans == s.replans && t.cycle == s.cycle && t.plan == s.plan && t.lastFailed == s.lastFailed
            && (!refill ==> t.node.Answer?)
  {
    hide AddAll, Seeds, NextTodo;
  }

  /** The queue after the decision is one with nothing to do, or claimed complete without a file. */
  ghost predicate Stuck(i: Input, decided: seq<Task>)
    requires i.Reflected?
  {
    if i.reflection.goalCompleted then !WritesFile(decided) else NothingWaits(decided)
  }

  /** A non-empty queue.  A claimed completion is believed exactly when some task writes a file, the
      template says so, or nothing can be generated; an unclaimed one is declared exactly when the template
      says so, or nothing waits and nothing can be generated. */
  lemma ReflectorDecides(env: Env, s: State, i: Input)
    requires s.node.Reflector? && i.Reflected? && s.queue != []
    ensures var t := Step(env, s, i);
            var decided := ApplyReflection(s.queue, i.reflection);
            && t.queue == (if Stuck(i, decided) then AddMissing(decided, i.generated, false) else decided)
            && (i.reflection.goalCompleted ==>
                  (t.verdict == Some(GoalDone) <==> WritesFile(decided) || i.templateDone || i.generated == []))
            && (!i.reflection.goalCompleted ==>
                  (t.verdict == Some(GoalDone) <==> i.templateDone || (NothingWaits(decided) && i.generated == [])))
            && (t.verdict != Some(GoalDone) ==> t.verdict == Some(if i.reflection.needReplan then Replan else Continue))
            && t.replans == s.replans + (if t.verdict == Some(Replan) then 1 else 0)
            && t.cycle == s.cycle && t.plan == s.plan && t.lastFailed == s.lastFailed
  {
    hide ApplyReflection, NextTodo;
    var decided := ApplyReflection(s.queue, i.reflection);
    assert CreatesFiles(decided) <==> WritesFile(decided);
    assert HasTodo(decided) <==> !NothingWaits(decided);
    assert AddMissing(decided, [], false) == decided;
    hide CreatesFiles, WritesFile, HasTodo, NothingWaits, AddMissing, RouteAfterReflector;
  }

  /** Where the reflector's verdict leads.  The stuck counter counts a round that found nothing to do. */
  lemma ReflectorLeads(env: Env, inputs: seq<Input>, i: Input)
    requires Run(env, Initial(), inputs).Some?
    requires var s := Run(env, Initial(), inputs).value; s.node.Reflector? && Fits(s, i)
    ensures var s := Run(env, Initial(), inputs).value;
            var t, p := Step(env, s, i), env.policy;
            var idle := t.verdict == Some(Continue) && NothingWaits(t.queue);
            && t.stuckRounds == s.stuckRounds + (if idle && i.Reflected? && i.stuckPersists then 1 else 0)
            && (i.ReflectorCrash? ==> t == s.(node := t.node))
            && (t.verdict in {None, Some(GoalDone)} ==> t.node.Answer?)
            && (t.verdict == Some(Replan) ==> t.node == if t.replans >= p.maxReplanCount then Answer else Planner)
            && (t.verdict == Some(Continue) ==>
                  GoesByHead(t.queue, t.node, Planner,
                             if s.stuckRounds + 1 >= p.maxStuckRounds || t.cycle >= p.reflectorPlannerCycleCap
                             then Answer else Planner))
            && t.verdict != Some(Retry)
  {
    var s := Run(env, Initial(), inputs).value;
    Termination.RunPays(env, inputs);
    Termination.ReflectorVerdict(env, s, i);
    var t := RunReflector(env, s, i);
    HeadIs(t.queue);
    SameRounds(env, s, i);
    hide RunReflector, NextTodo, Head, NothingWaits, Run;
  }

  lemma SameRounds(env: Env, s: State, i: Input)
    requires i.ReflectorCrash? || i.Reflected?
    ensures RunReflector(env, s, i).stuckRounds == s.stuckRounds
  {
  }
}
