/** Finished work stays finished over whole runs, and task ids stay unique. */
module StickyDone {

  import opened Tasks
  import opened TaskQueues
  import opened AgentLoop
  import opened Options

  predicate DoneIn(q: seq<Task>, id: string) {
    Lookup(q, id).Some? && Lookup(q, id).value.status.Done?
  }

  /** Ids of the tasks the node of `s` starts or finishes in its next visit. */
  function Touched(s: State): set<string> {
    match s.node
    case ToolExecutor =>
      DispatchInQueue(s.queue);
      set k | 0 <= k < |Dispatch(s.queue)| :: s.queue[Dispatch(s.queue)[k]].taskId
    case Python => if PythonTask(s.queue).Some? then {s.queue[PythonTask(s.queue).value].taskId} else {}
    case QueryRewriter => if FirstTodo(s.queue).Some? then {s.queue[FirstTodo(s.queue).value].taskId} else {}
    case SearchAgent => set k | 0 <= k < |s.queue| && s.queue[k].status.Running? :: s.queue[k].taskId
    case _ => {}
  }

  // ---------------------------------------------------------------- what the reflector may undo

  /** The status the last status-bearing update gives to `id`. */
  function LastStatus(us: seq<TaskUpdate>, id: string): Option<TaskStatus> {
    if us == [] || id == "" then None
    else
      var u := us[|us| - 1];
      if u.taskId == id && u.status.Some? then u.status else LastStatus(us[..|us| - 1], id)
  }

  predicate SparesId(r: Reflection, id: string) {
    LastStatus(r.updates, id) in {None, Some(Done)} && id !in r.removals
  }

  /** The decision leaves every finished task finished. */
  predicate Spares(s: State, i: Input) {
    i.Reflected? ==> forall k :: 0 <= k < |s.queue| && s.queue[k].status.Done?
                                 ==> SparesId(i.reflection, s.queue[k].taskId)
  }

  // ---------------------------------------------------------------- lookups

  lemma LookupIs(q: seq<Task>, id: string, k: nat)
    requires UniqueIds(q) && k < |q| && q[k].taskId == id
    ensures Lookup(q, id) == Some(q[k])
  {
  }

  /** Same ids at the same places, and finished entries kept: finished lookups are kept. */
  lemma InPlaceKeepsDone(q: seq<Task>, r: seq<Task>, id: string)
    requires UniqueIds(q) && |r| == |q|
    requires forall k :: 0 <= k < |q| ==> r[k].taskId == q[k].taskId
    requires forall k :: 0 <= k < |q| && q[k].status.Done? ==> r[k] == q[k]
    ensures UniqueIds(r)
    ensures DoneIn(q, id) ==> Lookup(r, id) == Lookup(q, id)
  {
    if DoneIn(q, id) {
      var k := IndexOf(q, id).value;
      LookupIs(r, id, k);
    }
  }

  lemma {:induction false} AddAllKeepsDone(q: seq<Task>, ts: seq<Task>, id: string)
    requires UniqueIds(q)
    ensures UniqueIds(AddAll(q, ts))
    ensures DoneIn(q, id) ==> Lookup(AddAll(q, ts), id) == Lookup(q, id)
  {
    if ts != [] {
      var n := |ts| - 1;
      AddAllKeepsDone(q, ts[..n], id);
      AddOneShape(AddAll(q, ts[..n]), ts[n]);
      AddOneLookup(AddAll(q, ts[..n]), ts[n], id);
    }
  }

  // ---------------------------------------------------------------- reflector

  lemma UpdateShape(q: seq<Task>, u: TaskUpdate, id: string)
    requires UniqueIds(q)
    ensures var r := UpdateId(q, u.taskId, u.status, u.priority);
            && UniqueIds(r)
            && Lookup(r, id) == if id == u.taskId && Lookup(q, id).Some?
                                then Some(Revise(Lookup(q, id).value, u.status, u.priority)) else Lookup(q, id)
  {
    var r := UpdateId(q, u.taskId, u.status, u.priority);
    match IndexOf(q, id)
    case None =>
    case Some(k) => LookupIs(r, id, k);
  }

  lemma {:induction false} UpdatesOnDone(q: seq<Task>, us: seq<TaskUpdate>, id: string)
    requires UniqueIds(q)
    ensures UniqueIds(ApplyUpdates(q, us))
    ensures Lookup(ApplyUpdates(q, us), id).Some? <==> Lookup(q, id).Some?
    ensures DoneIn(q, id) ==> (DoneIn(ApplyUpdates(q, us), id) <==> LastStatus(us, id) in {None, Some(Done)})
  {
    if us != [] {
      var n := |us| - 1;
      UpdatesOnDone(q, us[..n], id);
      if us[n].taskId != "" { UpdateShape(ApplyUpdates(q, us[..n]), us[n], id); }
    }
  }

  lemma {:induction false} AddMissingKeeps(q: seq<Task>, ts: seq<Task>, needContent: bool, id: string)
    requires UniqueIds(q)
    ensures UniqueIds(AddMissing(q, ts, needContent))
    ensures Lookup(q, id).Some? ==> Lookup(AddMissing(q, ts, needContent), id) == Lookup(q, id)
    ensures Lookup(q, id).None? ==> !DoneIn(AddMissing(q, ts, needContent), id)
  {
    if ts != [] {
      var n := |ts| - 1;
      AddMissingKeeps(q, ts[..n], needContent, id);
      var before := AddMissing(q, ts[..n], needContent);
      AddOneShape(before, Fresh(ts[n]));
      AddOneLookup(before, Fresh(ts[n]), id);
    }
  }

  lemma RemoveAt(q: seq<Task>, k: nat)
    requires UniqueIds(q) && k < |q|
    ensures var r := q[..k] + q[k + 1..];
            && |r| == |q| - 1
            && (forall j :: 0 <= j < |r| ==> r[j] == if j < k then q[j] else q[j + 1])
            && UniqueIds(r)
            && (forall j :: 0 <= j < |r| ==> r[j].taskId != q[k].taskId)
  {
  }

  lemma RemoveShape(q: seq<Task>, gone: string, id: string)
    requires UniqueIds(q)
    ensures UniqueIds(RemoveId(q, gone))
    ensures Lookup(RemoveId(q, gone), id) == if id == gone then None else Lookup(q, id)
  {
    match IndexOf(q, gone)
    case None =>
    case Some(k) =>
      RemoveAt(q, k);
      hide UniqueIds;
      var r := RemoveId(q, gone);
      match IndexOf(q, id)
      case None =>
      case Some(m) =>
        if m < k {
          assert r[m] == q[m];
          LookupIs(r, id, m);
        } else if m > k {
          assert r[m - 1] == q[m];
          LookupIs(r, id, m - 1);
        }
  }

  lemma {:induction false} RemoveAllShape(q: seq<Task>, ids: seq<string>, id: string)
    requires UniqueIds(q)
    ensures UniqueIds(RemoveAll(q, ids))
    ensures Lookup(RemoveAll(q, ids), id) == if id in ids then None else Lookup(q, id)
  {
    hide UniqueIds, Lookup, RemoveId, IndexOf;
    if ids != [] {
      var n := |ids| - 1;
      RemoveAllShape(q, ids[..n], id);
      RemoveShape(RemoveAll(q, ids[..n]), ids[n], id);
      assert ids == ids[..n] + [ids[n]];
    }
  }

  lemma ReflectionOnDone(q: seq<Task>, r: Reflection, id: string)
    requires UniqueIds(q)
    ensures UniqueIds(ApplyReflection(q, r))
    ensures DoneIn(q, id) ==> (DoneIn(ApplyReflection(q, r), id) <==> SparesId(r, id))
  {
    var u := ApplyUpdates(q, r.updates);
    UpdatesOnDone(q, r.updates, id);
    AddMissingKeeps(u, r.newTasks, true, id);
    RemoveAllShape(AddMissing(u, r.newTasks, true), r.removals, id);
  }

  /** Exactly when a reflector visit keeps a finished task finished. */
  lemma DoneSurvivesReflectorIff(env: Env, s: State, i: Input, id: string)
    requires i.Reflected? && UniqueIds(s.queue) && DoneIn(s.queue, id)
    ensures DoneIn(RunReflector(env, s, i).queue, id) <==> SparesId(i.reflection, id)
  {
    ReflectionOnDone(s.queue, i.reflection, id);
    AddMissingKeeps(ApplyReflection(s.queue, i.reflection), i.generated, false, id);
  }

  lemma ReflectorKeepsUnique(env: Env, s: State, i: Input)
    requires (i.ReflectorCrash? || i.Reflected?) && UniqueIds(s.queue)
    ensures UniqueIds(RunReflector(env, s, i).queue)
  {
    if i.Reflected? {
      ReflectionOnDone(s.queue, i.reflection, "");
      AddMissingKeeps(ApplyReflection(s.queue, i.reflection), i.generated, false, "");
      AddAllKeepsDone([], Seeds(i.generated), "");
    }
  }

  // ---------------------------------------------------------------- one step

  /** Requests that are answered directly never carry a queue. */
  ghost predicate DirectIsEmpty(env: Env, s: State) {
    AnswersDirectly(env) ==> s.queue == [] && s.node !in {QueryRewriter, SearchAgent, ToolExecutor, Python, Reflector}
  }

  lemma StepKeepsDirect(env: Env, s: State, i: Input)
    requires Fits(s, i) && DirectIsEmpty(env, s)
    ensures DirectIsEmpty(env, Step(env, s, i))
  {
    hide Dispatch, FinishAll, AddAll;
  }

  /** Outside the reflector a step leaves the whole record of every finished task alone. */
  lemma StepKeepsDoneRecord(env: Env, s: State, i: Input, id: string)
    requires Fits(s, i) && UniqueIds(s.queue) && DirectIsEmpty(env, s) && !s.node.Reflector?
    ensures UniqueIds(Step(env, s, i).queue)
    ensures DoneIn(s.queue, id) ==> Lookup(Step(env, s, i).queue, id) == Lookup(s.queue, id)
  {
    hide RouteAfterPlanner, RouteAfterExecutor, Dispatch, DoneIn;
    match s.node
    case Planner => if i.Planned? { AddAllKeepsDone(s.queue, i.tasks, id); }
    case ToolExecutor =>
      ToolExecutorInPlace(s, i.outcomes);
      InPlaceKeepsDone(s.queue, RunToolExecutor(s, i.outcomes).queue, id);
    case Python => InPlaceKeepsDone(s.queue, RunPython(s, i).queue, id);
    case QueryRewriter => InPlaceKeepsDone(s.queue, MarkFirstTodo(s.queue), id);
    case SearchAgent => InPlaceKeepsDone(s.queue, FinishRunning(s.queue), id);
    case _ =>
  }

  lemma ToolExecutorInPlace(s: State, os: seq<Outcome>)
    requires |os| == |Dispatch(s.queue)|
    ensures var r := RunToolExecutor(s, os).queue;
            && |r| == |s.queue|
            && (forall k :: 0 <= k < |s.queue| ==> r[k].taskId == s.queue[k].taskId)
            && (forall k :: 0 <= k < |s.queue| && !s.queue[k].status.Todo? ==> r[k] == s.queue[k])
  {
    DispatchInQueue(s.queue);
    hide Dispatch;
  }

  lemma StepKeepsDone(env: Env, s: State, i: Input, id: string)
    requires Fits(s, i) && UniqueIds(s.queue) && DirectIsEmpty(env, s)
    ensures UniqueIds(Step(env, s, i).queue)
    ensures Spares(s, i) && DoneIn(s.queue, id) ==> DoneIn(Step(env, s, i).queue, id)
  {
    if s.node.Reflector? {
      ReflectorKeepsUnique(env, s, i);
      if i.Reflected? && DoneIn(s.queue, id) {
        DoneSurvivesReflectorIff(env, s, i, id);
        var k := IndexOf(s.queue, id).value;
        assert s.queue[k].taskId == id;
      }
    } else {
      StepKeepsDoneRecord(env, s, i, id);
    }
  }

  /** A finished task is never picked again. */
  lemma DoneIsNotTouched(s: State, id: string)
    requires UniqueIds(s.queue) && DoneIn(s.queue, id)
    ensures id !in Touched(s)
  {
    DispatchInQueue(s.queue);
    hide Dispatch;
    if id in Touched(s) {
      var k :| 0 <= k < |s.queue| && s.queue[k].taskId == id && s.queue[k].status in {Todo, Running};
      LookupIs(s.queue, id, k);
    }
  }

  // ---------------------------------------------------------------- whole runs

  /** Task ids are unique in every state of every run. */
  lemma {:induction false} IdsStayUnique(env: Env, inputs: seq<Input>)
    requires Run(env, Initial(), inputs).Some?
    ensures UniqueIds(Run(env, Initial(), inputs).value.queue)
    ensures DirectIsEmpty(env, Run(env, Initial(), inputs).value)
  {
    if inputs != [] {
      var n := |inputs| - 1;
      IdsStayUnique(env, inputs[..n]);
      var s := Run(env, Initial(), inputs[..n]).value;
      StepKeepsDone(env, s, inputs[n], "");
      StepKeepsDirect(env, s, inputs[n]);
    }
  }

  /** From position `m` of the run on, every reflector decision spares what is finished by then. */
  ghost predicate SparingFrom(env: Env, inputs: seq<Input>, m: nat) {
    forall n :: m <= n < |inputs| && Run(env, Initial(), inputs[..n]).Some?
      ==> Spares(Run(env, Initial(), inputs[..n]).value, inputs[n])
  }

  /** Main result: once a task is finished it stays finished and is never touched again, to the end of
      the run. */
  lemma {:induction false} DoneStaysDone(env: Env, inputs: seq<Input>, m: nat, id: string)
    requires m <= |inputs| && Run(env, Initial(), inputs).Some?
    requires SparingFrom(env, inputs, m)
    requires Run(env, Initial(), inputs[..m]).Some? && DoneIn(Run(env, Initial(), inputs[..m]).value.queue, id)
    ensures DoneIn(Run(env, Initial(), inputs).value.queue, id)
    ensures id !in Touched(Run(env, Initial(), inputs).value)
    decreases |inputs|
  {
    var n := |inputs| - 1;
    IdsStayUnique(env, inputs);
    if m == |inputs| {
      assert inputs[..m] == inputs;
    } else {
      var before := inputs[..n];
      assert before[..m] == inputs[..m];
      forall k | m <= k < |before| && Run(env, Initial(), before[..k]).Some?
        ensures Spares(Run(env, Initial(), before[..k]).value, before[k])
      {
        assert before[..k] == inputs[..k];
      }
      DoneStaysDone(env, before, m, id);
      IdsStayUnique(env, before);
      StepKeepsDone(env, Run(env, Initial(), before).value, inputs[n], id);
    }
    DoneIsNotTouched(Run(env, Initial(), inputs).value, id);
  }

  // ---------------------------------------------------------------- the search chain

  /** The two visits of the search chain finish every running task and the first TODO task, of any tool;
      every other task is left as it was. */
  lemma SearchChainEffect(env: Env, s: State, x: nat)
    requires s.node.QueryRewriter? && x < |s.queue|
    ensures var t := Step(env, Step(env, s, Tick), Tick);
            && t.node.Answer? && |t.queue| == |s.queue|
            && (t.queue[x].status.Done? <==>
                  s.queue[x].status.Done? || s.queue[x].status.Running? || FirstTodo(s.queue) == Some(x))
            && (!s.queue[x].status.Running? && FirstTodo(s.queue) != Some(x) ==> t.queue[x] == s.queue[x])
  {
  }

  /** What the request looks like when it closes after a search: the routed task is finished exactly when
      no TODO task stands before it.  Otherwise the first TODO task, which no executor ran, is finished in
      its place, and the routed search is still to do. */
  lemma RoutedSearchIsFinishedIff(env: Env, s: State)
    requires s.node.QueryRewriter? && NextTodo(s.queue).Some?
    ensures Run(env, s, [Tick, Tick, Tick, Tick]).Some?
    ensures var q, u, k := s.queue, Run(env, s, [Tick, Tick, Tick, Tick]).value, NextTodo(s.queue).value;
            && u.node.End? && |u.queue| == |q|
            && (u.queue[k].status.Done? <==> forall j :: 0 <= j < k ==> !q[j].status.Todo?)
            && (FirstTodo(q) != Some(k) ==>
                  u.queue[k] == q[k] && u.queue[FirstTodo(q).value].status.Done? && FirstTodo(q).value < k)
  {
    var t := Step(env, Step(env, s, Tick), Tick);
    SearchChainEffect(env, s, NextTodo(s.queue).value);
    SearchChainEffect(env, s, FirstTodo(s.queue).value);
    FourTicks(env, s);
  }

  lemma FourTicks(env: Env, s: State)
    requires s.node.QueryRewriter?
    ensures Run(env, s, [Tick, Tick, Tick, Tick]) == Some(Step(env, Step(env, s, Tick), Tick).(node := End))
  {
    var t := Step(env, s, Tick);
    var u := Step(env, t, Tick);
    assert t.node.SearchAgent? && u.node.Answer?;
    assert [] + [Tick] == [Tick] && [Tick] + [Tick] == [Tick, Tick];
    assert [Tick, Tick] + [Tick] == [Tick, Tick, Tick] && [Tick, Tick, Tick] + [Tick] == [Tick, Tick, Tick, Tick];
    assert Step(env, u, Tick) == u.(node := Memory) && Step(env, u.(node := Memory), Tick) == u.(node := End);
    assert Run(env, s, []) == Some(s);
    hide *;
    OneMoreTick(env, s, [], s);
    OneMoreTick(env, s, [Tick], t);
    OneMoreTick(env, s, [Tick, Tick], u);
    OneMoreTick(env, s, [Tick, Tick, Tick], u.(node := Memory));
  }

  lemma OneMoreTick(env: Env, s: State, inputs: seq<Input>, t: State)
    requires Run(env, s, inputs) == Some(t) && t.node in {QueryRewriter, SearchAgent, Answer, Memory}
    ensures Run(env, s, inputs + [Tick]) == Some(Step(env, t, Tick))
  {
    assert (inputs + [Tick])[..|inputs|] == inputs;
    hide Step;
  }
}
