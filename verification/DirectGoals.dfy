/** Goals that are answered without work: agentflow/graph/workflow.py, `_route_after_goal_analyzer`, and the
    direct-answer flow of agentflow/agents/planner/agent.py, over whole runs. */
module DirectGoals {

  import opened AgentLoop
  import Termination
  import opened Options

  /** The visits of a request that is answered at once, of one that first looks things up, and of one that
      also asks the planner. */
  const SHORT: seq<Node> := [ConversationManager, GoalAnalyzer, Answer, Memory, End]
  const LOOKED_UP: seq<Node> := [ConversationManager, GoalAnalyzer, KnowledgeAgent, Planner, Answer, Memory, End]

  /** The fixed course of a goal that is never worked on, if it has one. */
  function Course(env: Env): Option<seq<Node>> {
    if env.goalType !in {"other", "translation", "editing", "question"} then None
    else if env.sourceMode == "knowledge" then Some(LOOKED_UP)
    else if env.goalType == "question" && env.knowledgeSource != "general" then Some(LOOKED_UP)
    else Some(SHORT)
  }

  /** Conversation, translation, editing and questions follow one fixed course, whatever the agents say:
      nothing is ever queued, and no executor or reflector is visited. */
  lemma {:induction false} DirectGoalsFollowTheirCourse(env: Env, inputs: seq<Input>)
    requires Course(env).Some? && Run(env, Initial(), inputs).Some?
    ensures var s := Run(env, Initial(), inputs).value;
            && |inputs| < |Course(env).value| && s.node == Course(env).value[|inputs|] && s.queue == []
            && s.verdict == None
  {
    if inputs != [] {
      var n := |inputs| - 1;
      DirectGoalsFollowTheirCourse(env, inputs[..n]);
      CourseStep(env, Run(env, Initial(), inputs[..n]).value, inputs[n], n);
      hide Course, Step, Fits;
    } else {
      CourseStarts(env);
    }
  }

  lemma CourseStarts(env: Env)
    requires Course(env).Some?
    ensures 0 < |Course(env).value| && Initial().node == Course(env).value[0]
    ensures Initial().queue == [] && Initial().verdict == None
  {
  }

  /** The course is followed one visit further. */
  lemma CourseStep(env: Env, s: State, i: Input, k: nat)
    requires Course(env).Some? && k < |Course(env).value| && s.node == Course(env).value[k] && Fits(s, i)
    requires s.queue == [] && s.verdict == None
    ensures var t := Step(env, s, i);
            k + 1 < |Course(env).value| && t.node == Course(env).value[k + 1] && t.queue == [] && t.verdict == None
  {
    if s.node.Planner? {
      PlannerAnswersDirectly(env, s, i);
    }
    hide RunPlanner, RunPython, RunToolExecutor, RunReflector, Dispatch, FinishRunning;
  }

  lemma PlannerAnswersDirectly(env: Env, s: State, i: Input)
    requires s.node.Planner? && Fits(s, i) && AnswersDirectly(env) && s.verdict == None
    ensures var t := Step(env, s, i); t.node.Answer? && t.queue == [] && t.verdict == None
  {
  }

  /** Who asks for the knowledge base: the user by hand, or a goal that may need it. */
  predicate WantsKnowledge(env: Env) {
    env.sourceMode == "knowledge"
    || (env.goalType in {"question", "analysis", "document"} && env.knowledgeSource != "general")
  }

  function KnowledgeVisits(env: Env, inputs: seq<Input>): nat {
    if inputs == [] then 0
    else
      KnowledgeVisits(env, inputs[..|inputs| - 1]) +
      match Run(env, Initial(), inputs[..|inputs| - 1])
      case Some(s) => if s.node.KnowledgeAgent? then 1 else 0
      case None => 0
  }

  /** Only goal analysis leads to the knowledge base. */
  lemma NothingReturnsToKnowledge(env: Env, s: State, i: Input)
    requires Fits(s, i)
    ensures s.node.ConversationManager? ==> Step(env, s, i).node.GoalAnalyzer?
    ensures s.node.GoalAnalyzer? ==>
              && Step(env, s, i).node in {KnowledgeAgent, Planner, Answer}
              && (Step(env, s, i).node.KnowledgeAgent? <==> WantsKnowledge(env))
    ensures !s.node.ConversationManager? && !s.node.GoalAnalyzer? ==>
              Step(env, s, i).node !in {ConversationManager, GoalAnalyzer, KnowledgeAgent}
  {
    hide RouteAfterPlanner, RouteAfterExecutor, RunPlanner, RunPython, RunToolExecutor, RunReflector, Dispatch;
    match s.node
    case Planner => Termination.PlannerRoutes(RunPlanner(env, s, i));
    case ToolExecutor => Termination.ExecutorRoutes(RunToolExecutor(s, i.outcomes));
    case Python => Termination.ExecutorRoutes(RunPython(s, i));
    case _ =>
  }

  /** Whatever the agents answer, once a request is past goal analysis and the knowledge base it has been
      there exactly once if it was wanted, and not at all if it was not; and it never goes back. */
  lemma {:induction false} KnowledgeConsultedOnceIff(env: Env, inputs: seq<Input>)
    requires Run(env, Initial(), inputs).Some?
    ensures var node := Run(env, Initial(), inputs).value.node;
            && KnowledgeVisits(env, inputs)
               == (if node in {ConversationManager, GoalAnalyzer, KnowledgeAgent} || !WantsKnowledge(env) then 0 else 1)
            && (node.KnowledgeAgent? ==> WantsKnowledge(env))
  {
    if inputs != [] {
      var n := |inputs| - 1;
      KnowledgeConsultedOnceIff(env, inputs[..n]);
      var s := Run(env, Initial(), inputs[..n]).value;
      NothingReturnsToKnowledge(env, s, inputs[n]);
      if s.node.GoalAnalyzer? || s.node.KnowledgeAgent? || s.node.ConversationManager? {
        hide Step;
      } else {
        hide Step, WantsKnowledge;
      }
    }
  }
}
