# Verified model of the AgentFlow runtime

This project models the parts of AgentFlow where state, concurrency or arithmetic make it hard to see what
holds: the agent run loop, the parallel tool batch, the LLM circuit breaker, the knowledge store and its
search, rank fusion and reranking, the embedding cache, and the text and budget routines. Code that changes
state in place is a class whose methods are proved equal to specification functions; what the program
promises is proved about those functions, for all inputs and, where it matters, over all runs.

| File | Component |
|---|---|
| `Tasks`, `TaskRecords`, `TaskQueue` | tasks, their dictionary form, the prioritised queue |
| `AgentLoop`, `Workflow` | the node graph as a step system, and the node methods |
| `LoopLaws`, `ReflectionEffects` | what each visit changes and where it leads, told from state and answers alone |
| `Termination`, `LoopWitnesses`, `StickyDone`, `DirectGoals` | what bounds every run; runs that reach past the caps; what stays finished; goals answered without work |
| `BatchSelection`, `SelectionLaws` | which tasks run in threads |
| `ParallelFiles`, `FileEffects`, `BatchExecution` | file actions and their effects, every interleaving of them, results written back |
| `CircuitBreaker` | the breaker with concurrent callers, retries, outages |
| `KnowledgeStore`, `IngestEffects`, `RebuildEffects`, `EmbeddingModel`, `KnowledgeBase` | tables, triggers, vectors, with failures injected at every write |
| `RankFusion`, `Retrieval`, `SearchResults`, `Reranker` | fusion arithmetic, hybrid search, reordering by a model's answer |
| `EmbeddingCache` | the cached embedder |
| `JsonNewlines`, `NameOrder`, `PathTree`, `PathTreeDrawing`, `PathTreePrinter`, `Text`, `Chunking`, `ChunkLaws` | text transducers, printers and splitters |
| `Compression`, `PromptBudget` | selection under a budget |
| `Options`, `Lists` | shared vocabulary |

Main results:

* Every run whatever makes at most 2 * (planner cap) + 7 node visits, plus two per task put into the queue and
  two per wild visit (`EveryRunEnds`). Wild are three visits only: a crash of the python node, a crash of the
  reflector on an old replan verdict, and a knowledge task sent back to the planner. Runs of any length are
  given for each of the three, with their counts.
* Every interleaving of a batch's steps (check, make each parent, open, write) gives the disk and the results of
  every serial order (`ParallelEqualsSerial`), for the batches the selector forms (`SelectedBatchEqualsSerial`).
  With failing searches, refused paths and the repair of failed calls counted in, `SelectedTaskEnds` says how
  each task of the batch ends. Where two selected names resolve to one file, the last thread wins
  (`SelectedPairRaces`).
* Where every visit leads and what it leaves in the queue is fixed by the state and the answers: after a failed
  last result the reflector, otherwise the first most urgent task's node (`ExecutorLeads`); a claimed completion
  is believed exactly when a task writes a file, the template says so or nothing can be generated
  (`ReflectorDecides`); a decision changes exactly what it names (`DecisionIs`).
* However ingests, deletes and rebuilds fail, no vector ever stands for a text it was not computed from
  (`NoAliasing`), a dangling point dangles for ever (`DanglesForEver`), and every search hit is a live chunk
  row scored against its own text (`SearchAfterAnyRun`).
* Over a whole run the recorded model is the model of every searchable vector exactly when no ingest broke with
  its points landed, its rollback failed and no model recorded (`ModelAgreesThroughoutIff`).
* After a rebuild the tables hold, under new ids and in order, exactly the documents that came back and what
  unrepaired failures left of others (`RebuildIs`), and every text that came back is found by its embedding.
* A search returns exactly the live, wanted and good enough entries of the fused top k, in its order, each once
  (`HybridSearchIs`); with one list empty, the live ones of the first good hits of the other (`OneSidedSearchIs`).
* During an outage the service is called at most threshold + floor(T / timeout) times (`OutageBound`), and in
  every interleaving the breaker's state is a function of the completed calls and of the probes since the last
  failure (`StateIsHistory`).
* The recursion that prints a path tree ends exactly when every path is more than slashes (`RecursionEndsIff`),
  and the lines read back as exactly the sorted set of path prefixes (`BuildPathTree`).

The other rows below support these. Some of them, such as the dictionary forms in `TaskRecords`,
`SearchChainEffect`, `AbsentRanksLast`, `UntouchedIff` and `RequestsCalls`, follow directly from the definitions.

Where the code and its own documentation differ, the model follows the code:

* `_make_query_rewriter_node` says it marks the first TODO search task; it marks the first TODO task of any
  tool. The search chain then finishes that task, and the routed search is finished exactly when no TODO task
  precedes it (`RoutedSearchIsFinishedIff`, `TaskFinishedUnrun`).
* `Task.to_dict` says JSON-safe; only the result itself is converted, not what stands inside it or elsewhere
  (`WritableIff`).
* `format_planner_prompt` says lower tiers are truncated first; a large section of a higher tier can be lost
  while a smaller one of a lower tier stays (`TiersRespectedIff`, `LowerTierOutlivesHigher`).
* `_split_by_heading` is described as a split; headings with nothing under them are dropped
  (`HeadingSplitKeepsInkIff`).
* `_fix_json_newlines` turns a carriage return into the escape of a line feed, and leaves a break alone that
  follows a backslash (`StringsFreeOfBreaksIff`).
* `add_document` promises a rollback; a failure between two chunk rows happens before the guarded block and
  is not rolled back (`FailedIngestIsUndoneIff`).
* `_find_python_task` is described as finding a TODO task; it also finds a running one, which is what lets a
  crash repeat (`PythonCrashLoops`).
* The breaker tests the elapsed time before it takes its lock and not again; under the lock the test would pass
  exactly when every request that failed in between has been timed out too (`TimeGuardHoldsIff`), and a probe
  can start although one has not (`StaleTimeoutProbes`).

## Model

| member | source | states |
|---|---|---|
| TaskRecords.RecordRoundTripIff | agentflow/graph/task.py:155-207 | all eighteen fields come back from the dictionary; the record is the same exactly when its result is one JSON knows, and otherwise that alone has become text |
| TaskRecords.DictRoundTripIff | agentflow/graph/task.py:178-207 | a dictionary is accepted exactly when its status is absent or known; its entries are kept, the missing ones filled in, and it is the same exactly when all keys are there and JSON knows its result |
| TaskRecords.MissingEntriesAre | agentflow/graph/task.py:178-207 | a missing entry gets its default, priority 50 and the status todo among them, and only the id is drawn anew |
| TaskRecords.WritableIff | agentflow/graph/task.py:155-176 | the dictionary can be written as JSON exactly when no foreign object stands inside its input, steps, metadata or result |
| TaskRecords.RecordsRoundTrip | agentflow/agents/planner/task_queue.py:173-180 | the queue of whole records one node writes is the queue the next node reads, but for results turned into text |
| TaskRecords.CoresRoundTrip | agentflow/agents/planner/task_queue.py:173-180 | what the runtime branches on comes through untouched |
| Tasks.QueueRoundTrip | agentflow/agents/planner/task_queue.py:173-180 | the queue one node writes is the queue the next node reads |
| TaskQueues.TaskQueue.Add | agentflow/agents/planner/task_queue.py:43-59 | adding tasks has the effect of the sticky write sequence, never replacing a finished task |
| TaskQueues.TaskQueue.Remove | agentflow/agents/planner/task_queue.py:61-67 | takes out the first task with the id, and reports whether there was one |
| TaskQueues.TaskQueue.Update | agentflow/agents/planner/task_queue.py:69-101 | the named task of the runtime's own queue gets the given changes in turn; unknown statuses are passed over, and the method reports whether the task exists |
| TaskRecords.RecordQueue.Update | agentflow/agents/planner/task_queue.py:69-101 | the same on whole records: any field can be set, all other records stay, and to the runtime it is the update above |
| TaskRecords.CoreOfChanges | agentflow/agents/planner/task_queue.py:80-100 | updating a record and looking at what the runtime reads commute, for any changes |
| TaskQueues.LastStatusStands | agentflow/agents/planner/task_queue.py:80-100 | the last accepted status stands, refused ones leave what was there, and the task keeps its id |
| TaskQueues.LastChangesStand | agentflow/agents/planner/task_queue.py:80-100 | every other field holds what the last change of its kind says, or what it held |
| TaskQueues.StatusTextAcceptedIff | agentflow/agents/planner/task_queue.py:83-95 | a status text is accepted exactly when its lower case is the value of a status |
| TaskQueues.AnyCaseIsAccepted | agentflow/agents/planner/task_queue.py:83-95 | a text names a status exactly when it is that status's value in any mixture of upper and lower case, the Kelvin sign standing for k |
| TaskQueues.UpdateIsRevision | agentflow/agents/reflection/agent.py:283-295 | the keywords the reflector passes revise status and priority and nothing else |
| TaskQueues.TaskQueue.GetNext | agentflow/agents/planner/task_queue.py:110-115 | returns the first of the TODO tasks of highest priority, or none |
| TaskQueues.NextTodo | agentflow/agents/planner/task_queue.py:110-130 | no TODO task has a higher priority, none of the same priority stands earlier, and none is returned only when none is TODO |
| TaskQueues.QueueIsStickyMap | agentflow/agents/planner/task_queue.py:43-59 | after any additions the queue is the insertion-ordered map of the whole write history in which the first finished version of an id wins, else the last |
| TaskQueues.QueueGrowth | agentflow/agents/planner/task_queue.py:43-59 | the size grows by exactly the number of new distinct ids |
| TaskQueues.RouterPicksQueueHead | agentflow/graph/workflow.py:550-555 | the router, on serialised tasks, picks the very task the queue object would return |
| BatchSelection.SelectIsSound | agentflow/graph/workflow.py:935-984 | a batch is empty or has two to eight runnable TODO tasks, on pairwise different paths, writes all of one priority |
| SelectionLaws.SelectIs | agentflow/graph/workflow.py:935-984 | a task joins the batch exactly if it is a search, a read of a new path, or a most urgent write of a new path, unless eight others go before it; writes go first, and fewer than two make no batch |
| BatchSelection.SelectParallelTasks | agentflow/graph/workflow.py:935-984 | the scan with its candidate list and seen set yields that selection |
| AgentLoop.DispatchInQueue | agentflow/graph/workflow.py:725-774 | the executor only ever starts TODO tasks, each once, and at least one when one is waiting |
| Workflows.Workflow.PlannerNode | agentflow/graph/workflow.py:563-597 | merging the plan and forcing completion is the planner step, on every plan and on a crash |
| Workflows.Workflow.QueryRewriterNode | agentflow/graph/workflow.py:642-680 | marks the first TODO task, of any tool, as running and changes nothing else |
| Workflows.Workflow.SearchNode | agentflow/graph/workflow.py:683-699 | finishes every running task and changes nothing else |
| Workflows.Workflow.ToolExecutorNode | agentflow/graph/workflow.py:725-820 | a parallel batch or the single next task is run and finished as the executor step says |
| Workflows.Workflow.MarkRunning | agentflow/graph/workflow.py:731-735 | exactly the batch is shown as running before it runs |
| Workflows.Workflow.RecordResults | agentflow/graph/workflow.py:736-756 | the n-th result finishes the n-th task of the batch |
| Workflows.Workflow.FindPythonTask | agentflow/agents/python/agent.py:123-129 | finds the first python task that waits or was left running |
| Workflows.Workflow.PythonNode | agentflow/agents/python/agent.py:37-121 | the status changes of the python agent, also when it crashes half way |
| Workflows.Workflow.ReflectorNode | agentflow/agents/reflection/agent.py:104-270 | applying a decision, refilling a stuck queue and setting the verdict is the reflector step |
| Workflows.Workflow.ApplyTo | agentflow/agents/reflection/agent.py:276-331 | updates, then new tasks, then removals, in that order |
| Workflows.Workflow.Visit | agentflow/graph/workflow.py:212-287 | one visit of a node and its router, written in place, is the step of the loop |
| Workflows.FinishIgnoresMarks | agentflow/graph/workflow.py:734-756 | showing the batch as running first makes no difference to how it is finished |
| LoopLaws.GoalAnalysisLeads | agentflow/graph/workflow.py:312-369 | the goal analysis leads to the knowledge base, the answer or the planner by goal type, knowledge source and source mode, and changes nothing |
| LoopLaws.PlannerVisitIs | agentflow/graph/workflow.py:563-597 | what a planner visit leaves in queue, plan, verdict and counters, forced completion at the cap included |
| LoopLaws.PlannerLeads | agentflow/graph/workflow.py:413-450 | the planner leads to the answer exactly when the plan says done or direct, the cap is reached with nothing waiting, or it was forced before; else the head of the queue decides |
| LoopLaws.ExecutorLeads | agentflow/graph/workflow.py:373-409 | over all runs, a failed last result leads to the reflector, otherwise the head of the queue decides, and with nothing waiting the reflector is next |
| LoopLaws.ExecutorVisitIs | agentflow/graph/workflow.py:725-820 | an executor visit finishes the batch, or the head alone, each task done or failed by its own outcome, and changes no other task |
| LoopLaws.PythonVisitIs | agentflow/agents/python/agent.py:50-121 | over all runs, the first python task ends done, failed with its error, or running after a crash, exactly by the outcome; nothing else changes |
| LoopLaws.IdlePythonVisitIs | agentflow/agents/python/agent.py:104-121 | without a python task the visit leaves the queue alone and reports no failure |
| LoopLaws.EmptyQueueReflects | agentflow/agents/reflection/agent.py:122-158 | an empty queue is refilled for a project with generated tasks and is the end of everything else |
| LoopLaws.ReflectorDecides | agentflow/agents/reflection/agent.py:160-270 | a claimed completion is believed exactly when a task writes a file, the template says so, or nothing can be generated; the other verdicts and the refill likewise |
| LoopLaws.ReflectorLeads | agentflow/graph/workflow.py:454-520 | where each verdict leads, with the replan limit, the stuck counter and the cycle cap, and that the counter counts idle rounds |
| ReflectionEffects.DecisionIs | agentflow/agents/reflection/agent.py:276-331 | a decision gives every task its last status and priority, appends the first usable entry of every new id, and takes out exactly the tasks it names |
| ReflectionEffects.AdditionsAre | agentflow/agents/reflection/agent.py:192-214 | a refill appends, waiting and in order, the first entry of every id the queue lacks |
| ReflectionEffects.SeedsAre | agentflow/agents/reflection/agent.py:124-140 | an empty project queue gets the generated entries with an id, waiting and in order |
| Termination.StepPays | agentflow/graph/workflow.py:372-520 | every node visit lowers a potential made of outstanding tasks, planner budget and node, but for the work it queues and two if it is wild |
| Termination.EveryRunEnds | agentflow/graph/workflow.py:214-287 | every run makes at most 2 * (planner cap) + 7 visits plus two for each task ever queued and two for each wild visit, whether or not the stuck counter persists |
| Termination.EveryRunEndsByRequests | agentflow/graph/workflow.py:214-287 | the same bound with the queued work read from the planner's and reflector's answers alone |
| Termination.NeverStuck | agentflow/graph/workflow.py:214-287 | short of the end there is always a way on |
| Termination.PlannerEntriesBounded | agentflow/config/termination.py:48-74 | the planner is entered at most max(1, cycle cap) + max(0, replan limit - 1) times, plus once for each wild visit |
| Termination.StretchBounded | agentflow/graph/workflow.py:372-409 | a stretch of executor visits is no longer than the number of todo and running tasks, plus the crashes of the python node in it |
| Termination.EndsThroughAnswerAndMemory | agentflow/graph/workflow.py:285-287 | a request that ends came through answer and then memory |
| Termination.QueuedAtMostRequested | agentflow/agents/planner/agent.py:395-399 | a step queues no more work than its answer asks for |
| Termination.TotalQueuedAtMostRequested | agentflow/agents/reflection/agent.py:276-331 | over a run, queued work is bounded by what was asked for |
| LoopWitnesses.KnowledgeTaskLoops | agentflow/graph/workflow.py:491-493 | with a knowledge task on top the planner is entered n + 1 times for any n, past every cap, with one task queued and n wild visits |
| LoopWitnesses.PythonCrashLoops | agentflow/agents/python/agent.py:124-129 | a python node that keeps crashing makes runs of any length with two tasks queued; every further visit is wild |
| LoopWitnesses.StaleReplanDefeatsTheCap | agentflow/graph/workflow.py:472-480 | a reflector crash on top of an old replan verdict re-enters the planner without raising the count: n + 1 entries in 3n + 5 visits, n + 1 tasks queued, n wild visits |
| DirectGoals.DirectGoalsFollowTheirCourse | agentflow/graph/workflow.py:311-369 | conversation, translation, editing and questions follow one fixed course of at most six visits: nothing is queued and no executor or reflector is visited |
| DirectGoals.KnowledgeConsultedOnceIff | agentflow/graph/workflow.py:328-369 | in every run past goal analysis the knowledge base has been visited exactly once if it was wanted and never if it was not |
| StickyDone.DoneSurvivesReflectorIff | agentflow/agents/reflection/agent.py:276-331 | a finished task stays finished through a reflector visit exactly when the decision neither re-opens nor removes it |
| StickyDone.StepKeepsDoneRecord | agentflow/graph/workflow.py:563-820 | planner, executors and search chain leave a finished task's record unchanged |
| StickyDone.IdsStayUnique | agentflow/agents/planner/task_queue.py:43-59 | task ids are unique in every state of every run |
| StickyDone.DoneStaysDone | agentflow/graph/workflow.py:550-820 | over whole runs a finished task stays finished and is never started or finished again |
| StickyDone.SearchChainEffect | agentflow/graph/workflow.py:660-697 | rewriter and search together finish every running task and the first TODO task of any tool, and leave all others alone |
| StickyDone.RoutedSearchIsFinishedIff | agentflow/graph/workflow.py:660-697 | when the request closes after a search, the routed task is finished exactly when no TODO task precedes it; otherwise another task is, and the routed one is unchanged |
| LoopWitnesses.TaskFinishedUnrun | agentflow/graph/workflow.py:660-697 | a whole run in which a task no executor visited ends done while the search ends undone, for any two tasks of rising priority |
| ParallelFiles.LocalStepsCommute | agentflow/tools/filesystem_tool.py:293-366 | single steps of independent file actions commute; opening, which empties the file, and writing are steps of their own |
| ParallelFiles.ListingSeesNothing | agentflow/tools/filesystem_tool.py:570-622 | a listing or tree does not notice a step of a task elsewhere and changes nothing |
| ParallelFiles.SchedulesCommute | agentflow/graph/executor.py:294-318 | whole schedules of an independent batch commute |
| ParallelFiles.CompleteSchedulesAgree | agentflow/graph/executor.py:311-318 | any two schedules that let every task finish end alike |
| ParallelFiles.AloneIsCommand | agentflow/tools/registry.py:217-286 | the small steps of a task that runs alone amount to the registry's call: validation first, then the action |
| ParallelFiles.ParallelEqualsSerial | agentflow/graph/executor.py:277-320 | every complete interleaving gives the disk and the results of every serial order |
| ParallelFiles.OwnResult | agentflow/graph/executor.py:277-320 | each task gets the result it would get alone on the disk the batch found |
| ParallelFiles.WriteEffect | agentflow/tools/filesystem_tool.py:313-327 | a successful write puts the text in the file, makes its parents and touches nothing else |
| FileEffects.ReadAfterWrite | agentflow/tools/filesystem_tool.py:313-366 | what was written is read back and shown by exists |
| FileEffects.ReadAfterAppend | agentflow/tools/filesystem_tool.py:313-366 | what was written and then appended is read back, in that order |
| FileEffects.AppendIs | agentflow/tools/filesystem_tool.py:329-347 | an append adds the text at the end of the file and changes no other place; without a file it fails and changes nothing |
| FileEffects.CreatedIsThere | agentflow/tools/filesystem_tool.py:293-311 | a create on a free place has the effect of a write |
| FileEffects.CreateIs | agentflow/tools/filesystem_tool.py:293-311 | a create is a write where nothing stands, and fails and changes nothing where something does |
| FileEffects.WriteBelowFile | agentflow/tools/filesystem_tool.py:319-327 | a write below a file fails, having made the directories above that file and nothing else |
| FileEffects.WriteOverDirectory | agentflow/tools/filesystem_tool.py:319-327 | a write over a directory fails and leaves it there |
| FileEffects.LookIs | agentflow/tools/filesystem_tool.py:554-568 | the workspace itself is always there as a directory; elsewhere a path shows exactly what the disk holds |
| FileEffects.LookingIs | agentflow/tools/filesystem_tool.py:349-366 | a read gives the text of the file and nothing else does; a check gives what stands there; neither changes the disk |
| FileEffects.ListingIs | agentflow/tools/filesystem_tool.py:570-622 | a listing or tree shows all that stands at and below its directory and nothing else |
| FileEffects.RefusedIs | agentflow/tools/registry.py:240-249 | a refused task fails and changes nothing, whatever its action; a search never touches the disk |
| ParallelFiles.SharedTargetRaces | agentflow/graph/workflow.py:961-965 | on every disk that lets them through, two writes of different texts to one file end with the text of the last, so the serial orders differ |
| ParallelFiles.Workspace.Perform | agentflow/tools/registry.py:240-258 | one call, written in place, has the effect and result of the command; a refused path fails every action |
| ParallelFiles.Workspace.MakeAndWrite | agentflow/tools/filesystem_tool.py:319-327 | parents are made top down until a file stands in the way, then the text is written |
| ParallelFiles.ExecuteBatchParallel | agentflow/graph/executor.py:277-320 | whatever the schedule and completion order, results come back by index and equal those of every serial order |
| BatchExecution.OutcomeLandsOnItsTask | agentflow/graph/workflow.py:736-756 | the k-th outcome lands on the k-th task of the batch |
| BatchExecution.SelectedBatchEqualsSerial | agentflow/graph/workflow.py:725-765 | for a selected batch of any actions with resolved paths apart, the disk ends as in every serial order and every task has the result of its own action alone; failing searches and refused paths are among the results |
| BatchExecution.SelectedTaskEnds | agentflow/graph/workflow.py:736-756 | a success ends done, a failure no repair touches ends as its own action says, and a search ends done exactly when it was let through and had a reply |
| BatchExecution.SearchAlone | agentflow/tools/search_tool.py:76-98 | a search fails without a query, when its provider raises and when the registry refuses it, and only then |
| BatchExecution.ActionsAre | agentflow/tools/filesystem_tool.py:680-697 | which action a task is, by its tool and the action in its input |
| BatchExecution.RepairBatch | agentflow/graph/workflow.py:736-746 | the loop gives each failed file task, in batch order, its one repair on the disk as it then is |
| BatchExecution.RepairedIs | agentflow/graph/workflow.py:736-756 | exactly the failed file tasks with a repair get its result, each on the disk the one before left |
| BatchExecution.UnrepairedStays | agentflow/graph/workflow.py:839-850 | a result that is never repaired, as a success or a search, stays through the repairs of the others |
| BatchExecution.DifferentNamesAreSelected | agentflow/graph/workflow.py:961-965 | two waiting writes of one priority are selected together whenever their stripped names differ |
| BatchExecution.SelectedPairRaces | agentflow/graph/workflow.py:961-965 | if such names resolve to one file, the batch the selector forms races, for all texts that differ |
| BatchExecution.DotSlashRaces | agentflow/graph/workflow.py:961-965 | the plainest such queue: the names a and ./a |
| CircuitBreakers.StateIsHistory | agentflow/services/llm_service.py:66-112 | in every interleaving and for every threshold the failure count is the trailing failures since the last success, CLOSED holds exactly below max(1, threshold), and above it HALF_OPEN exactly when a thread took the lock since |
| CircuitBreakers.FailedProbeReopens | agentflow/services/llm_service.py:102-112 | a failing probe re-opens the circuit in every reachable state and for every threshold, as the class promises and no branch says |
| CircuitBreakers.TimeGuardHoldsIff | agentflow/services/llm_service.py:66-75 | a thread that saw the timeout elapsed finds it so when it gets the lock exactly when every request that failed meanwhile is itself timed out by then; at the time of its look, exactly when none failed; it probes in either case |
| CircuitBreakers.StaleTimeoutProbes | agentflow/services/llm_service.py:69-75 | the guard can fail there: from a fresh breaker two threads reach a probe that starts right after a recorded failure |
| CircuitBreakers.OutageBound | agentflow/services/llm_service.py:66-112 | while every call fails the service is called at most threshold + floor(T / timeout) times by time T after opening |
| CircuitBreakers.RequestsCalls | agentflow/services/llm_service.py:366-381 | m requests make at most 3m calls |
| CircuitBreakers.OutageOfRequests | agentflow/services/llm_service.py:336-381 | both bounds hold for retried requests in an outage, since rejected attempts are not failures |
| CircuitBreakers.CircuitBreaker.State | agentflow/services/llm_service.py:66-75 | reading the state opens the probe window exactly after the timeout |
| CircuitBreakers.CircuitBreaker.RecordFailure | agentflow/services/llm_service.py:102-112 | counts the failure, dates it and opens at the threshold |
| CircuitBreakers.CircuitBreaker.TryCall | agentflow/services/llm_service.py:77-93 | one guarded call: rejected, answered or raised, with the breaker after it |
| CircuitBreakers.CircuitBreaker.CallWithRetry | agentflow/services/llm_service.py:366-381 | the retry loop stops at the first answer and counts only calls that reached the service |
| CircuitBreakers.CallIsMoves | agentflow/services/llm_service.py:66-112 | a call alone is the run of one thread that looks, takes the lock if the timeout has elapsed, reads the state and ends its request, and when it is turned away or answered |
| CircuitBreakers.CallsFollowHistory | agentflow/services/llm_service.py:66-112 | used one call at a time, answered calls among them, the breaker counts the failures since the last answer, is CLOSED exactly below the threshold and OPEN otherwise |
| CircuitBreakers.RequestIsItsTries | agentflow/services/llm_service.py:366-381 | a request is its attempts in a row up to the first answer; an answered one leaves the breaker CLOSED with no failures |
| CircuitBreakers.RequestsAreTheirTries | agentflow/services/llm_service.py:366-381 | any requests leave the breaker their tries in a row would leave |
| CircuitBreakers.NodesAreIsolated | agentflow/services/llm_service.py:278-286 | a node's breaker is what its own requests made of it |
| KnowledgeStores.InsertChunksShape | agentflow/database/sqlite.py:520-527 | inserting a document's texts adds rows with consecutive fresh ids, mirrored in the full-text table |
| KnowledgeStores.AddSound | agentflow/knowledge/store.py:68-143 | an ingest that fails anywhere keeps ids fresh, vectors genuine and full-text rows equal to the chunks |
| KnowledgeStores.DeleteSound | agentflow/knowledge/store.py:158-171 | so does a delete, also one the index refuses half way or the tables refuse after the points are gone |
| KnowledgeStores.RebuildSound | agentflow/knowledge/store.py:223-251 | so does a rebuild, also with points left behind by a failed reset or tables that refuse to be cleared after it |
| KnowledgeStores.NoAliasing | agentflow/knowledge/store.py:109-138 | after any run no live vector was computed from another text, and the full-text rows are the chunks |
| KnowledgeStores.GoneForGood | agentflow/database/sqlite.py:126-135 | over any continuation a chunk id still present still has its text, and a freed id never returns |
| KnowledgeStores.DanglesForEver | agentflow/database/sqlite.py:126-135 | a point without a chunk never gets one again |
| IngestEffects.IngestedIsSearchable | agentflow/knowledge/store.py:91-143 | an ingest that returns has stored and indexed every text in order under its document and recorded the model and its dimension |
| IngestEffects.FailedIngestIsUndoneIff | agentflow/knowledge/store.py:109-138 | a failed ingest leaves the tables as they were exactly unless it broke between chunk rows or could not roll back |
| IngestEffects.DeleteRemovesTheDocument | agentflow/knowledge/store.py:158-171 | a delete removes the document's rows and points and nothing else |
| IngestEffects.FailedDeleteCanBeRepeated | agentflow/knowledge/store.py:163-171 | a delete that failed in the index or in the tables keeps every row, and repeating it has the full effect |
| IngestEffects.RebuildSwitchesModel | agentflow/knowledge/store.py:223-251 | a rebuild is accepted whatever model was recorded, and its own model takes over as soon as one of its documents comes back, whatever happens to the others |
| IngestEffects.RefusedRebuildCanBeRepeated | agentflow/knowledge/store.py:231-234 | a rebuild broken off there keeps every row, and repeating it ends as if the first had never been, but for points both resets left |
| RebuildEffects.AddIs | agentflow/knowledge/store.py:91-143 | when an ingest returns, and which rows and counters it leaves however it ends |
| RebuildEffects.AddPointsAre | agentflow/knowledge/store.py:117-138 | which points an ingest leaves however it ends, each the embedding of its text, and when the model and dimension are recorded |
| RebuildEffects.FailedDeleteIs | agentflow/knowledge/store.py:158-171 | a failed delete drops points of its own document only |
| RebuildEffects.OtherModelIsRefused | agentflow/knowledge/store.py:253-263 | an ingest under another model than the recorded one changes nothing |
| RebuildEffects.ClearedIs | agentflow/knowledge/store.py:231-234 | a rebuild starts from empty tables without a recorded model, with the counters where they were |
| RebuildEffects.ReturnedIs | agentflow/knowledge/store.py:237-251 | the number of documents a rebuild reports is that of the entries that come back |
| RebuildEffects.RebuildIs | agentflow/knowledge/store.py:223-251 | after a rebuild the tables hold exactly what the entries left, each document with its name and texts in order, under ids above the old counters |
| RebuildEffects.RebuiltIsSearchable | agentflow/knowledge/store.py:223-251 | every text of a document that came back has its row and its embedding by the rebuild's model |
| IngestEffects.IntactEntryReturns | agentflow/knowledge/store.py:237-250 | a document with text and without a fault does come back, whatever happened to those before it |
| IngestEffects.OnlyThisModel | agentflow/knowledge/store.py:237-250 | re-ingesting under one model never records another, and never loses it |
| EmbeddingModels.AddAgreesIff | agentflow/knowledge/store.py:117-138 | an ingest keeps every live vector in agreement with the recorded model exactly unless none was recorded, points landed before the model write, and the rollback failed |
| EmbeddingModels.ModelAgreesThroughoutIff | agentflow/knowledge/store.py:253-263 | over whole runs, between all calls and all documents of the rebuilds, the recorded model is the model of every searchable vector exactly when no ingest leaves vectors without a recorded model |
| EmbeddingModels.CleanRunAgrees | agentflow/knowledge/store.py:253-263 | a run without such an ingest ends in agreement, failed rollbacks that are harmless included |
| EmbeddingModels.FailedRollbackMixesModels | agentflow/knowledge/store.py:136-138 | one failed rollback on a fresh store leaves searchable vectors under no model, and any model is then accepted |
| KnowledgeBases.Database.AddChunk | agentflow/database/sqlite.py:520-527 | an inserted chunk and its trigger add one row to both tables |
| KnowledgeBases.Database.DeleteDocumentCascade | agentflow/database/sqlite.py:501-505 | deleting a document removes its chunks and their full-text rows, one row and trigger at a time |
| KnowledgeBases.Database.ClearAllKnowledge | agentflow/database/sqlite.py:507-516 | empties documents, chunks, their full-text rows and the model record, and keeps the id counters |
| KnowledgeBases.VectorIndex.Add | agentflow/knowledge/index.py:88-130 | the points that land are keyed by their chunk ids, others keep what they had |
| KnowledgeBases.PutIsUpsert | agentflow/knowledge/index.py:113-126 | for a document's fresh ids that is one vector per text |
| KnowledgeBases.KnowledgeStore.InsertRows | agentflow/knowledge/store.py:109-115 | the loop returns consecutive fresh ids, one per text |
| KnowledgeBases.KnowledgeStore.IndexDocument | agentflow/knowledge/store.py:117-135 | the guarded block, broken off at any write |
| KnowledgeBases.KnowledgeStore.AddDocument | agentflow/knowledge/store.py:68-143 | the ingest written in place is the ingest of the model, for every fault |
| KnowledgeBases.KnowledgeStore.DeleteDocument | agentflow/knowledge/store.py:158-171 | so is the delete, wherever it breaks |
| KnowledgeBases.KnowledgeStore.Rebuild | agentflow/knowledge/store.py:223-251 | so is the rebuild, broken off where the tables refuse to be cleared; it reports how many documents came back and how many did not |
| RankFusion.RrfFusion | agentflow/knowledge/retrieval.py:227-273 | scoring, stable sorting and cutting give the fusion for any iteration order of the id set; a repeated id counts by its last place, as in the dictionaries |
| RankFusion.DominanceDecides | agentflow/knowledge/retrieval.py:246-271 | at least as good in both rankings and better in one means strictly above, absent counting as rank 2k |
| RankFusion.AbsentRanksLast | agentflow/knowledge/retrieval.py:259-261 | with lists no longer than 2k, a chunk a list did not find ranks behind every chunk it found |
| RankFusion.BreakEven | agentflow/knowledge/retrieval.py:260-265 | a chunk at rank r in both lists beats the best single-list chunk exactly when r (60 + k) < 60 k |
| RankFusion.AgreementBeatsSingles | agentflow/knowledge/retrieval.py:246-271 | a chunk ranked below 60k/(60+k) by both lists stands above every chunk only one list found |
| RankFusion.FuseKeepsTheBest | agentflow/knowledge/retrieval.py:256-273 | the result has min(k, found) distinct chunks, best first, each with its own scores |
| RankFusion.CutLosesOnlyWorse | agentflow/knowledge/retrieval.py:270-273 | nothing left out scores more than anything kept |
| RankFusion.DisplayedScore | agentflow/knowledge/retrieval.py:262-268 | a single-list chunk shows that list's share, and the weighted score lies between the two similarities |
| RankFusion.EntryIs | agentflow/knowledge/retrieval.py:256-270 | every entry carries 1/(60 + a) + 1/(60 + b) for its two places, its similarities and their weighted sum |
| RankFusion.IterationOrderOnlyBreaksTies | agentflow/knowledge/retrieval.py:256-273 | place n carries the same fusion score whatever order the id set is iterated in |
| RankFusion.TiesKeepOrder | agentflow/knowledge/retrieval.py:270-273 | of two chunks with one fusion score, the one met first in the id set stands first |
| Retrieval.FormatOneSide | agentflow/knowledge/retrieval.py:277-354 | the two formatting loops select the first hits that qualify and show those that are live |
| Retrieval.HybridSearch | agentflow/knowledge/retrieval.py:113-152 | dispatching on which lists are empty, fusing and filtering give the search result |
| SearchResults.HybridSearchIs | agentflow/knowledge/retrieval.py:113-152 | a chunk is among the results exactly if it is live, wanted, in the fused top k and good enough; in fusion order, each once, none exactly when there is no such chunk |
| SearchResults.OneSidedSearchIs | agentflow/knowledge/retrieval.py:277-354 | with one list empty, the results are the live ones among the first good hits of the other, in its order, each with its own score on its own side |
| Retrieval.SearchIsGrounded | agentflow/knowledge/retrieval.py:113-152 | over a sound store every hit is a live chunk with its own document, text and score, wanted and good enough |
| Retrieval.SearchAfterAnyRun | agentflow/knowledge/retrieval.py:128-152 | the same after any run of ingests, deletes and rebuilds, however they failed |
| Retrieval.SearchUsesOneModel | agentflow/knowledge/store.py:208-216 | if no ingest left vectors without a recorded model, a vector score comes from the model the search was checked against |
| Retrieval.HybridHitScores | agentflow/knowledge/retrieval.py:141-150 | a hybrid hit shows its own similarity from each list and their weighted sum |
| Retrieval.NoHitIsMissing | agentflow/knowledge/retrieval.py:133-150 | every fused chunk that qualifies is among the hits |
| Retrieval.HybridHitsAreRanked | agentflow/knowledge/retrieval.py:133-150 | the hits keep the order of the fusion |
| Retrieval.FilteredSearchIsFull | agentflow/knowledge/retrieval.py:287-296 | with a document filter a one-sided search is full unless every qualifying hit is in it |
| Retrieval.UnfilteredSearchIsFullIff | agentflow/knowledge/retrieval.py:287-315 | without one it is full exactly when every hit it takes is live |
| Retrieval.RolledBackPointTakesThePlace | agentflow/knowledge/retrieval.py:287-315 | such a store is reachable: a rolled-back ingest and one more document, for every model, text and query |
| Retrieval.DanglingHitTakesThePlace | agentflow/knowledge/retrieval.py:287-315 | a dangling point first in line uses up the only place, and the filtered search shows the live one |
| Reranker.Rerank | agentflow/knowledge/reranker.py:65-121 | the two loops and the cut give the reordering for any list of integers |
| Reranker.RankingSortsCandidates | agentflow/knowledge/reranker.py:105-116 | every candidate appears once, sorted by first mention, the unmentioned after them in their own order |
| Reranker.OnlyOneSuchOrder | agentflow/knowledge/reranker.py:105-116 | that description fixes the order completely |
| Reranker.RerankedKeepsCandidates | agentflow/knowledge/reranker.py:105-121 | no candidate is lost or doubled, and the caller gets the first top_k |
| Reranker.NothingToRerank | agentflow/knowledge/reranker.py:68-96 | a single result, or an answer without an order, leaves the results as they are |
| Reranker.AgreeingAnswerKeepsOrder | agentflow/knowledge/reranker.py:105-121 | an answer that agrees with the list changes nothing |
| EmbeddingCaches.EmbeddingCache.Lookup | agentflow/knowledge/embedding_cache.py:62-92 | vectors aligned with the texts, and exactly the misses with their positions |
| EmbeddingCaches.EmbeddingCache.Store | agentflow/knowledge/embedding_cache.py:94-108 | the pairs that reach the table are keyed by text digest and model |
| EmbeddingCaches.EmbeddingCache.Merge | agentflow/knowledge/embedding_cache.py:110-119 | the gaps are filled in order and what is present is returned |
| EmbeddingCaches.Embedder.EmbedApi | agentflow/knowledge/embedder.py:119-135 | batching changes neither the answers nor their order, for every batch size, zero and negative included |
| EmbeddingCaches.Embedder.Embed | agentflow/knowledge/embedder.py:98-117 | the cached call with its fallback; without trouble exactly the misses are sent |
| EmbeddingCaches.CacheIsTransparent | agentflow/knowledge/embedder.py:98-117 | over a cache in agreement the answer is the model's, in order, for any hits, misses, duplicates and cache trouble, and the cache stays in agreement |
| EmbeddingCaches.TransparentIff | agentflow/knowledge/embedder.py:119-135 | it is so exactly when the batch size is positive or nothing is missing |
| EmbeddingCaches.RaisesIff | agentflow/knowledge/embedder.py:98-135 | a call raises exactly if there is something to embed, the cache is of no help and the service refuses the direct call |
| EmbeddingCaches.PartialStoreStays | agentflow/knowledge/embedding_cache.py:94-108 | what reached the cache before it broke stays there |
| EmbeddingCaches.SecondCallSendsNothing | agentflow/knowledge/embedder.py:105-113 | the same call again finds everything |
| JsonNewlines.FixJsonNewlines | agentflow/agents/planner/agent.py:1198-1225 | the loop with its two flags is the transducer |
| JsonNewlines.FixIs | agentflow/agents/planner/agent.py:1205-1225 | character by character, a break inside a string and not behind an odd number of backslashes becomes a backslash and an n, and nothing else changes |
| JsonNewlines.FixKeepsStructure | agentflow/agents/planner/agent.py:1205-1224 | after every prefix the scanner stands over the output where it stands over the input |
| JsonNewlines.StringsFreeOfBreaksIff | agentflow/agents/reflection/agent.py:732-759 | no unescaped CR or LF is left in a string (RFC 8259, section 7), and none at all exactly when the input has none behind a backslash |
| JsonNewlines.FixIsIdentityIff | agentflow/agents/planner/agent.py:1205-1224 | the text is untouched exactly when no unescaped break stands inside a string |
| JsonNewlines.FixIsIdempotent | agentflow/agents/planner/agent.py:1198-1225 | repairing twice is repairing once |
| JsonNewlines.ReaderCannotTell | agentflow/agents/planner/agent.py:1221-1224 | a reader that takes raw breaks and the escape for one line feed gets the same content before and after |
| NameOrder.SortNames | agentflow/agents/answer/agent.py:324-324 | the names of a set in ascending order, each once |
| NameOrder.AscendingUnique | agentflow/agents/answer/agent.py:324-324 | that order is the only one |
| PathTrees.BuildEdges | agentflow/agents/answer/agent.py:315-319 | the dictionary's steps are exactly the prefixes of the paths |
| PathTrees.ParseRender | agentflow/agents/answer/agent.py:325-334 | indent, connector, name and directory mark can be read back from a line |
| PathTrees.DecodeEmit | agentflow/agents/answer/agent.py:323-334 | the lines below a key read back as its depth-first listing |
| PathTrees.WalkLists | agentflow/agents/answer/agent.py:323-334 | that listing rises in path order and holds exactly the nodes below the key, directories marked |
| PathTrees.LinesReadBack | agentflow/agents/answer/agent.py:308-337 | the whole tree reads back as the sorted list of all path prefixes with the directories among them |
| PathTreeDrawing.TreeIsDrawn | agentflow/agents/answer/agent.py:323-334 | the corner is drawn exactly for the last of its siblings, and a bar exactly below an ancestor with more siblings to come |
| PathTreeDrawing.LineIs | agentflow/agents/answer/agent.py:326-331 | four characters for every ancestor and four for the connector, then the name and a slash behind a directory |
| PathTreePrinters.BuildTree | agentflow/agents/answer/agent.py:314-319 | the nested loops with their setdefault fill that dictionary, for every list of paths |
| PathTreePrinters.FillMirrors | agentflow/agents/answer/agent.py:314-319 | where every path begins with a name, the dictionary keyed by joined strings holds the tree of the paths |
| PathTreePrinters.EmitChildren | agentflow/agents/answer/agent.py:323-334 | the recursive printer emits the lines of the tree |
| PathTreePrinters.KeysAreFaithful | agentflow/agents/answer/agent.py:318-326 | joined keys lose nothing, and a child's key is its joined path |
| PathTreePrinters.SplitJoin | agentflow/agents/answer/agent.py:314-318 | splitting undoes joining |
| PathTreePrinters.RootIsItsOwnChildIff | agentflow/agents/answer/agent.py:314-319 | the dictionary puts the root below itself exactly when some path is slashes only |
| PathTreePrinters.EmitWithinIsEmit | agentflow/agents/answer/agent.py:323-334 | where the keys are faithful, depth for the longest path is enough and gives the lines of the tree |
| PathTreePrinters.RecursionEndsIff | agentflow/agents/answer/agent.py:314-336 | the recursion ends, at any depth at all, exactly when every path is more than slashes |
| PathTreePrinters.BuildPathTree | agentflow/agents/answer/agent.py:308-337 | for such paths every printed line reads back, and together they give exactly the sorted set of path prefixes and their directories |
| Chunking.SplitCode | agentflow/knowledge/chunking.py:111-136 | the loop cuts at the matches |
| Chunking.CodeSplitTiles | agentflow/knowledge/chunking.py:111-136 | the bodies are slices in order with only white space around them, so every visible character is kept |
| Text.StripIs | agentflow/knowledge/chunking.py:84-96 | stripping takes white space off both ends and nothing else |
| ChunkLaws.CodeSplitIs | agentflow/knowledge/chunking.py:111-136 | one section for what stands before the first match, if anything does, and one for every match, to the next |
| ChunkLaws.CodeShares | agentflow/knowledge/chunking.py:284-292 | section by section, the chunks are the body or its pieces |
| Chunking.ChunkByCode | agentflow/knowledge/chunking.py:269-292 | sections are passed on whole or through the splitter, in order |
| Chunking.CodeChunksKeepInkIff | agentflow/knowledge/chunking.py:269-292 | with or without overlap, the chunks show every visible character in order and once exactly when the text is blank or the splitter does so for each section too long for one chunk |
| Chunking.CodeChunksCover | agentflow/knowledge/chunking.py:269-292 | where a splitter repeats itself every visible character still shows, in order, if it covers each section it gets |
| Chunking.SplitHeadings | agentflow/knowledge/chunking.py:72-97 | the loop pairs each heading with the text under it |
| Chunking.HeadingSplitKeepsInkIff | agentflow/knowledge/chunking.py:84-97 | every visible character is kept exactly when something visible stands under each heading |
| ChunkLaws.HeadingSplitIs | agentflow/knowledge/chunking.py:72-97 | one section for what stands before the first heading, if anything visible does, and one for every heading with something visible under it |
| ChunkLaws.HeadingShares | agentflow/knowledge/chunking.py:192-201 | section by section, the chunks are the whole section under its heading or each piece under it |
| ChunkLaws.MarkdownChunksCover | agentflow/knowledge/chunking.py:176-201 | every visible character of the text shows in the chunks, in order, where something stands under each heading and the splitter covers what it gets |
| Chunking.ChunkByMarkdown | agentflow/knowledge/chunking.py:176-201 | sections become one chunk, or one per piece of the splitter |
| Chunking.ChunksKeepTheirHeading | agentflow/knowledge/chunking.py:179-184 | every chunk opens with the heading of its own section |
| Compression.CompressHistory | agentflow/conversation/compression.py:119-165 | the pop-and-append loop leaves that window and summarises exactly the rest |
| Compression.WindowConservesAndIsLongest | agentflow/conversation/compression.py:141-153 | no message is lost, and over budget the window is the longest suffix of two or more permitted messages that fits, else the last two |
| Compression.FitsIffKept | agentflow/conversation/compression.py:150-153 | three or more permitted messages are kept exactly when they fit |
| Compression.KeepCountBounds | agentflow/conversation/compression.py:144-153 | a positive keep count is the most that is kept, and two messages the least |
| Compression.UntouchedIff | agentflow/conversation/compression.py:141-148 | the history comes back whole exactly when it fits, is empty, or the keep count is zero or covers it |
| Compression.SuffixCostsLess | agentflow/conversation/compression.py:30-39 | fewer messages never cost more tokens |
| Compression.CountTokensIs | agentflow/conversation/compression.py:30-39 | a token for every four characters of the joined contents, at least one for any text |
| PromptBudget.FormatPlannerPrompt | agentflow/graph/context_builder.py:237-264 | the truncation loop leaves that body and that note |
| PromptBudget.SurvivorsInOrder | agentflow/graph/context_builder.py:249-258 | the survivors are the undropped sections in their order, every core section among them |
| PromptBudget.NoteNamesTheLost | agentflow/graph/context_builder.py:256-262 | the note speaks of exactly the tiers that lost a section |
| PromptBudget.BodyWithinLimitOrCore | agentflow/graph/context_builder.py:246-260 | the body is within the limit or is the core sections and nothing else |
| PromptBudget.LimitIs | agentflow/graph/context_builder.py:249-252 | the limit is five per cent above the budget, rounded down, and blocks are joined by an empty line |
| PromptBudget.BodyIsSurvivors | agentflow/graph/context_builder.py:237-260 | whatever the budget, the body is the survivors under that limit and the note names the tiers of the others |
| PromptBudget.NothingDroppedIff | agentflow/graph/context_builder.py:240-258 | nothing is dropped exactly when the whole text fits the limit or is all core |
| PromptBudget.TiersRespectedIff | agentflow/graph/context_builder.py:243-258 | lower tiers go first exactly when, after the first loss, no section of a lower tier fits behind what is kept |
| PromptBudget.LowerTierOutlivesHigher | agentflow/graph/context_builder.py:243-258 | a tier 3 section can be lost while a tier 1 section stays |

## Left out

- Answers of language models, tools, templates and the Python sandbox: arbitrary inputs of the model.
- What the argument repair of a failed call changes: its effect on disk and result is arbitrary. Its exceptions are not modelled.
- Queue entries that are not dictionaries, dictionary values of another type than the field's, and two dictionaries that share one mutable list.
- LangGraph's recursion limit and exceptions that abort the graph.
- The routing of tools registered at run time beyond search, python and the tool executor.
- The text of a listing or tree: its result is what stands at and below the target, read in one step.
- A write that reaches the disk in several parts: after the opening, which empties the file, the text is written in one step.
- Symlinks, the workspace root and path safety: whether and where a path resolves is a parameter, as is every other reason for which the registry refuses a task. Code-fence stripping of file contents happens before the model's content.
- The worker limit of the thread pool: every schedule is allowed, so those of a smaller pool are among them.
- Undecodable files and other errors that are not OSError inside a file action.
- Breaker timing under concurrency: no bound on calls is claimed there, see StaleTimeoutProbes.
- Wall-clock jitter, back-off sleeps and float rounding: times and scores are reals, the clock does not run backwards. Display rounding to four digits is not modelled, nor is the float error in `max_chars * 1.05`.
- Qdrant, SQLite and FTS5 internals: maps, monotone counters, cascade and trigger rules; which rows match a query, and how well, is arbitrary. A build without FTS5 is the case of an empty lexical list.
- Document metadata, duplicate detection by content hash, and the order in which a rebuild reads the documents.
- The text splitter of LangChain: a function; what it keeps of a text is a hypothesis where used.
- The regular expressions for headings and definitions: the match positions are arbitrary, in order, and begin with a visible character.
- Parsing the reranker's answer, and negative candidate or result limits, which Python's slicing would read from the end.
- A negative top_k in searches.
- The wording of summaries and of the omission note: functions of the dropped messages and tiers.
- JSON repair beyond raw line breaks, intent heuristics, blueprints, prompts, HTTP endpoints, settings and logging.
- CircuitBreakers.OutageBound: for sequential use only, as concurrent probes are not bounded by the code.
- Retrieval.SearchUsesOneModel: excludes exactly the ingests of EmbeddingModels.ModelAgreesThroughoutIff, after which a searchable vector of another model exists.
- Chunking.CodeChunksKeepInkIff: for a splitter whose pieces show at least as much as each long section, or for one whose pieces show at most as much; one that loses from some sections and repeats in others is not covered.
- TaskQueues.TaskQueue.Update: keeps what some branch reads; the other fields are those of TaskRecords.RecordQueue.Update.
