/** Work units of the agent runtime (agentflow/graph/task.py) and their plain-dict form.

    Only the fields that some branch of the runtime reads are kept.  `action`, `path` and `content`
    are the three keys of the task's `input` dict that the batch selector and the reflector look at. */
module Tasks {

  import opened Options

  datatype TaskStatus =
    | Todo | Running | Done | Failed | Blocked | Skipped
    | Pending | Ready | Waiting | Retrying | Completed | Cancelled

  datatype Task = Task(
    taskId: string,
    priority: int,
    tool: string,
    status: TaskStatus,
    action: string,
    path: string,
    content: string,
    error: Option<string>)

  /** The serialised task: the same fields, but the status is its text value. */
  datatype TaskDict = TaskDict(
    taskId: string,
    priority: int,
    tool: string,
    status: string,
    action: string,
    path: string,
    content: string,
    error: Option<string>)

  function StatusValue(s: TaskStatus): string {
    match s
    case Todo => "todo"
    case Running => "running"
    case Done => "done"
    case Failed => "failed"
    case Blocked => "blocked"
    case Skipped => "skipped"
    case Pending => "pending"
    case Ready => "ready"
    case Waiting => "waiting"
    case Retrying => "retrying"
    case Completed => "completed"
    case Cancelled => "cancelled"
  }

  /** `TaskStatus(value)`: None stands for the ValueError on an unknown text. */
  function ParseStatus(v: string): Option<TaskStatus> {
    if v == "todo" then Some(Todo)
    else if v == "running" then Some(Running)
    else if v == "done" then Some(Done)
    else if v == "failed" then Some(Failed)
    else if v == "blocked" then Some(Blocked)
    else if v == "skipped" then Some(Skipped)
    else if v == "pending" then Some(Pending)
    else if v == "ready" then Some(Ready)
    else if v == "waiting" then Some(Waiting)
    else if v == "retrying" then Some(Retrying)
    else if v == "completed" then Some(Completed)
    else if v == "cancelled" then Some(Cancelled)
    else None
  }

  lemma ParsedIff(v: string, s: TaskStatus)
    ensures ParseStatus(v) == Some(s) <==> v == StatusValue(s)
  {
  }

  function ToDict(t: Task): TaskDict {
    TaskDict(t.taskId, t.priority, t.tool, StatusValue(t.status), t.action, t.path, t.content, t.error)
  }

  function FromDict(d: TaskDict): Option<Task> {
    match ParseStatus(d.status)
    case None => None
    case Some(s) => Some(Task(d.taskId, d.priority, d.tool, s, d.action, d.path, d.content, d.error))
  }

  function ToDicts(ts: seq<Task>): (ds: seq<TaskDict>)
    ensures |ds| == |ts|
    ensures forall i :: 0 <= i < |ts| ==> ds[i] == ToDict(ts[i])
  {
    seq(|ts|, i requires 0 <= i < |ts| => ToDict(ts[i]))
  }

  /** `from_dict_list`: one unknown status makes the whole restore fail. */
  function FromDicts(ds: seq<TaskDict>): Option<seq<Task>> {
    if ds == [] then Some([])
    else
      match (FromDict(ds[0]), FromDicts(ds[1..]))
      case (Some(t), Some(ts)) => Some([t] + ts)
      case _ => None
  }

  /** A task survives the trip through its dict, and so does every dict whose status is known. */
  lemma DictRoundTrip(t: Task, d: TaskDict)
    ensures FromDict(ToDict(t)) == Some(t)
    ensures FromDict(d).Some? ==> ToDict(FromDict(d).value) == d
  {
  }

  /** The queue written by one node is the queue the next node reads. */
  lemma {:induction false} QueueRoundTrip(ts: seq<Task>)
    ensures FromDicts(ToDicts(ts)) == Some(ts)
  {
    if ts != [] {
      assert ToDicts(ts)[1..] == ToDicts(ts[1..]);
      QueueRoundTrip(ts[1..]);
      DictRoundTrip(ts[0], ToDict(ts[0]));
      assert [ts[0]] + ts[1..] == ts;
    }
  }
}
