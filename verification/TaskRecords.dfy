/** The whole task record and its plain-dict form (agentflow/graph/task.py), field by field.  Tasks keeps the
    fields that steer the runtime; Core is the step from here to there. */
module TaskRecords {

  import opened Options
  import T = Tasks
  import Q = TaskQueues

  /** What a dict entry may hold.  `Other` is any object JSON does not know, by its `str`. */
  datatype Value =
    | Null | Text(text: string) | Whole(whole: int) | Float(float: real) | Truth(truth: bool)
    | Items(items: seq<Value>) | Entries(entries: map<string, Value>)
    | Other(shown: string)

  datatype Record = Record(
    id: string, taskId: string, title: string, priority: int, dependencies: seq<string>, goal: string,
    capability: string, agent: string, tool: string, status: T.TaskStatus, parent: Option<string>,
    input: map<string, Value>, steps: seq<map<string, Value>>, result: Value, error: Option<string>,
    metadata: map<string, Value>, created: string, updated: string)

  /** The dict: a key that is absent is None. */
  datatype RecordDict = RecordDict(
    id: Option<string>, taskId: Option<string>, title: Option<string>, priority: Option<int>,
    dependencies: Option<seq<string>>, goal: Option<string>, capability: Option<string>, agent: Option<string>,
    tool: Option<string>, status: Option<string>, parent: Option<Option<string>>,
    input: Option<map<string, Value>>, steps: Option<seq<map<string, Value>>>, result: Option<Value>,
    error: Option<Option<string>>, metadata: Option<map<string, Value>>, created: Option<string>,
    updated: Option<string>)

  /** `data.get(key, default)`. */
  function Get<A>(entry: Option<A>, default: A): A {
    if entry.Some? then entry.value else default
  }

  /** `_safe_value`: only the value itself is looked at, not what it holds. */
  function Safe(v: Value): Value {
    if v.Other? then Text(v.shown) else v
  }

  /** `to_dict`. */
  function ToDict(t: Record): RecordDict {
    RecordDict(Some(t.id), Some(t.taskId), Some(t.title), Some(t.priority), Some(t.dependencies), Some(t.goal),
               Some(t.capability), Some(t.agent), Some(t.tool), Some(T.StatusValue(t.status)), Some(t.parent),
               Some(t.input), Some(t.steps), Some(Safe(t.result)), Some(t.error), Some(t.metadata),
               Some(t.created), Some(t.updated))
  }

  /** `from_dict`; `newId` is the id drawn for a dict without one, None the error on an unknown status. */
  function FromDict(d: RecordDict, newId: string): Option<Record> {
    match T.ParseStatus(Get(d.status, "todo"))
    case None => None
    case Some(status) =>
      Some(Record(Get(d.id, newId), Get(d.taskId, ""), Get(d.title, ""), Get(d.priority, 50),
                  Get(d.dependencies, []), Get(d.goal, ""), Get(d.capability, ""), Get(d.agent, ""),
                  Get(d.tool, ""), status, Get(d.parent, None), Get(d.input, map[]), Get(d.steps, []),
                  Get(d.result, Null), Get(d.error, None), Get(d.metadata, map[]), Get(d.created, ""),
                  Get(d.updated, "")))
  }

  /** A dict with every key. */
  predicate Full(d: RecordDict) {
    && d.id.Some? && d.taskId.Some? && d.title.Some? && d.priority.Some? && d.dependencies.Some? && d.goal.Some?
    && d.capability.Some? && d.agent.Some? && d.tool.Some? && d.status.Some? && d.parent.Some? && d.input.Some?
    && d.steps.Some? && d.result.Some? && d.error.Some? && d.metadata.Some? && d.created.Some? && d.updated.Some?
  }

  /** Every entry of `d` is one of `e`. */
  predicate Extends(d: RecordDict, e: RecordDict) {
    && (d.id.Some? ==> e.id == d.id) && (d.taskId.Some? ==> e.taskId == d.taskId)
    && (d.title.Some? ==> e.title == d.title) && (d.priority.Some? ==> e.priority == d.priority)
    && (d.dependencies.Some? ==> e.dependencies == d.dependencies) && (d.goal.Some? ==> e.goal == d.goal)
    && (d.capability.Some? ==> e.capability == d.capability) && (d.agent.Some? ==> e.agent == d.agent)
    && (d.tool.Some? ==> e.tool == d.tool) && (d.status.Some? ==> e.status == d.status)
    && (d.parent.Some? ==> e.parent == d.parent) && (d.input.Some? ==> e.input == d.input)
    && (d.steps.Some? ==> e.steps == d.steps) && (d.result.Some? ==> e.result == d.result)
    && (d.error.Some? ==> e.error == d.error) && (d.metadata.Some? ==> e.metadata == d.metadata)
    && (d.created.Some? ==> e.created == d.created) && (d.updated.Some? ==> e.updated == d.updated)
  }

  lemma StatusTrip(s: T.TaskStatus, v: string)
    ensures T.ParseStatus(T.StatusValue(s)) == Some(s)
    ensures T.ParseStatus(v).Some? ==> T.StatusValue(T.ParseStatus(v).value) == v
  {
  }

  /** A record survives the trip through its dict except for a result JSON does not know, which comes back
      as text; a second trip changes nothing. */
  lemma RecordRoundTripIff(t: Record, newId: string)
    ensures FromDict(ToDict(t), newId) == Some(t.(result := Safe(t.result)))
    ensures FromDict(ToDict(t), newId) == Some(t) <==> !t.result.Other?
    ensures ToDict(t.(result := Safe(t.result))) == ToDict(t)
  {
    StatusTrip(t.status, "");
  }

  /** A dict with a known status, or none, comes back with its own entries and the missing ones filled in.
      It comes back as it was exactly when it has every key and a result JSON knows. */
  lemma DictRoundTripIff(d: RecordDict, newId: string)
    ensures FromDict(d, newId).Some? <==> d.status.None? || T.ParseStatus(d.status.value).Some?
    ensures FromDict(d, newId).Some? ==>
              var e := ToDict(FromDict(d, newId).value);
              && Full(e)
              && Extends(d.(result := if d.result.Some? then Some(Safe(d.result.value)) else None), e)
              && (e == d <==> Full(d) && !d.result.value.Other?)
  {
    if FromDict(d, newId).Some? {
      StatusTrip(T.Todo, Get(d.status, "todo"));
      hide T.ParseStatus, T.StatusValue;
    }
  }

  /** An entry that is missing gets its default, and only the id is drawn anew. */
  lemma MissingEntriesAre(d: RecordDict, newId: string)
    ensures FromDict(d, newId).Some? ==>
              var t := FromDict(d, newId).value;
              && (d.id.None? ==> t.id == newId) && (d.priority.None? ==> t.priority == 50)
              && (d.status.None? ==> t.status == T.Todo)
              && (d.taskId.None? ==> t.taskId == "") && (d.title.None? ==> t.title == "")
              && (d.goal.None? ==> t.goal == "") && (d.capability.None? ==> t.capability == "")
              && (d.agent.None? ==> t.agent == "") && (d.tool.None? ==> t.tool == "")
              && (d.created.None? ==> t.created == "") && (d.updated.None? ==> t.updated == "")
              && (d.dependencies.None? ==> t.dependencies == []) && (d.steps.None? ==> t.steps == [])
              && (d.input.None? ==> t.input == map[]) && (d.metadata.None? ==> t.metadata == map[])
              && (d.result.None? ==> t.result == Null)
              && (d.error.None? ==> t.error == None) && (d.parent.None? ==> t.parent == None)
  {
    assert T.ParseStatus("todo") == Some(T.Todo);
    hide T.ParseStatus, T.StatusValue;
  }

  // ---------------------------------------------------------------- what JSON can write

  ghost predicate Plain(v: Value)
    decreases v
  {
    match v
    case Items(items) => forall x :: x in items ==> Plain(x)
    case Entries(entries) => forall k :: k in entries ==> Plain(entries[k])
    case Other(_) => false
    case _ => true
  }

  ghost predicate PlainEntries(m: map<string, Value>) {
    forall k :: k in m ==> Plain(m[k])
  }

  /** The dict can be written as JSON. */
  ghost predicate Writable(d: RecordDict) {
    && PlainEntries(Get(d.input, map[])) && PlainEntries(Get(d.metadata, map[])) && Plain(Get(d.result, Null))
    && forall m :: m in Get(d.steps, []) ==> PlainEntries(m)
  }

  /** Nested inside a list or a dict, an object JSON does not know is left as it is: the dict of a task is
      writable exactly when its input, steps, metadata and the inside of its result hold no such object. */
  lemma WritableIff(t: Record)
    ensures Writable(ToDict(t)) <==>
            && PlainEntries(t.input) && PlainEntries(t.metadata) && (forall m :: m in t.steps ==> PlainEntries(m))
            && (t.result.Other? || Plain(t.result))
  {
  }

  // ---------------------------------------------------------------- the queue

  function ToDicts(ts: seq<Record>): (ds: seq<RecordDict>)
    ensures |ds| == |ts| && forall i :: 0 <= i < |ts| ==> ds[i] == ToDict(ts[i])
  {
    seq(|ts|, i requires 0 <= i < |ts| => ToDict(ts[i]))
  }

  /** `from_dict_list`; each dict would draw its own id. */
  function FromDicts(ds: seq<RecordDict>, newIds: seq<string>): Option<seq<Record>>
    requires |newIds| == |ds|
  {
    if ds == [] then Some([])
    else
      match (FromDict(ds[0], newIds[0]), FromDicts(ds[1..], newIds[1..]))
      case (Some(t), Some(ts)) => Some([t] + ts)
      case _ => None
  }

  function SafeResults(ts: seq<Record>): (r: seq<Record>)
    ensures |r| == |ts| && forall i :: 0 <= i < |ts| ==> r[i] == ts[i].(result := Safe(ts[i].result))
  {
    seq(|ts|, i requires 0 <= i < |ts| => ts[i].(result := Safe(ts[i].result)))
  }

  /** What the runtime branches on. */
  function Core(t: Record): T.Task {
    T.Task(t.taskId, t.priority, t.tool, t.status, Entry(t.input, "action"), Entry(t.input, "path"),
           Entry(t.input, "content"), t.error)
  }

  function Entry(input: map<string, Value>, key: string): string {
    if key in input && input[key].Text? then input[key].text else ""
  }

  function Cores(ts: seq<Record>): (r: seq<T.Task>)
    ensures |r| == |ts| && forall i :: 0 <= i < |ts| ==> r[i] == Core(ts[i])
  {
    seq(|ts|, i requires 0 <= i < |ts| => Core(ts[i]))
  }

  /** The queue of records one node writes is the queue the next node reads, whatever ids are drawn: every
      field, but for results turned into text. */
  lemma {:induction false} RecordsRoundTrip(ts: seq<Record>, newIds: seq<string>)
    requires |newIds| == |ts|
    ensures FromDicts(ToDicts(ts), newIds) == Some(SafeResults(ts))
  {
    if ts != [] {
      assert ToDicts(ts)[1..] == ToDicts(ts[1..]);
      RecordsRoundTrip(ts[1..], newIds[1..]);
      RecordRoundTripIff(ts[0], newIds[0]);
      hide ToDict, FromDict;
      assert [SafeResults(ts)[0]] + SafeResults(ts[1..]) == SafeResults(ts);
    }
  }

  /** What the runtime branches on comes through untouched, as Tasks has it. */
  lemma CoresRoundTrip(ts: seq<Record>, newIds: seq<string>)
    requires |newIds| == |ts|
    ensures FromDicts(ToDicts(ts), newIds).Some?
    ensures Some(Cores(FromDicts(ToDicts(ts), newIds).value)) == T.FromDicts(T.ToDicts(Cores(ts)))
  {
    RecordsRoundTrip(ts, newIds);
    T.QueueRoundTrip(Cores(ts));
    hide FromDicts, ToDicts;
    assert Cores(SafeResults(ts)) == Cores(ts);
  }

  // ---------------------------------------------------------------- updating a record

  /** One keyword of `TaskQueue.update`.  `SetOther` is a name the record has no field for; Python then
      gives the object a further attribute, which no dict carries. */
  datatype Change =
    | SetStatus(status: T.TaskStatus) | SetStatusText(text: string) | SetStatusOther
    | SetId(id: string) | SetTitle(title: string) | SetPriority(priority: int)
    | SetDependencies(dependencies: seq<string>) | SetGoal(goal: string) | SetCapability(capability: string)
    | SetAgent(agent: string) | SetTool(tool: string) | SetParent(parent: Option<string>)
    | SetInput(input: map<string, Value>) | SetSteps(steps: seq<map<string, Value>>) | SetResult(result: Value)
    | SetError(error: Option<string>) | SetMetadata(metadata: map<string, Value>)
    | SetCreated(created: string) | SetUpdated(updated: string) | SetOther(key: string)

  function ChangeOne(t: Record, c: Change): Record {
    match c
    case SetStatus(status) => t.(status := status)
    case SetStatusText(text) =>
      var status := T.ParseStatus(Q.Lower(text));
      if status.Some? then t.(status := status.value) else t
    case SetStatusOther => t
    case SetId(id) => t.(id := id)
    case SetTitle(title) => t.(title := title)
    case SetPriority(priority) => t.(priority := priority)
    case SetDependencies(dependencies) => t.(dependencies := dependencies)
    case SetGoal(goal) => t.(goal := goal)
    case SetCapability(capability) => t.(capability := capability)
    case SetAgent(agent) => t.(agent := agent)
    case SetTool(tool) => t.(tool := tool)
    case SetParent(parent) => t.(parent := parent)
    case SetInput(input) => t.(input := input)
    case SetSteps(steps) => t.(steps := steps)
    case SetResult(result) => t.(result := result)
    case SetError(error) => t.(error := error)
    case SetMetadata(metadata) => t.(metadata := metadata)
    case SetCreated(created) => t.(created := created)
    case SetUpdated(updated) => t.(updated := updated)
    case SetOther(_) => t
  }

  function ChangeAll(t: Record, cs: seq<Change>): Record {
    if cs == [] then t else ChangeOne(ChangeAll(t, cs[..|cs| - 1]), cs[|cs| - 1])
  }

  /** The record that an update of `id` meets, by position. */
  function IndexOf(ts: seq<Record>, id: string): Option<nat> {
    Q.IndexOf(Cores(ts), id)
  }

  /** What a change means to the runtime. */
  function CoreChange(c: Change): Q.Change {
    match c
    case SetStatus(status) => Q.SetStatus(status)
    case SetStatusText(text) => Q.SetStatusText(text)
    case SetStatusOther => Q.SetStatusOther
    case SetPriority(priority) => Q.SetPriority(priority)
    case SetTool(tool) => Q.SetTool(tool)
    case SetError(error) => Q.SetError(error)
    case SetInput(input) => Q.SetInput(Entry(input, "action"), Entry(input, "path"), Entry(input, "content"))
    case _ => Q.SetUnread("")
  }

  function CoreChanges(cs: seq<Change>): (r: seq<Q.Change>)
    ensures |r| == |cs| && forall i :: 0 <= i < |cs| ==> r[i] == CoreChange(cs[i])
  {
    seq(|cs|, i requires 0 <= i < |cs| => CoreChange(cs[i]))
  }

  lemma CoreOfChange(t: Record, c: Change)
    ensures Core(ChangeOne(t, c)) == Q.ChangeOne(Core(t), CoreChange(c))
  {
    hide Q.Lower, T.ParseStatus, Entry;
  }

  /** Updating a record and then looking at what the runtime reads, or the other way round, is the same. */
  lemma {:induction false} CoreOfChanges(t: Record, cs: seq<Change>)
    ensures Core(ChangeAll(t, cs)) == Q.ChangeAll(Core(t), CoreChanges(cs))
  {
    if cs != [] {
      var n := |cs| - 1;
      CoreOfChanges(t, cs[..n]);
      CoreOfChange(ChangeAll(t, cs[..n]), cs[n]);
      hide Core, ChangeOne, Q.ChangeOne, CoreChange;
      assert CoreChanges(cs)[..n] == CoreChanges(cs[..n]);
    }
  }

  /** The records of a task queue. */
  class RecordQueue {
    var records: seq<Record>

    constructor (ts: seq<Record>)
      ensures records == ts
    {
      records := ts;
    }

    /** `update`: the first record with the task id gets every change, all others stay, and to the runtime
        this is the update of its queue. */
    method Update(id: string, changes: seq<Change>) returns (found: bool)
      modifies this
      ensures found <==> exists i :: 0 <= i < |old(records)| && old(records)[i].taskId == id
      ensures records == match IndexOf(old(records), id)
                         case None => old(records)
                         case Some(i) => old(records)[i := ChangeAll(old(records)[i], changes)]
      ensures Cores(records) == Q.ChangeId(Cores(old(records)), id, CoreChanges(changes))
    {
      var i := 0;
      while i < |records| && records[i].taskId != id
        invariant i <= |records| && forall k :: 0 <= k < i ==> records[k].taskId != id
      {
        i := i + 1;
      }
      IndexIs(records, id, i);
      if i == |records| {
        return false;
      }
      var task := records[i];
      for n := 0 to |changes|
        invariant task == ChangeAll(records[i], changes[..n])
      {
        assert changes[..n + 1][..n] == changes[..n];
        task := ChangeOne(task, changes[n]);
      }
      assert changes[..|changes|] == changes;
      CoreOfChanges(records[i], changes);
      CoresWithChange(records, i, task);
      records := records[i := task];
      return true;
    }
  }

  lemma IndexIs(ts: seq<Record>, id: string, i: nat)
    requires i <= |ts| && (forall k :: 0 <= k < i ==> ts[k].taskId != id) && (i < |ts| ==> ts[i].taskId == id)
    ensures IndexOf(ts, id) == if i < |ts| then Some(i) else None
  {
    var found := Q.IndexOf(Cores(ts), id);
    if found.Some? {
      assert Cores(ts)[found.value].taskId == ts[found.value].taskId;
    }
    assert i < |ts| ==> Cores(ts)[i].taskId == id;
  }

  lemma CoresWithChange(ts: seq<Record>, i: nat, t: Record)
    requires i < |ts|
    ensures Cores(ts[i := t]) == Cores(ts)[i := Core(t)]
  {
  }
}
