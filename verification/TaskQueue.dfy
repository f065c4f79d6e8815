/** The prioritised task list (agentflow/agents/planner/task_queue.py) and the router's own lookup
    on the serialised list (agentflow/graph/workflow.py). */
module TaskQueues {

  import opened Tasks
  import opened Lists
  import opened Options

  // ---------------------------------------------------------------- specification functions

  /** Position of the first task carrying `id`. */
  function IndexOf(q: seq<Task>, id: string): (r: Option<nat>)
    ensures r.Some? ==> r.value < |q| && q[r.value].taskId == id
    ensures r.Some? ==> forall i :: 0 <= i < r.value ==> q[i].taskId != id
    ensures r.None? ==> forall i :: 0 <= i < |q| ==> q[i].taskId != id
  {
    if q == [] then None
    else if q[0].taskId == id then Some(0)
    else
      match IndexOf(q[1..], id)
      case None => None
      case Some(i) =>
        assert forall k :: 0 < k < |q| ==> q[k] == q[1..][k - 1];
        Some(i + 1)
  }

  function AddOne(q: seq<Task>, t: Task): seq<Task> {
    match IndexOf(q, t.taskId)
    case None => q + [t]
    case Some(i) => if q[i].status.Done? then q else q[i := t]
  }

  function AddAll(q: seq<Task>, ts: seq<Task>): seq<Task> {
    if ts == [] then q else AddOne(AddAll(q, ts[..|ts| - 1]), ts[|ts| - 1])
  }

  function RemoveId(q: seq<Task>, id: string): seq<Task> {
    match IndexOf(q, id)
    case None => q
    case Some(i) => q[..i] + q[i + 1..]
  }

  function Revise(t: Task, status: Option<TaskStatus>, priority: Option<int>): Task {
    t.(status := if status.Some? then status.value else t.status,
       priority := if priority.Some? then priority.value else t.priority)
  }

  function UpdateId(q: seq<Task>, id: string, status: Option<TaskStatus>, priority: Option<int>): seq<Task> {
    match IndexOf(q, id)
    case None => q
    case Some(i) => q[i := Revise(q[i], status, priority)]
  }

  /** One keyword of an update.  `SetUnread` is any field no branch of the runtime reads. */
  datatype Change =
    | SetStatus(status: TaskStatus) | SetStatusText(text: string) | SetStatusOther
    | SetPriority(priority: int) | SetTool(tool: string) | SetError(error: Option<string>)
    | SetInput(action: string, path: string, content: string)
    | SetUnread(key: string)

  /** `str.lower`, as far as the result can be ASCII: the Kelvin sign is the one such letter beyond it. */
  function LowerChar(c: char): char {
    if 'A' <= c <= 'Z' then c - 'A' + 'a' else if c == '\U{212A}' then 'k' else c
  }

  function Lower(s: string): (r: string)
    ensures |r| == |s| && forall i :: 0 <= i < |r| ==> r[i] == LowerChar(s[i])
  {
    seq(|s|, i requires 0 <= i < |s| => LowerChar(s[i]))
  }

  /** The status a change brings, if it names one. */
  function Accepted(c: Change): Option<TaskStatus> {
    match c
    case SetStatus(status) => Some(status)
    case SetStatusText(text) => ParseStatus(Lower(text))
    case _ => None
  }

  function ChangeOne(t: Task, c: Change): Task {
    match c
    case SetPriority(priority) => t.(priority := priority)
    case SetTool(tool) => t.(tool := tool)
    case SetInput(action, path, content) => t.(action := action, path := path, content := content)
    case SetError(error) => t.(error := error)
    case _ => if Accepted(c).Some? then t.(status := Accepted(c).value) else t
  }

  function ChangeAll(t: Task, cs: seq<Change>): Task {
    if cs == [] then t else ChangeOne(ChangeAll(t, cs[..|cs| - 1]), cs[|cs| - 1])
  }

  function ChangeId(q: seq<Task>, id: string, cs: seq<Change>): seq<Task> {
    match IndexOf(q, id)
    case None => q
    case Some(i) => q[i := ChangeAll(q[i], cs)]
  }

  /** The keywords the reflector passes. */
  function Keywords(status: Option<TaskStatus>, priority: Option<int>): seq<Change> {
    (if status.Some? then [SetStatus(status.value)] else [])
    + if priority.Some? then [SetPriority(priority.value)] else []
  }

  lemma ChangeOnly(t: Task, cs: seq<Change>)
    ensures |cs| == 1 ==> ChangeAll(t, cs) == ChangeOne(t, cs[0])
    ensures |cs| == 2 ==> ChangeAll(t, cs) == ChangeOne(ChangeOne(t, cs[0]), cs[1])
  {
    if |cs| == 2 {
      ChangeOnly(t, cs[..1]);
    }
  }

  lemma KeywordsRevise(t: Task, status: Option<TaskStatus>, priority: Option<int>)
    ensures ChangeAll(t, Keywords(status, priority)) == Revise(t, status, priority)
  {
    var cs := Keywords(status, priority);
    ChangeOnly(t, cs);
    assert cs == [] ==> ChangeAll(t, cs) == t;
    hide ChangeAll;
  }

  /** The reflector's update revises status and priority as UpdateId says. */
  lemma UpdateIsRevision(q: seq<Task>, id: string, status: Option<TaskStatus>, priority: Option<int>)
    ensures ChangeId(q, id, Keywords(status, priority)) == UpdateId(q, id, status, priority)
  {
    hide Keywords, ChangeAll, Revise, IndexOf;
    if IndexOf(q, id).Some? {
      KeywordsRevise(q[IndexOf(q, id).value], status, priority);
    }
  }

  lemma ChangedStatus(t: Task, c: Change)
    ensures ChangeOne(t, c).taskId == t.taskId
    ensures ChangeOne(t, c).status == if Accepted(c).Some? then Accepted(c).value else t.status
  {
  }

  /** Change `i` brings a status and no later one does. */
  ghost predicate LastAccepted(cs: seq<Change>, i: int) {
    0 <= i < |cs| && Accepted(cs[i]).Some? && forall j :: i < j < |cs| ==> Accepted(cs[j]).None?
  }

  /** The last accepted status stands, whatever refused ones follow; without one the status stays.  The
      task keeps its id. */
  lemma {:induction false} LastStatusStands(t: Task, cs: seq<Change>)
    ensures ChangeAll(t, cs).taskId == t.taskId
    ensures (forall i :: 0 <= i < |cs| ==> Accepted(cs[i]).None?) ==> ChangeAll(t, cs).status == t.status
    ensures forall i :: LastAccepted(cs, i) ==> ChangeAll(t, cs).status == Accepted(cs[i]).value
  {
    if cs != [] {
      var n := |cs| - 1;
      LastStatusStands(t, cs[..n]);
      ChangedStatus(ChangeAll(t, cs[..n]), cs[n]);
      hide Accepted, ChangeOne;
      forall i | LastAccepted(cs, i) ensures ChangeAll(t, cs).status == Accepted(cs[i]).value {
        assert i < n ==> LastAccepted(cs[..n], i);
      }
    }
  }

  /** The letter itself or its capital; the Kelvin sign is a capital k. */
  predicate InAnyCase(c: char, letter: char) {
    c == letter || ('a' <= letter <= 'z' && c as int == letter as int - 32) || (letter == 'k' && c == '\U{212A}')
  }

  lemma LowerIs(c: char, letter: char)
    requires 'a' <= letter <= 'z'
    ensures LowerChar(c) == letter <==> InAnyCase(c, letter)
  {
  }

  lemma StatusIsLower(s: TaskStatus)
    ensures forall i :: 0 <= i < |StatusValue(s)| ==> 'a' <= StatusValue(s)[i] <= 'z'
  {
  }

  /** A status text is accepted exactly when it spells a status letter by letter, in either case. */
  lemma AnyCaseIsAccepted(text: string, s: TaskStatus)
    ensures Accepted(SetStatusText(text)) == Some(s)
        <==> |text| == |StatusValue(s)| && forall i :: 0 <= i < |text| ==> InAnyCase(text[i], StatusValue(s)[i])
  {
    StatusTextAcceptedIff(text, s);
    StatusIsLower(s);
    hide StatusValue, ParseStatus, Accepted, LowerChar, InAnyCase;
    if |text| == |StatusValue(s)| {
      forall i | 0 <= i < |text|
        ensures LowerChar(text[i]) == StatusValue(s)[i] <==> InAnyCase(text[i], StatusValue(s)[i])
      {
        LowerIs(text[i], StatusValue(s)[i]);
      }
    }
  }

  /** The last change of each kind, if there is one. */
  function LastPriority(cs: seq<Change>): Option<int> {
    if cs == [] then None
    else if cs[|cs| - 1].SetPriority? then Some(cs[|cs| - 1].priority) else LastPriority(cs[..|cs| - 1])
  }

  function LastTool(cs: seq<Change>): Option<string> {
    if cs == [] then None
    else if cs[|cs| - 1].SetTool? then Some(cs[|cs| - 1].tool) else LastTool(cs[..|cs| - 1])
  }

  function LastError(cs: seq<Change>): Option<Option<string>> {
    if cs == [] then None
    else if cs[|cs| - 1].SetError? then Some(cs[|cs| - 1].error) else LastError(cs[..|cs| - 1])
  }

  function LastInput(cs: seq<Change>): Option<(string, string, string)> {
    if cs == [] then None
    else if cs[|cs| - 1].SetInput? then Some((cs[|cs| - 1].action, cs[|cs| - 1].path, cs[|cs| - 1].content))
    else LastInput(cs[..|cs| - 1])
  }

  function Or<A>(last: Option<A>, before: A): A {
    if last.Some? then last.value else before
  }

  /** Every other field holds what the last change of its kind says, or what it held. */
  lemma {:induction false} LastChangesStand(t: Task, cs: seq<Change>)
    ensures var u := ChangeAll(t, cs);
            && u.priority == Or(LastPriority(cs), t.priority)
            && u.tool == Or(LastTool(cs), t.tool)
            && u.error == Or(LastError(cs), t.error)
            && (u.action, u.path, u.content) == Or(LastInput(cs), (t.action, t.path, t.content))
  {
    if cs != [] {
      LastChangesStand(t, cs[..|cs| - 1]);
      LastChange(t, cs);
      hide ChangeOne, ChangeAll;
    }
  }

  lemma LastChange(t: Task, cs: seq<Change>)
    requires cs != []
    ensures var n := |cs| - 1;
            var before, u, c := ChangeAll(t, cs[..n]), ChangeAll(t, cs), cs[n];
            && u.priority == (if c.SetPriority? then c.priority else before.priority)
            && u.tool == (if c.SetTool? then c.tool else before.tool)
            && u.error == (if c.SetError? then c.error else before.error)
            && u.action == (if c.SetInput? then c.action else before.action)
            && u.path == (if c.SetInput? then c.path else before.path)
            && u.content == (if c.SetInput? then c.content else before.content)
  {
  }

  /** A status text is accepted in any letter case: the twelve texts and no others. */
  lemma StatusTextAcceptedIff(text: string, s: TaskStatus)
    ensures Accepted(SetStatusText(text)) == Some(s) <==> Lower(text) == StatusValue(s)
  {
    hide Lower;
    ParsedIff(Lower(text), s);
  }

  predicate HasTodo(q: seq<Task>) {
    exists i :: 0 <= i < |q| && q[i].status.Todo?
  }

  /** Index of the task to run next: of the TODO tasks with the highest priority, the first. */
  function NextTodo(q: seq<Task>): (r: Option<nat>)
    ensures r.None? <==> !HasTodo(q)
    ensures r.Some? ==> r.value < |q| && q[r.value].status.Todo?
    ensures r.Some? ==> forall j :: 0 <= j < |q| && q[j].status.Todo? ==> q[j].priority <= q[r.value].priority
    ensures r.Some? ==> forall j :: 0 <= j < r.value && q[j].status.Todo? ==> q[j].priority < q[r.value].priority
  {
    if q == [] then None
    else
      var n := |q| - 1;
      var best := NextTodo(q[..n]);
      assert forall j :: 0 <= j < n ==> q[j] == q[..n][j];
      if !q[n].status.Todo? then best
      else if best.Some? && q[best.value].priority >= q[n].priority then best
      else Some(n)
  }

  /** The task the queue object returns next. */
  function NextTask(q: seq<Task>): Option<Task> {
    if NextTodo(q).None? then None else Some(q[NextTodo(q).value])
  }

  // ---------------------------------------------------------------- the class

  class TaskQueue {
    var tasks: seq<Task>

    constructor (ts: seq<Task>)
      ensures tasks == ts
    {
      tasks := ts;
    }

    method FindIndex(id: string) returns (r: Option<nat>)
      ensures r == IndexOf(tasks, id)
    {
      for i := 0 to |tasks|
        invariant forall k :: 0 <= k < i ==> tasks[k].taskId != id
      {
        if tasks[i].taskId == id {
          return Some(i);
        }
      }
      return None;
    }

    method Add(ts: seq<Task>)
      modifies this
      ensures tasks == AddAll(old(tasks), ts)
    {
      for n := 0 to |ts|
        invariant tasks == AddAll(old(tasks), ts[..n])
      {
        assert ts[..n + 1][..n] == ts[..n];
        var t := ts[n];
        var idx := FindIndex(t.taskId);
        if idx.Some? {
          if !tasks[idx.value].status.Done? {
            tasks := tasks[idx.value := t];
          }
        } else {
          tasks := tasks + [t];
        }
      }
      assert ts[..|ts|] == ts;
    }

    method Remove(id: string) returns (found: bool)
      modifies this
      ensures tasks == RemoveId(old(tasks), id)
      ensures found <==> exists i :: 0 <= i < |old(tasks)| && old(tasks)[i].taskId == id
    {
      var idx := FindIndex(id);
      if idx.Some? {
        assert tasks[idx.value].taskId == id;
        tasks := tasks[..idx.value] + tasks[idx.value + 1..];
      }
      found := idx.Some?;
    }

    /** The named task gets its changes one after the other; an unknown status is passed over. */
    method Update(id: string, changes: seq<Change>) returns (found: bool)
      modifies this
      ensures tasks == ChangeId(old(tasks), id, changes)
      ensures found <==> exists i :: 0 <= i < |old(tasks)| && old(tasks)[i].taskId == id
    {
      var idx := FindIndex(id);
      if idx.None? {
        return false;
      }
      var task := tasks[idx.value];
      assert task.taskId == id;
      for n := 0 to |changes|
        invariant task == ChangeAll(tasks[idx.value], changes[..n])
      {
        assert changes[..n + 1][..n] == changes[..n];
        match changes[n]
        case SetStatus(status) => task := task.(status := status);
        case SetStatusText(text) =>
          var status := ParseStatus(Lower(text));
          if status.Some? {
            task := task.(status := status.value);
          }
        case SetStatusOther =>
        case SetPriority(priority) => task := task.(priority := priority);
        case SetTool(tool) => task := task.(tool := tool);
        case SetInput(action, path, content) => task := task.(action := action, path := path, content := content);
        case SetError(error) => task := task.(error := error);
        case SetUnread(_) =>
      }
      assert changes[..|changes|] == changes;
      tasks := tasks[idx.value := task];
      return true;
    }

    method GetNext() returns (r: Option<Task>)
      ensures r == NextTask(tasks)
    {
      var best: Option<nat> := None;
      for i := 0 to |tasks|
        invariant best == NextTodo(tasks[..i])
      {
        assert tasks[..i + 1][..i] == tasks[..i];
        if tasks[i].status.Todo? {
          if best.None? || tasks[best.value].priority < tasks[i].priority {
            best := Some(i);
          }
        }
      }
      assert tasks[..|tasks|] == tasks;
      r := if best.None? then None else Some(tasks[best.value]);
    }
  }

  // ---------------------------------------------------------------- refinement of a sticky map

  function Ids(q: seq<Task>): (r: seq<string>)
    ensures |r| == |q| && forall i :: 0 <= i < |q| ==> r[i] == q[i].taskId
  {
    seq(|q|, i requires 0 <= i < |q| => q[i].taskId)
  }

  ghost predicate UniqueIds(q: seq<Task>) {
    forall i, j :: 0 <= i < j < |q| ==> q[i].taskId != q[j].taskId
  }

  function Lookup(q: seq<Task>, id: string): Option<Task> {
    match IndexOf(q, id)
    case None => None
    case Some(i) => Some(q[i])
  }

  /** Every definition of `id` in a history of writes, oldest first. */
  function Versions(ts: seq<Task>, id: string): seq<Task> {
    if ts == [] then []
    else (if ts[0].taskId == id then [ts[0]] else []) + Versions(ts[1..], id)
  }

  function FirstDone(vs: seq<Task>): Option<Task> {
    if vs == [] then None else if vs[0].status.Done? then Some(vs[0]) else FirstDone(vs[1..])
  }

  /** Sticky map: the first finished definition wins, otherwise the last one written. */
  function Winner(vs: seq<Task>): Option<Task> {
    if vs == [] then None else if FirstDone(vs).Some? then FirstDone(vs) else Some(vs[|vs| - 1])
  }

  /** The distinct ids of a history in order of first appearance. */
  function FirstSeen(ids: seq<string>): seq<string> {
    if ids == [] then []
    else
      var before := FirstSeen(ids[..|ids| - 1]);
      if ids[|ids| - 1] in ids[..|ids| - 1] then before else before + [ids[|ids| - 1]]
  }

  lemma {:induction false} VersionsAppend(a: seq<Task>, b: seq<Task>, id: string)
    ensures Versions(a + b, id) == Versions(a, id) + Versions(b, id)
  {
    if a == [] {
      assert a + b == b;
    } else {
      assert (a + b)[0] == a[0] && (a + b)[1..] == a[1..] + b;
      VersionsAppend(a[1..], b, id);
      var first := if a[0].taskId == id then [a[0]] else [];
      assert (first + Versions(a[1..], id)) + Versions(b, id) == first + (Versions(a[1..], id) + Versions(b, id));
    }
  }

  lemma {:induction false} FirstDoneAppend(a: seq<Task>, b: seq<Task>)
    ensures FirstDone(a + b) == if FirstDone(a).Some? then FirstDone(a) else FirstDone(b)
  {
    if a == [] {
      assert a + b == b;
    } else {
      assert (a + b)[1..] == a[1..] + b;
      FirstDoneAppend(a[1..], b);
    }
  }

  lemma {:induction false} FirstDoneIsDone(vs: seq<Task>)
    ensures FirstDone(vs).Some? ==> FirstDone(vs).value.status.Done?
    ensures FirstDone(vs).None? ==> forall i :: 0 <= i < |vs| ==> !vs[i].status.Done?
  {
    if vs != [] { FirstDoneIsDone(vs[1..]); }
  }

  /** What a write of `t` leaves behind when `current` is stored. */
  function StickyWrite(current: Option<Task>, t: Task): Task {
    if current.Some? && current.value.status.Done? then current.value else t
  }

  lemma WinnerAppend(vs: seq<Task>, t: Task)
    ensures Winner(vs + [t]) == Some(StickyWrite(Winner(vs), t))
  {
    FirstDoneAppend(vs, [t]);
    FirstDoneIsDone(vs);
    assert FirstDone([t]) == if t.status.Done? then Some(t) else None by { assert [t][1..] == []; }
  }

  lemma AddOneShape(q: seq<Task>, t: Task)
    requires UniqueIds(q)
    ensures UniqueIds(AddOne(q, t))
    ensures Ids(AddOne(q, t)) == if t.taskId in Ids(q) then Ids(q) else Ids(q) + [t.taskId]
  {
    match IndexOf(q, t.taskId) {
      case None =>
        assert forall i :: 0 <= i < |q| ==> Ids(q)[i] != t.taskId;
      case Some(i) =>
        assert Ids(q)[i] == t.taskId;
        assert Ids(AddOne(q, t)) == Ids(q);
    }
  }

  lemma AddOneLookup(q: seq<Task>, t: Task, id: string)
    requires UniqueIds(q)
    ensures Lookup(AddOne(q, t), id) == if id != t.taskId then Lookup(q, id) else Some(StickyWrite(Lookup(q, id), t))
  {
    var q' := AddOne(q, t);
    AddOneShape(q, t);
    match IndexOf(q, id) {
      case Some(i) =>
        assert q'[i].taskId == id;
        LookupAt(q', id, i);
      case None =>
        if id == t.taskId { LookupAt(q', id, |q|); }
    }
  }

  lemma LookupAt(q: seq<Task>, id: string, i: nat)
    requires UniqueIds(q) && i < |q| && q[i].taskId == id
    ensures Lookup(q, id) == Some(q[i])
  {
  }

  lemma {:induction false} VersionsAbsent(q: seq<Task>, id: string)
    requires forall i :: 0 <= i < |q| ==> q[i].taskId != id
    ensures Versions(q, id) == []
  {
    if q != [] { VersionsAbsent(q[1..], id); }
  }

  lemma {:induction false} VersionsOfUnique(q: seq<Task>, id: string)
    requires UniqueIds(q)
    ensures Versions(q, id) == if Lookup(q, id).None? then [] else [Lookup(q, id).value]
  {
    if q != [] {
      var r := q[1..];
      assert forall i :: 0 <= i < |r| ==> r[i] == q[i + 1];
      if q[0].taskId == id {
        VersionsAbsent(r, id);
      } else {
        VersionsOfUnique(r, id);
      }
    }
  }

  lemma WinnerOfSingle(vs: seq<Task>)
    requires |vs| == 1
    ensures Winner(vs) == Some(vs[0])
  {
    assert FirstDone(vs[1..]) == None;
  }

  lemma {:induction false} FirstSeenUnique(q: seq<Task>)
    requires UniqueIds(q)
    ensures FirstSeen(Ids(q)) == Ids(q)
  {
    if q != [] {
      var n := |q| - 1;
      assert Ids(q)[..n] == Ids(q[..n]) && Ids(q)[n] !in Ids(q)[..n];
      assert Ids(q) == Ids(q)[..n] + [Ids(q)[n]];
      assert FirstSeen(Ids(q)) == FirstSeen(Ids(q)[..n]) + [Ids(q)[n]];
      assert UniqueIds(q[..n]);
      hide *;
      FirstSeenUnique(q[..n]);
    }
  }

  lemma {:induction false} FirstSeenSame(ids: seq<string>)
    ensures forall x :: x in FirstSeen(ids) <==> x in ids
    ensures forall i, j :: 0 <= i < j < |FirstSeen(ids)| ==> FirstSeen(ids)[i] != FirstSeen(ids)[j]
  {
    if ids != [] {
      var n := |ids| - 1;
      FirstSeenSame(ids[..n]);
      assert ids == ids[..n] + [ids[n]];
    }
  }

  lemma FirstSeenSnoc(ids: seq<string>, x: string)
    ensures FirstSeen(ids + [x]) == if x in ids then FirstSeen(ids) else FirstSeen(ids) + [x]
  {
    assert (ids + [x])[..|ids|] == ids;
  }

  lemma FirstSeenMembers(ids: seq<string>, x: string)
    ensures x in FirstSeen(ids) <==> x in ids
  {
    FirstSeenSame(ids);
  }

  lemma {:induction false} AddAllIds(q: seq<Task>, ts: seq<Task>)
    requires UniqueIds(q)
    ensures UniqueIds(AddAll(q, ts))
    ensures Ids(AddAll(q, ts)) == FirstSeen(Ids(q) + Ids(ts))
  {
    hide AddOne, FirstSeen, UniqueIds;
    if ts == [] {
      assert Ids(q) + Ids(ts) == Ids(q);
      FirstSeenUnique(q);
    } else {
      var n := |ts| - 1;
      AddAllIds(q, ts[..n]);
      AddOneShape(AddAll(q, ts[..n]), ts[n]);
      IdsSnoc(q, ts);
      FirstSeenSnoc(Ids(q) + Ids(ts[..n]), ts[n].taskId);
      FirstSeenMembers(Ids(q) + Ids(ts[..n]), ts[n].taskId);
    }
  }

  lemma IdsSnoc(q: seq<Task>, ts: seq<Task>)
    requires ts != []
    ensures Ids(q) + Ids(ts) == (Ids(q) + Ids(ts[..|ts| - 1])) + [ts[|ts| - 1].taskId]
  {
  }

  /** One more write, seen from the history side. */
  lemma HistorySnoc(h: seq<Task>, t: Task, id: string)
    ensures id != t.taskId ==> Winner(Versions(h + [t], id)) == Winner(Versions(h, id))
    ensures id == t.taskId ==> Winner(Versions(h + [t], id)) == Some(StickyWrite(Winner(Versions(h, id)), t))
  {
    VersionsAppend(h, [t], id);
    assert [t][1..] == [];
    if id == t.taskId {
      assert Versions([t], id) == [t];
      WinnerAppend(Versions(h, id), t);
    } else {
      assert Versions([t], id) == [];
      assert Versions(h, id) + [] == Versions(h, id);
    }
  }

  lemma AddAllUnfold(q: seq<Task>, ts: seq<Task>)
    ensures ts == [] ==> AddAll(q, ts) == q && q + ts == q
    ensures ts != [] ==> AddAll(q, ts) == AddOne(AddAll(q, ts[..|ts| - 1]), ts[|ts| - 1])
  {
  }

  lemma UniqueLookup(q: seq<Task>, id: string)
    requires UniqueIds(q)
    ensures Lookup(q, id) == Winner(Versions(q, id))
  {
    VersionsOfUnique(q, id);
    if Lookup(q, id).Some? { WinnerOfSingle(Versions(q, id)); }
  }

  lemma {:induction false} AddAllLookup(q: seq<Task>, ts: seq<Task>, id: string)
    requires UniqueIds(q)
    ensures Lookup(AddAll(q, ts), id) == Winner(Versions(q + ts, id))
  {
    AddAllUnfold(q, ts);
    hide *;
    if ts == [] {
      UniqueLookup(q, id);
    } else {
      var n := |ts| - 1;
      AddAllLookup(q, ts[..n], id);
      AddAllIds(q, ts[..n]);
      AddOneLookup(AddAll(q, ts[..n]), ts[n], id);
      assert q + ts == (q + ts[..n]) + [ts[n]];
      HistorySnoc(q + ts[..n], ts[n], id);
    }
  }

  /** Main result for the queue: from a queue with distinct ids, any sequence of additions yields the
      insertion-ordered sticky map of the whole write history. */
  lemma QueueIsStickyMap(q: seq<Task>, ts: seq<Task>)
    requires UniqueIds(q)
    ensures UniqueIds(AddAll(q, ts))
    ensures Ids(AddAll(q, ts)) == FirstSeen(Ids(q) + Ids(ts))
    ensures forall id :: Lookup(AddAll(q, ts), id) == Winner(Versions(q + ts, id))
  {
    AddAllIds(q, ts);
    forall id ensures Lookup(AddAll(q, ts), id) == Winner(Versions(q + ts, id)) { AddAllLookup(q, ts, id); }
  }

  function IdSet(q: seq<Task>): set<string> {
    set id | id in Ids(q)
  }

  /** The size grows by exactly the number of new distinct ids. */
  lemma QueueGrowth(q: seq<Task>, ts: seq<Task>)
    requires UniqueIds(q)
    ensures |AddAll(q, ts)| == |q| + |IdSet(ts) - IdSet(q)|
  {
    var r := AddAll(q, ts);
    AddAllIds(q, ts);
    FirstSeenSame(Ids(q) + Ids(ts));
    OnceLength(Ids(r), IdSet(r));
    OnceLength(Ids(q), IdSet(q));
    assert IdSet(r) == IdSet(q) + (IdSet(ts) - IdSet(q)) by {
      assert forall id :: id in Ids(r) <==> id in Ids(q) || id in Ids(ts);
    }
  }

  // ---------------------------------------------------------------- the router's lookup

  function TodoDicts(ds: seq<TaskDict>): seq<TaskDict> {
    if ds == [] then []
    else TodoDicts(ds[..|ds| - 1]) + (if ds[|ds| - 1].status == "todo" then [ds[|ds| - 1]] else [])
  }

  /** Python's `max(..., key=priority)`: the first of the maximal elements. */
  function FirstMax(ds: seq<TaskDict>): (r: TaskDict)
    requires ds != []
    ensures exists i :: 0 <= i < |ds| && r == ds[i] && (forall j :: 0 <= j < |ds| ==> ds[j].priority <= r.priority)
                     && (forall j :: 0 <= j < i ==> ds[j].priority < r.priority)
  {
    var n := |ds| - 1;
    if n == 0 then ds[0]
    else
      var m := FirstMax(ds[..n]);
      assert forall j :: 0 <= j < n ==> ds[j] == ds[..n][j];
      if m.priority >= ds[n].priority then m else ds[n]
  }

  function FindHighestPriorityTodo(ds: seq<TaskDict>): Option<TaskDict> {
    var todo := TodoDicts(ds);
    if todo == [] then None else Some(FirstMax(todo))
  }

  lemma TodoText(t: Task)
    ensures ToDict(t).status == "todo" <==> t.status.Todo?
    ensures ToDict(t).priority == t.priority
  {
  }

  /** One more dict: it is chosen if it is waiting and nothing as urgent waits before it. */
  lemma LongerDicts(ds: seq<TaskDict>)
    requires ds != []
    ensures var n := |ds| - 1;
            var before := FindHighestPriorityTodo(ds[..n]);
            FindHighestPriorityTodo(ds)
            == if ds[n].status == "todo" && (before.None? || before.value.priority < ds[n].priority) then Some(ds[n])
               else before
  {
    var n := |ds| - 1;
    FoundIs(ds);
    FoundIs(ds[..n]);
    TodoDictsSnoc(ds);
    MaxSnoc(TodoDicts(ds[..n]), ds[n]);
    hide *;
  }

  lemma FoundIs(ds: seq<TaskDict>)
    ensures FindHighestPriorityTodo(ds) == if TodoDicts(ds) == [] then None else Some(FirstMax(TodoDicts(ds)))
  {
  }

  lemma TodoDictsSnoc(ds: seq<TaskDict>)
    requires ds != []
    ensures var n := |ds| - 1;
            TodoDicts(ds) == if ds[n].status == "todo" then TodoDicts(ds[..n]) + [ds[n]] else TodoDicts(ds[..n])
  {
  }

  lemma MaxSnoc(ds: seq<TaskDict>, d: TaskDict)
    ensures FirstMax(ds + [d]) == if ds == [] || FirstMax(ds).priority < d.priority then d else FirstMax(ds)
  {
    assert (ds + [d])[..|ds|] == ds;
  }

  /** One more task, likewise. */
  lemma LongerQueue(q: seq<Task>)
    requires q != []
    ensures var n := |q| - 1;
            var before := NextTask(q[..n]);
            NextTask(q)
            == if q[n].status.Todo? && (before.None? || before.value.priority < q[n].priority) then Some(q[n])
               else before
  {
  }

  lemma LastDict(q: seq<Task>)
    requires q != []
    ensures var n := |q| - 1;
            |ToDicts(q)| == |q| && ToDicts(q)[..n] == ToDicts(q[..n]) && ToDicts(q)[n] == ToDict(q[n])
  {
  }

  /** The router, working on dicts, picks the very task the queue object would return. */
  lemma {:induction false} RouterPicksQueueHead(q: seq<Task>)
    ensures FindHighestPriorityTodo(ToDicts(q)) == if NextTask(q).None? then None else Some(ToDict(NextTask(q).value))
  {
    hide *;
    if q == [] {
      NothingToPick();
    } else {
      var n := |q| - 1;
      RouterPicksQueueHead(q[..n]);
      LastDict(q);
      TodoText(q[n]);
      if NextTask(q[..n]).Some? {
        TodoText(NextTask(q[..n]).value);
      }
      LongerDicts(ToDicts(q));
      LongerQueue(q);
    }
  }

  lemma NothingToPick()
    ensures FindHighestPriorityTodo(ToDicts([])) == None && NextTask([]) == None
  {
  }
}
