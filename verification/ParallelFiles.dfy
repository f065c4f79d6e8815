/** Running a batch in threads: the per-file actions of agentflow/tools/filesystem_tool.py as small
    atomic steps over one shared disk, every interleaving of them, and the serial runs they equal. */
module ParallelFiles {

  import opened Options

  /** A resolved path, as its segments below the workspace; [] is the workspace itself. */
  type Path = seq<string>

  datatype Entry = File(content: string) | Dir

  type Disk = map<Path, Entry>

  function Look(disk: Disk, p: Path): Option<Entry> {
    if p == [] then Some(Dir) else if p in disk then Some(disk[p]) else None
  }

  /** An action of a batch.  A web search has no reply when its query is missing or the provider raises;
      `Unsupported` is an action the file tool does not offer. */
  datatype Action =
    | Create(content: string) | Write(content: string) | Append(content: string)
    | Read | Exists | List | Tree
    | WebSearch(reply: Option<string>) | Unsupported

  /** One task of a batch.  `target` is None when validation refuses the task: its path does not resolve
      inside the workspace, or is forbidden. */
  datatype FileTask = FileTask(target: Option<Path>, action: Action)

  datatype Reason =
    | InvalidPath | AlreadyExists | NotFound | ParentIsFile | IsDirectory | NotDirectory | InvalidDirectory
    | UnknownAction | SearchFailed

  /** A listing is made from what stands at and below its target, which is all the result carries here. */
  datatype Result =
    | Created | Written | Appended | Content(text: string) | Found(kind: Option<Entry>) | Listed(seen: Disk)
    | Reply(text: string) | Failed(reason: Reason)

  // ---------------------------------------------------------------- the action as one atomic command

  /** `target.parent.mkdir(parents=True, exist_ok=True)`, from ancestor number `d` down.  The flag says
      whether no ancestor was a file. */
  function MakeParents(disk: Disk, p: Path, d: nat): (Disk, bool)
    decreases |p| - d
  {
    if d >= |p| then (disk, true)
    else
      match Look(disk, p[..d])
      case None => MakeParents(disk[p[..d] := Dir], p, d + 1)
      case Some(Dir) => MakeParents(disk, p, d + 1)
      case Some(File(_)) => (disk, false)
  }

  function PutText(disk: Disk, p: Path, content: string, ok: Result): (Disk, Result) {
    if Look(disk, p) == Some(Dir) then (disk, Failed(IsDirectory)) else (disk[p := File(content)], ok)
  }

  function MakeAndPut(disk: Disk, p: Path, d: nat, content: string, ok: Result): (Disk, Result) {
    var (made, clear) := MakeParents(disk, p, d);
    if clear then PutText(made, p, content, ok) else (made, Failed(ParentIsFile))
  }

  function AppendText(disk: Disk, p: Path, content: string): (Disk, Result) {
    match Look(disk, p)
    case None => (disk[p := File(content)], Appended)
    case Some(Dir) => (disk, Failed(IsDirectory))
    case Some(File(c)) => (disk[p := File(c + content)], Appended)
  }

  /** The disk at and below `p`. */
  function Below(disk: Disk, p: Path): Disk {
    map q | q in disk && p <= q :: disk[q]
  }

  /** `list_directory` tells a missing directory from a file, `tree` does not. */
  function ListBelow(disk: Disk, p: Path, a: Action): Result {
    match Look(disk, p)
    case None => Failed(if a.List? then NotFound else InvalidDirectory)
    case Some(File(_)) => Failed(if a.List? then NotDirectory else InvalidDirectory)
    case Some(Dir) => Listed(Below(disk, p))
  }

  function ReadText(disk: Disk, p: Path): Result {
    match Look(disk, p)
    case None => Failed(NotFound)
    case Some(Dir) => Failed(IsDirectory)
    case Some(File(c)) => Content(c)
  }

  /** The task never looks at the disk. */
  predicate OffDisk(t: FileTask) {
    t.action.WebSearch? || t.target.None? || t.action.Unsupported?
  }

  /** A file task is validated before its action is even looked up, so a refused path fails every action,
      `exists` included. */
  function OffDiskResult(t: FileTask): Result
    requires OffDisk(t)
  {
    match t.action
    case WebSearch(Some(reply)) => Reply(reply)
    case WebSearch(None) => Failed(SearchFailed)
    case _ => Failed(if t.target.None? then InvalidPath else UnknownAction)
  }

  predicate Lists(a: Action) {
    a.List? || a.Tree?
  }

  /** What the tool registry makes of the task when nothing else runs. */
  function Command(disk: Disk, t: FileTask): (Disk, Result) {
    if OffDisk(t) then (disk, OffDiskResult(t))
    else
      var p := t.target.value;
      match t.action
      case Create(c) =>
        if Look(disk, p).Some? then (disk, Failed(AlreadyExists)) else MakeAndPut(disk, p, 1, c, Created)
      case Write(c) => MakeAndPut(disk, p, 1, c, Written)
      case Append(c) => if Look(disk, p).None? then (disk, Failed(NotFound)) else AppendText(disk, p, c)
      case Read => if Look(disk, p).None? then (disk, Failed(NotFound)) else (disk, ReadText(disk, p))
      case Exists => (disk, Found(Look(disk, p)))
      case _ => (disk, ListBelow(disk, p, t.action))
  }

  // ---------------------------------------------------------------- the same action in small steps

  /** Where one thread stands: not begun, past its check and making ancestor number `depth`, past its
      check and about to open the file, with the file open for writing, or through. */
  datatype Local = Start | Making(depth: nat) | Opening | Writing | Finished(result: Result)

  function StepLocal(disk: Disk, t: FileTask, l: Local): (Disk, Local) {
    if l.Finished? then (disk, l)
    else if OffDisk(t) then (disk, Finished(OffDiskResult(t)))
    else
      var p := t.target.value;
      match l
      case Start =>
        (disk, if Lists(t.action) then Finished(ListBelow(disk, p, t.action)) else AfterCheck(Look(disk, p), t.action))
      case Making(d) =>
        if !(t.action.Create? || t.action.Write?) then (disk, l)
        else if d < |p| then
          (match Look(disk, p[..d])
           case None => (disk[p[..d] := Dir], Making(d + 1))
           case Some(Dir) => (disk, Making(d + 1))
           case Some(File(_)) => (disk, Finished(Failed(ParentIsFile))))
        else OpenForWriting(disk, p)
      case Opening =>
        if t.action.Append? then OpenForAppending(disk, p)
        else (disk, if t.action.Read? then Finished(ReadText(disk, p)) else l)
      case Writing => WriteOpened(disk, p, t.action)
  }

  /** Opening with mode "w" empties the file. */
  function OpenForWriting(disk: Disk, p: Path): (Disk, Local) {
    if Look(disk, p) == Some(Dir) then (disk, Finished(Failed(IsDirectory))) else (disk[p := File("")], Writing)
  }

  /** Opening with mode "a" makes the file if it has gone meanwhile. */
  function OpenForAppending(disk: Disk, p: Path): (Disk, Local) {
    match Look(disk, p)
    case None => (disk[p := File("")], Writing)
    case Some(Dir) => (disk, Finished(Failed(IsDirectory)))
    case Some(File(_)) => (disk, Writing)
  }

  /** What the text becomes when `content` is written from its beginning: another writer may have put some
      there since the file was emptied. */
  function Overwrite(text: string, content: string): string {
    if |content| < |text| then content + text[|content|..] else content
  }

  function WriteOpened(disk: Disk, p: Path, a: Action): (Disk, Local) {
    match Look(disk, p)
    case Some(File(c)) =>
      if a.Append? then (disk[p := File(c + a.content)], Finished(Appended))
      else if a.Create? || a.Write? then
        (disk[p := File(Overwrite(c, a.content))], Finished(if a.Create? then Created else Written))
      else (disk, Writing)
    case _ => (disk, Writing)
  }

  /** The check every action but a listing begins with. */
  function AfterCheck(found: Option<Entry>, a: Action): Local {
    match a
    case Create(_) => if found.Some? then Finished(Failed(AlreadyExists)) else Making(1)
    case Write(_) => Making(1)
    case Append(_) => if found.None? then Finished(Failed(NotFound)) else Opening
    case Read => if found.None? then Finished(Failed(NotFound)) else Opening
    case _ => Finished(Found(found))
  }

  datatype Config = Config(disk: Disk, locals: seq<Local>)

  function StepAt(tasks: seq<FileTask>, c: Config, i: nat): (r: Config)
    requires |c.locals| == |tasks|
    ensures |r.locals| == |tasks|
  {
    if i >= |tasks| then c
    else
      var (disk, l) := StepLocal(c.disk, tasks[i], c.locals[i]);
      Config(disk, c.locals[i := l])
  }

  /** A schedule names, step by step, the thread that moves. */
  function Execute(tasks: seq<FileTask>, c: Config, schedule: seq<nat>): (r: Config)
    requires |c.locals| == |tasks|
    ensures |r.locals| == |tasks|
    decreases |schedule|
  {
    if schedule == [] then c else Execute(tasks, StepAt(tasks, c, schedule[0]), schedule[1..])
  }

  function StartConfig(disk: Disk, tasks: seq<FileTask>): Config {
    Config(disk, seq(|tasks|, _ => Start))
  }

  ghost predicate Complete(c: Config) {
    forall i :: 0 <= i < |c.locals| ==> c.locals[i].Finished?
  }

  // ---------------------------------------------------------------- independence

  predicate Harmless(t: FileTask) {
    t.action.Read? || t.action.Exists? || Lists(t.action)
  }

  /** Two tasks of a batch that may run together: no disk access at all on one side, two pure reads, or
      targets of which neither is, or lies below, the other. */
  predicate Independent(t: FileTask, u: FileTask) {
    || OffDisk(t) || OffDisk(u)
    || (Harmless(t) && Harmless(u))
    || !(t.target.value <= u.target.value || u.target.value <= t.target.value)
  }

  ghost predicate IndependentBatch(tasks: seq<FileTask>) {
    forall i, j :: 0 <= i < j < |tasks| ==> Independent(tasks[i], tasks[j])
  }

  // ---------------------------------------------------------------- steps commute

  /** The place a step looks at, and the only one it may change. */
  function Place(p: Path, l: Local): Path {
    if l.Making? && l.depth < |p| then p[..l.depth] else p
  }

  /** A step sees the disk only at its place; what it writes there depends on nothing else. */
  lemma StepIsLocal(disk: Disk, other: Disk, t: FileTask, l: Local)
    requires t.target.Some? && !Lists(t.action)
    requires Look(disk, Place(t.target.value, l)) == Look(other, Place(t.target.value, l))
    ensures StepLocal(disk, t, l).1 == StepLocal(other, t, l).1
    ensures StepLocal(disk, t, l).0 == disk <==> StepLocal(other, t, l).0 == other
    ensures StepLocal(disk, t, l).0 != disk ==>
              var k := Place(t.target.value, l);
              && k in StepLocal(disk, t, l).0 && k in StepLocal(other, t, l).0
              && StepLocal(disk, t, l).0 == disk[k := StepLocal(disk, t, l).0[k]]
              && StepLocal(other, t, l).0 == other[k := StepLocal(disk, t, l).0[k]]
  {
  }

  lemma ApartPlaces(t: FileTask, u: FileTask, l: Local, m: Local)
    requires t.target.Some? && u.target.Some?
    requires !(t.target.value <= u.target.value || u.target.value <= t.target.value)
    requires Place(t.target.value, l) == Place(u.target.value, m)
    ensures l.Making? && l.depth < |t.target.value| && m.Making? && m.depth < |u.target.value|
  {
  }

  /** Steps of independent tasks commute: same disk, same two local states. */
  lemma LocalStepsCommute(disk: Disk, t: FileTask, l: Local, u: FileTask, m: Local)
    requires Independent(t, u)
    ensures StepLocal(StepLocal(disk, t, l).0, u, m).0 == StepLocal(StepLocal(disk, u, m).0, t, l).0
    ensures StepLocal(StepLocal(disk, t, l).0, u, m).1 == StepLocal(disk, u, m).1
    ensures StepLocal(StepLocal(disk, u, m).0, t, l).1 == StepLocal(disk, t, l).1
  {
    if OffDisk(t) || OffDisk(u) {
    } else if Harmless(t) && Harmless(u) {
    } else if Lists(t.action) {
      ListingSeesNothing(disk, t, l, u, m);
    } else if Lists(u.action) {
      ListingSeesNothing(disk, u, m, t, l);
    } else if Place(t.target.value, l) != Place(u.target.value, m) {
      DifferentPlacesCommute(disk, t, l, u, m);
    } else {
      ApartPlaces(t, u, l, m);
    }
  }

  /** A step changes the disk at its place at most. */
  lemma ChangesItsPlace(disk: Disk, t: FileTask, l: Local, q: Path)
    requires t.target.Some? && q != Place(t.target.value, l)
    ensures q in StepLocal(disk, t, l).0 <==> q in disk
    ensures q in disk ==> StepLocal(disk, t, l).0[q] == disk[q]
  {
  }

  lemma PrefixTransitive(p: Path, k: Path, q: Path)
    ensures p <= k && k <= q ==> p <= q
  {
  }

  /** A listing does not notice a step elsewhere, and changes nothing itself. */
  lemma ListingSeesNothing(disk: Disk, t: FileTask, l: Local, u: FileTask, m: Local)
    requires Lists(t.action) && t.target.Some? && u.target.Some?
    requires !(t.target.value <= u.target.value || u.target.value <= t.target.value)
    ensures StepLocal(StepLocal(disk, u, m).0, t, l).1 == StepLocal(disk, t, l).1
    ensures StepLocal(StepLocal(disk, u, m).0, t, l).0 == StepLocal(disk, u, m).0
    ensures StepLocal(disk, t, l).0 == disk
  {
    ListingOnlyLooks(disk, t, l);
    ListingOnlyLooks(StepLocal(disk, u, m).0, t, l);
    var p, k, after := t.target.value, Place(u.target.value, m), StepLocal(disk, u, m).0;
    PrefixTransitive(p, k, u.target.value);
    forall q | p <= q
      ensures q in after <==> q in disk
      ensures q in disk ==> after[q] == disk[q]
    {
      ChangesItsPlace(disk, u, m, q);
    }
    hide StepLocal, Place;
    assert Below(after, p) == Below(disk, p);
    assert p <= p && Look(after, p) == Look(disk, p);
  }

  /** All a listing's step depends on, and that it leaves the disk alone. */
  lemma ListingOnlyLooks(disk: Disk, t: FileTask, l: Local)
    requires Lists(t.action) && t.target.Some?
    ensures StepLocal(disk, t, l).0 == disk
    ensures StepLocal(disk, t, l).1 == if l.Start? then Finished(ListBelow(disk, t.target.value, t.action)) else l
  {
  }

  lemma DifferentPlacesCommute(disk: Disk, t: FileTask, l: Local, u: FileTask, m: Local)
    requires t.target.Some? && u.target.Some? && !Lists(t.action) && !Lists(u.action)
    requires Place(t.target.value, l) != Place(u.target.value, m)
    ensures StepLocal(StepLocal(disk, t, l).0, u, m).0 == StepLocal(StepLocal(disk, u, m).0, t, l).0
    ensures StepLocal(StepLocal(disk, t, l).0, u, m).1 == StepLocal(disk, u, m).1
    ensures StepLocal(StepLocal(disk, u, m).0, t, l).1 == StepLocal(disk, t, l).1
  {
    hide StepLocal;
    var k, h := Place(t.target.value, l), Place(u.target.value, m);
    StepIsLocal(disk, disk, t, l);
    StepIsLocal(disk, disk, u, m);
    StepIsLocal(disk, StepLocal(disk, t, l).0, u, m);
    StepIsLocal(disk, StepLocal(disk, u, m).0, t, l);
  }

  lemma StepsCommute(tasks: seq<FileTask>, c: Config, i: nat, j: nat)
    requires |c.locals| == |tasks| && IndependentBatch(tasks)
    ensures StepAt(tasks, StepAt(tasks, c, i), j) == StepAt(tasks, StepAt(tasks, c, j), i)
  {
    if i < |tasks| && j < |tasks| && i != j {
      assert Independent(tasks[i], tasks[j]) by {
        assert if i < j then Independent(tasks[i], tasks[j]) else Independent(tasks[j], tasks[i]);
      }
      LocalStepsCommute(c.disk, tasks[i], c.locals[i], tasks[j], c.locals[j]);
      hide StepLocal;
      var l, m := StepLocal(c.disk, tasks[i], c.locals[i]).1, StepLocal(c.disk, tasks[j], c.locals[j]).1;
      assert c.locals[i := l][j := m] == c.locals[j := m][i := l];
    }
  }

  // ---------------------------------------------------------------- schedules commute

  lemma {:induction false} ExecuteConcat(tasks: seq<FileTask>, c: Config, a: seq<nat>, b: seq<nat>)
    requires |c.locals| == |tasks|
    ensures Execute(tasks, c, a + b) == Execute(tasks, Execute(tasks, c, a), b)
    decreases |a|
  {
    hide StepAt;
    if a == [] {
      assert a + b == b;
    } else {
      assert (a + b)[1..] == a[1..] + b;
      ExecuteConcat(tasks, StepAt(tasks, c, a[0]), a[1..], b);
    }
  }

  lemma {:induction false} StepPastSchedule(tasks: seq<FileTask>, c: Config, i: nat, b: seq<nat>)
    requires |c.locals| == |tasks| && IndependentBatch(tasks)
    ensures Execute(tasks, StepAt(tasks, c, i), b) == StepAt(tasks, Execute(tasks, c, b), i)
    decreases |b|
  {
    if b != [] {
      StepsCommute(tasks, c, i, b[0]);
      hide StepAt;
      StepPastSchedule(tasks, StepAt(tasks, c, b[0]), i, b[1..]);
    }
  }

  lemma {:induction false} SchedulesCommute(tasks: seq<FileTask>, c: Config, a: seq<nat>, b: seq<nat>)
    requires |c.locals| == |tasks| && IndependentBatch(tasks)
    ensures Execute(tasks, Execute(tasks, c, a), b) == Execute(tasks, Execute(tasks, c, b), a)
    decreases |a|
  {
    if a != [] {
      StepPastSchedule(tasks, c, a[0], b);
      hide StepAt;
      SchedulesCommute(tasks, StepAt(tasks, c, a[0]), a[1..], b);
    }
  }

  lemma {:induction false} NothingLeftToDo(tasks: seq<FileTask>, c: Config, a: seq<nat>)
    requires |c.locals| == |tasks| && Complete(c)
    ensures Execute(tasks, c, a) == c
    decreases |a|
  {
    if a != [] {
      assert StepAt(tasks, c, a[0]) == c by {
        if a[0] < |tasks| { assert c.locals[a[0] := c.locals[a[0]]] == c.locals; }
      }
      NothingLeftToDo(tasks, c, a[1..]);
    }
  }

  /** Any two schedules that let every task finish end in the same configuration. */
  lemma CompleteSchedulesAgree(tasks: seq<FileTask>, c: Config, a: seq<nat>, b: seq<nat>)
    requires |c.locals| == |tasks| && IndependentBatch(tasks)
    requires Complete(Execute(tasks, c, a)) && Complete(Execute(tasks, c, b))
    ensures Execute(tasks, c, a) == Execute(tasks, c, b)
  {
    NothingLeftToDo(tasks, Execute(tasks, c, a), b);
    NothingLeftToDo(tasks, Execute(tasks, c, b), a);
    SchedulesCommute(tasks, c, a, b);
  }

  // ---------------------------------------------------------------- serial runs

  function Repeat(i: nat, n: nat): seq<nat> {
    if n == 0 then [] else [i] + Repeat(i, n - 1)
  }

  /** Turns enough for any action on `t` to finish. */
  function Turns(t: FileTask): nat {
    (if t.target.Some? then |t.target.value| else 0) + 3
  }

  /** One task after the other, each run to its end. */
  function SerialSchedule(tasks: seq<FileTask>, order: seq<nat>): seq<nat> {
    if order == [] then []
    else Repeat(order[0], if order[0] < |tasks| then Turns(tasks[order[0]]) else 0) + SerialSchedule(tasks, order[1..])
  }

  /** The serial meaning: atomic commands in the given order, results filed under their task. */
  function Serial(tasks: seq<FileTask>, disk: Disk, order: seq<nat>): (Disk, map<nat, Result>)
    decreases |order|
  {
    if order == [] then (disk, map[])
    else if order[0] >= |tasks| then Serial(tasks, disk, order[1..])
    else
      var (d, r) := Command(disk, tasks[order[0]]);
      var (final, rest) := Serial(tasks, d, order[1..]);
      (final, rest[order[0] := r])
  }

  /** While task `i` alone moves, only the disk and its own local state matter. */
  function RunLocal(disk: Disk, t: FileTask, l: Local, n: nat): (Disk, Local)
    decreases n
  {
    if n == 0 then (disk, l)
    else
      var (d, m) := StepLocal(disk, t, l);
      RunLocal(d, t, m, n - 1)
  }

  lemma {:induction false} RepeatIsRunLocal(tasks: seq<FileTask>, c: Config, i: nat, n: nat)
    requires |c.locals| == |tasks| && i < |tasks|
    ensures var (d, l) := RunLocal(c.disk, tasks[i], c.locals[i], n);
            Execute(tasks, c, Repeat(i, n)) == Config(d, c.locals[i := l])
    decreases n
  {
    hide StepLocal;
    if n == 0 {
      assert c.locals[i := c.locals[i]] == c.locals;
    } else {
      var (d, m) := StepLocal(c.disk, tasks[i], c.locals[i]);
      var c' := StepAt(tasks, c, i);
      assert c' == Config(d, c.locals[i := m]);
      assert Repeat(i, n)[0] == i && Repeat(i, n)[1..] == Repeat(i, n - 1);
      RepeatIsRunLocal(tasks, c', i, n - 1);
    }
  }

  lemma {:induction false} FinishedStays(disk: Disk, t: FileTask, l: Local, n: nat)
    requires l.Finished?
    ensures RunLocal(disk, t, l, n) == (disk, l)
  {
    if n > 0 { FinishedStays(disk, t, l, n - 1); }
  }

  /** Opening the file empties it, so what is written then is the content. */
  lemma WritingFinishes(disk: Disk, t: FileTask, n: nat)
    requires t.target.Some? && (t.action.Create? || t.action.Write?) && n >= 2
    ensures var (e, m) := OpenForWriting(disk, t.target.value);
            var ok := if t.action.Create? then Created else Written;
            var (after, r) := PutText(disk, t.target.value, t.action.content, ok);
            RunLocal(e, t, m, n - 1) == (after, Finished(r))
  {
    var p := t.target.value;
    var (e, m) := OpenForWriting(disk, p);
    if m.Finished? {
      FinishedStays(e, t, m, n - 1);
    } else {
      assert Look(e, p) == Some(File(""));
      var (f, o) := StepLocal(e, t, m);
      assert f == disk[p := File(t.action.content)];
      FinishedStays(f, t, o, n - 2);
    }
  }

  lemma {:induction false} MakingFinishes(disk: Disk, t: FileTask, d: nat, n: nat)
    requires t.target.Some? && (t.action.Create? || t.action.Write?)
    requires n >= 2 && n + d >= |t.target.value| + 2
    ensures var ok := if t.action.Create? then Created else Written;
            var (after, r) := MakeAndPut(disk, t.target.value, d, t.action.content, ok);
            RunLocal(disk, t, Making(d), n) == (after, Finished(r))
    decreases n
  {
    var p := t.target.value;
    var (e, m) := StepLocal(disk, t, Making(d));
    if d >= |p| {
      WritingFinishes(disk, t, n);
    } else if m.Finished? {
      FinishedStays(e, t, m, n - 1);
    } else {
      MakingFinishes(e, t, d + 1, n - 1);
    }
  }

  lemma AppendingFinishes(disk: Disk, t: FileTask, n: nat)
    requires t.target.Some? && t.action.Append? && n >= 2 && Look(disk, t.target.value).Some?
    ensures var (after, r) := AppendText(disk, t.target.value, t.action.content);
            RunLocal(disk, t, Opening, n) == (after, Finished(r))
  {
    var (e, m) := StepLocal(disk, t, Opening);
    if m.Finished? {
      FinishedStays(e, t, m, n - 1);
    } else {
      var (f, o) := StepLocal(e, t, m);
      FinishedStays(f, t, o, n - 2);
    }
  }

  /** Small steps of one task alone amount to its atomic command. */
  lemma AloneIsCommand(disk: Disk, t: FileTask, n: nat)
    requires n >= Turns(t)
    ensures RunLocal(disk, t, Start, n) == (Command(disk, t).0, Finished(Command(disk, t).1))
  {
    var (e, m) := StepLocal(disk, t, Start);
    if m.Finished? {
      FinishedStays(e, t, m, n - 1);
    } else if m.Making? {
      MakingFinishes(e, t, 1, n - 1);
    } else if t.action.Append? {
      AppendingFinishes(e, t, n - 1);
    } else {
      var (f, o) := StepLocal(e, t, m);
      FinishedStays(f, t, o, n - 2);
    }
  }

  lemma {:induction false} SerialScheduleIsSerial(tasks: seq<FileTask>, c: Config, order: seq<nat>)
    requires |c.locals| == |tasks|
    requires forall k :: 0 <= k < |order| ==> order[k] < |tasks| && c.locals[order[k]].Start?
    requires forall k, l :: 0 <= k < l < |order| ==> order[k] != order[l]
    ensures var r := Execute(tasks, c, SerialSchedule(tasks, order));
            && r.disk == Serial(tasks, c.disk, order).0
            && (forall i :: i in order ==> (i in Serial(tasks, c.disk, order).1
                                        && r.locals[i] == Finished(Serial(tasks, c.disk, order).1[i])))
            && (forall i :: 0 <= i < |tasks| && i !in order ==> r.locals[i] == c.locals[i])
    decreases |order|
  {
    hide Command, StepAt;
    if order != [] {
      var i := order[0];
      var turns := Turns(tasks[i]);
      ExecuteConcat(tasks, c, Repeat(i, turns), SerialSchedule(tasks, order[1..]));
      RepeatIsRunLocal(tasks, c, i, turns);
      AloneIsCommand(c.disk, tasks[i], turns);
      var c' := Execute(tasks, c, Repeat(i, turns));
      SerialScheduleIsSerial(tasks, c', order[1..]);
      assert order == [i] + order[1..];
    }
  }

  ghost predicate IsOrder(order: seq<nat>, n: nat) {
    && (forall k :: 0 <= k < |order| ==> order[k] < n)
    && (forall k, l :: 0 <= k < l < |order| ==> order[k] != order[l])
    && (forall i :: 0 <= i < n ==> i in order)
  }

  /** Main result: every interleaving in which all tasks finish ends with the disk of any serial order,
      and gives each task the result it has in that order. */
  lemma ParallelEqualsSerial(tasks: seq<FileTask>, disk: Disk, schedule: seq<nat>, order: seq<nat>)
    requires IndependentBatch(tasks) && IsOrder(order, |tasks|)
    requires Complete(Execute(tasks, StartConfig(disk, tasks), schedule))
    ensures var r := Execute(tasks, StartConfig(disk, tasks), schedule);
            && r.disk == Serial(tasks, disk, order).0
            && forall i :: 0 <= i < |tasks| ==> (i in Serial(tasks, disk, order).1
                                             && r.locals[i] == Finished(Serial(tasks, disk, order).1[i]))
  {
    var c := StartConfig(disk, tasks);
    SerialScheduleIsSerial(tasks, c, order);
    CompleteSchedulesAgree(tasks, c, schedule, SerialSchedule(tasks, order));
  }

  // ---------------------------------------------------------------- what each task gets

  /** The indices below `n` without `i`, ascending. */
  function Others(n: nat, i: nat): (r: seq<nat>)
    ensures forall x: nat :: x in r <==> x < n && x != i
    ensures forall k, l :: 0 <= k < l < |r| ==> r[k] < r[l]
  {
    if n == 0 then []
    else
      var r := Others(n - 1, i);
      assert forall k :: 0 <= k < |r| ==> r[k] in r;
      if n - 1 == i then r else r + [n - 1]
  }

  lemma FirstInOrder(n: nat, i: nat)
    requires i < n
    ensures IsOrder([i] + Others(n, i), n)
  {
    var o := [i] + Others(n, i);
    forall k | 0 <= k < |o| ensures o[k] < n { assert o[k] in o; }
    forall k, l | 0 <= k < l < |o| ensures o[k] != o[l] {
      assert o[l] == Others(n, i)[l - 1];
      assert o[l] in Others(n, i);
    }
  }

  /** Each task gets the very result it would get alone on the disk the batch found. */
  lemma OwnResult(tasks: seq<FileTask>, disk: Disk, schedule: seq<nat>, i: nat)
    requires IndependentBatch(tasks) && i < |tasks|
    requires Complete(Execute(tasks, StartConfig(disk, tasks), schedule))
    ensures Execute(tasks, StartConfig(disk, tasks), schedule).locals[i] == Finished(Command(disk, tasks[i]).1)
  {
    var order := [i] + Others(|tasks|, i);
    FirstInOrder(|tasks|, i);
    ParallelEqualsSerial(tasks, disk, schedule, order);
    assert order[0] == i;
  }

  /** No ancestor of `p` is a file. */
  predicate ParentsClear(disk: Disk, p: Path) {
    forall d :: 1 <= d < |p| ==> Look(disk, p[..d]).None? || Look(disk, p[..d]) == Some(Dir)
  }

  lemma {:induction false} MakeParentsEffect(disk: Disk, p: Path, d: nat)
    requires 1 <= d && ParentsClear(disk, p)
    ensures var (made, clear) := MakeParents(disk, p, d);
            && clear
            && (forall k :: d <= k < |p| ==> Look(made, p[..k]) == Some(Dir))
            && (forall x :: (forall k :: d <= k < |p| ==> x != p[..k]) ==> Look(made, x) == Look(disk, x))
    decreases |p| - d
  {
    if d < |p| {
      var next := if Look(disk, p[..d]).None? then disk[p[..d] := Dir] else disk;
      assert forall k :: d < k < |p| ==> p[..k] != p[..d] by {
        forall k | d < k < |p| ensures p[..k] != p[..d] { assert |p[..k]| != |p[..d]|; }
      }
      MakeParentsEffect(next, p, d + 1);
    }
  }

  /** A successful write: the text is in the file, its ancestors are directories, all else is as it was. */
  lemma WriteEffect(disk: Disk, p: Path, content: string)
    requires p != [] && ParentsClear(disk, p) && Look(disk, p) != Some(Dir)
    ensures var (after, r) := Command(disk, FileTask(Some(p), Write(content)));
            && r == Written
            && Look(after, p) == Some(File(content))
            && (forall k :: 1 <= k < |p| ==> Look(after, p[..k]) == Some(Dir))
            && (forall x :: !(x <= p) ==> Look(after, x) == Look(disk, x))
  {
    MakeParentsEffect(disk, p, 1);
    forall k | 1 <= k < |p| ensures p[..k] != p { assert |p[..k]| != |p|; }
    assert forall k :: 1 <= k < |p| ==> p != p[..k];
  }

  /** Two writes to one file, one after the other, leave the second text. */
  lemma LastWriteStays(disk: Disk, p: Path, first: string, second: string)
    requires p != [] && ParentsClear(disk, p) && Look(disk, p) != Some(Dir)
    ensures var after := Command(disk, FileTask(Some(p), Write(first))).0;
            Look(Command(after, FileTask(Some(p), Write(second))).0, p) == Some(File(second))
  {
    WriteEffect(disk, p, first);
    WriteEffect(Command(disk, FileTask(Some(p), Write(first))).0, p, second);
  }

  /** Two writes of different texts to one file race, on every disk that lets them through: both tasks
      finish either way, and the file keeps the text of the one that came last. */
  lemma SharedTargetRaces(disk: Disk, p: Path, c: string, d: string)
    requires p != [] && ParentsClear(disk, p) && Look(disk, p) != Some(Dir) && c != d
    ensures var tasks := [FileTask(Some(p), Write(c)), FileTask(Some(p), Write(d))];
            var one := Execute(tasks, StartConfig(disk, tasks), SerialSchedule(tasks, [0, 1]));
            var two := Execute(tasks, StartConfig(disk, tasks), SerialSchedule(tasks, [1, 0]));
            && Complete(one) && Complete(two)
            && Look(one.disk, p) == Some(File(d)) && Look(two.disk, p) == Some(File(c)) && one.disk != two.disk
  {
    var tasks := [FileTask(Some(p), Write(c)), FileTask(Some(p), Write(d))];
    OneAfterTheOther(tasks, disk, 0);
    OneAfterTheOther(tasks, disk, 1);
    LastWriteStays(disk, p, c, d);
    LastWriteStays(disk, p, d, c);
    hide *;
  }

  /** Of two tasks, task `i` first and then the other. */
  lemma OneAfterTheOther(tasks: seq<FileTask>, disk: Disk, i: nat)
    requires |tasks| == 2 && i < 2
    ensures var r := Execute(tasks, StartConfig(disk, tasks), SerialSchedule(tasks, [i, 1 - i]));
            && Complete(r) && r.disk == Command(Command(disk, tasks[i]).0, tasks[1 - i]).0
  {
    var order := [i, 1 - i];
    var c := StartConfig(disk, tasks);
    hide Command, Execute, SerialSchedule, Serial;
    SerialScheduleIsSerial(tasks, c, order);
    SerialOfTwo(tasks, disk, i, 1 - i);
    var r := Execute(tasks, c, SerialSchedule(tasks, order));
    forall k | 0 <= k < |r.locals| ensures r.locals[k].Finished? {
      assert k in order;
    }
  }

  lemma SerialOfTwo(tasks: seq<FileTask>, disk: Disk, i: nat, j: nat)
    requires i < |tasks| && j < |tasks|
    ensures Serial(tasks, disk, [i, j]).0 == Command(Command(disk, tasks[i]).0, tasks[j]).0
  {
    hide Command;
    assert [i, j][1..] == [j] && [j][1..] == [];
    var d := Command(disk, tasks[i]).0;
    assert Serial(tasks, d, [j]).0 == Command(d, tasks[j]).0;
  }

  // ---------------------------------------------------------------- the imperative form

  class Workspace {
    var disk: Disk

    constructor (d: Disk)
      ensures disk == d
    {
      disk := d;
    }

    /** One command run to its end, as the registry's `execute_task` does outside a batch. */
    method Perform(t: FileTask) returns (r: Result)
      modifies this
      ensures (disk, r) == Command(old(disk), t)
    {
      if OffDisk(t) { return OffDiskResult(t); }
      var p := t.target.value;
      var found := Look(disk, p);
      match t.action
      case Create(c) =>
        if found.Some? { return Failed(AlreadyExists); }
        r := MakeAndWrite(p, c, Created);
      case Write(c) => r := MakeAndWrite(p, c, Written);
      case Append(c) =>
        if found.None? { return Failed(NotFound); }
        if found == Some(Dir) { return Failed(IsDirectory); }
        disk := disk[p := File(found.value.content + c)];
        r := Appended;
      case Read =>
        if found.None? { return Failed(NotFound); }
        r := ReadText(disk, p);
      case Exists => r := Found(found);
      case List => r := ListBelow(disk, p, List);
      case Tree => r := ListBelow(disk, p, Tree);
    }

    method MakeAndWrite(p: Path, content: string, ok: Result) returns (r: Result)
      modifies this
      ensures (disk, r) == MakeAndPut(old(disk), p, 1, content, ok)
    {
      var d := 1;
      while d < |p|
        invariant 1 <= d
        invariant MakeParents(disk, p, d) == MakeParents(old(disk), p, 1)
      {
        var found := Look(disk, p[..d]);
        if found.Some? && found.value.File? { return Failed(ParentIsFile); }
        if found.None? { disk := disk[p[..d] := Dir]; }
        d := d + 1;
      }
      if Look(disk, p) == Some(Dir) { return Failed(IsDirectory); }
      disk := disk[p := File(content)];
      r := ok;
    }
  }

  /** `execute_batch_parallel`: the threads move as `schedule` says, and `completion` is the order in
      which their futures are collected.  Results come back by index. */
  method ExecuteBatchParallel(ws: Workspace, tasks: seq<FileTask>, schedule: seq<nat>, completion: seq<nat>)
    returns (results: seq<Result>)
    requires IndependentBatch(tasks) && IsOrder(completion, |tasks|)
    requires Complete(Execute(tasks, StartConfig(ws.disk, tasks), schedule))
    modifies ws
    ensures |results| == |tasks|
    ensures forall order :: IsOrder(order, |tasks|) ==> ws.disk == Serial(tasks, old(ws.disk), order).0
    ensures forall order, i :: IsOrder(order, |tasks|) && 0 <= i < |tasks| ==>
              i in Serial(tasks, old(ws.disk), order).1 && results[i] == Serial(tasks, old(ws.disk), order).1[i]
  {
    var locals := new Local[|tasks|](_ => Start);
    ghost var start := StartConfig(ws.disk, tasks);
    ghost var end := Execute(tasks, start, schedule);
    assert Config(ws.disk, locals[..]) == start;
    for n := 0 to |schedule|
      invariant Execute(tasks, Config(ws.disk, locals[..]), schedule[n..]) == end
    {
      assert schedule[n..][0] == schedule[n] && schedule[n..][1..] == schedule[n + 1..];
      if schedule[n] < |tasks| {
        var (d, l) := StepLocal(ws.disk, tasks[schedule[n]], locals[schedule[n]]);
        ws.disk := d;
        locals[schedule[n]] := l;
      }
    }
    assert end == Config(ws.disk, locals[..]);
    var indexed := new Option<Result>[|tasks|](_ => None);
    for n := 0 to |completion|
      invariant ws.disk == end.disk && locals[..] == end.locals
      invariant forall i :: 0 <= i < |tasks| ==>
        indexed[i] == if i in completion[..n] then Some(end.locals[i].result) else None
    {
      assert completion[..n + 1] == completion[..n] + [completion[n]];
      var index := completion[n];
      assert locals[index] == end.locals[index];
      indexed[index] := Some(locals[index].result);
    }
    assert completion[..|completion|] == completion;
    results := [];
    for n := 0 to |tasks|
      invariant ws.disk == end.disk
      invariant |results| == n && forall i :: 0 <= i < n ==> results[i] == end.locals[i].result
    {
      if indexed[n].Some? { results := results + [indexed[n].value]; }
    }
    forall order | IsOrder(order, |tasks|)
      ensures ws.disk == Serial(tasks, old(ws.disk), order).0
      ensures forall i :: 0 <= i < |tasks| ==>
                i in Serial(tasks, old(ws.disk), order).1 && results[i] == Serial(tasks, old(ws.disk), order).1[i]
    {
      ParallelEqualsSerial(tasks, old(ws.disk), schedule, order);
    }
  }
}
