/** What the reflector's changes do to each task of the queue: `_apply_reflection` and the refill of
    agentflow/agents/reflection/agent.py. */
module ReflectionEffects {

  import opened Tasks
  import opened TaskQueues
  import opened AgentLoop
  import StickyDone
  import opened Lists
  import opened Options

  // ---------------------------------------------------------------- updates

  /** Update `j` is the last that gives this id a status. */
  predicate LastStatusAt(us: seq<TaskUpdate>, id: string, j: nat) {
    && j < |us| && id != "" && us[j].taskId == id && us[j].status.Some?
    && forall m :: j < m < |us| ==> !(us[m].taskId == id && us[m].status.Some?)
  }

  predicate LastPriorityAt(us: seq<TaskUpdate>, id: string, j: nat) {
    && j < |us| && id != "" && us[j].taskId == id && us[j].priority.Some?
    && forall m :: j < m < |us| ==> !(us[m].taskId == id && us[m].priority.Some?)
  }

  /** Task `u` is `t` with the last status and the last priority that the updates give it, if any. */
  ghost predicate UpdatedTo(us: seq<TaskUpdate>, t: Task, u: Task) {
    && u == t.(status := u.status, priority := u.priority)
    && (forall j: nat :: LastStatusAt(us, t.taskId, j) ==> Some(u.status) == us[j].status)
    && (forall j: nat :: LastPriorityAt(us, t.taskId, j) ==> Some(u.priority) == us[j].priority)
    && ((forall j: nat :: !LastStatusAt(us, t.taskId, j)) ==> u.status == t.status)
    && ((forall j: nat :: !LastPriorityAt(us, t.taskId, j)) ==> u.priority == t.priority)
  }

  /** How one more update changes what is last. */
  lemma LastSnoc(us: seq<TaskUpdate>, u: TaskUpdate, id: string, j: nat)
    ensures LastStatusAt(us + [u], id, j) <==>
            if u.taskId == id && id != "" && u.status.Some? then j == |us| else LastStatusAt(us, id, j)
    ensures LastPriorityAt(us + [u], id, j) <==>
            if u.taskId == id && id != "" && u.priority.Some? then j == |us| else LastPriorityAt(us, id, j)
  {
    var all := us + [u];
    assert forall m :: 0 <= m < |us| ==> all[m] == us[m];
    assert all[|us|] == u;
  }

  lemma UpdatedSnoc(us: seq<TaskUpdate>, u: TaskUpdate, t: Task, before: Task)
    requires UpdatedTo(us, t, before) && before.taskId == t.taskId
    ensures UpdatedTo(us + [u], t, if u.taskId == t.taskId && u.taskId != "" then Revise(before, u.status, u.priority)
                                   else before)
  {
    var all := us + [u];
    forall j: nat
      ensures LastStatusAt(all, t.taskId, j) <==>
              if u.taskId == t.taskId && t.taskId != "" && u.status.Some? then j == |us|
              else LastStatusAt(us, t.taskId, j)
      ensures LastPriorityAt(all, t.taskId, j) <==>
              if u.taskId == t.taskId && t.taskId != "" && u.priority.Some? then j == |us|
              else LastPriorityAt(us, t.taskId, j)
    {
      LastSnoc(us, u, t.taskId, j);
    }
    hide LastStatusAt, LastPriorityAt;
    assert all[|us|] == u && forall j :: 0 <= j < |us| ==> all[j] == us[j];
    assert LastStatusAt(all, t.taskId, |us|) || !(u.taskId == t.taskId && t.taskId != "" && u.status.Some?);
    assert LastPriorityAt(all, t.taskId, |us|) || !(u.taskId == t.taskId && t.taskId != "" && u.priority.Some?);
    forall j: nat | LastStatusAt(us, t.taskId, j) ensures j < |us| { IsBelow(us, t.taskId, j); }
    forall j: nat | LastPriorityAt(us, t.taskId, j) ensures j < |us| { IsBelow(us, t.taskId, j); }
  }

  lemma IsBelow(us: seq<TaskUpdate>, id: string, j: nat)
    ensures LastStatusAt(us, id, j) || LastPriorityAt(us, id, j) ==> j < |us|
  {
  }

  /** Every task keeps its place and everything but status and priority, which the last update decides. */
  lemma {:induction false} UpdatesAre(q: seq<Task>, us: seq<TaskUpdate>)
    requires UniqueIds(q)
    ensures var r := ApplyUpdates(q, us);
            |r| == |q| && forall k :: 0 <= k < |q| ==> UpdatedTo(us, q[k], r[k])
  {
    if us == [] {
      NoUpdates(q);
    } else {
      var n := |us| - 1;
      UpdatesAre(q, us[..n]);
      var before, r := ApplyUpdates(q, us[..n]), ApplyUpdates(q, us);
      assert us == us[..n] + [us[n]];
      UpdateOne(q, before, us[n]);
      hide ApplyUpdates;
      forall k | 0 <= k < |q| ensures UpdatedTo(us, q[k], r[k]) {
        UpdatedSnoc(us[..n], us[n], q[k], before[k]);
      }
    }
  }

  lemma NoUpdates(q: seq<Task>)
    ensures forall k :: 0 <= k < |q| ==> UpdatedTo([], q[k], q[k])
  {
  }

  lemma UpdateOne(q: seq<Task>, before: seq<Task>, u: TaskUpdate)
    requires UniqueIds(q) && |before| == |q| && forall k :: 0 <= k < |q| ==> before[k].taskId == q[k].taskId
    ensures var r := UpdateId(before, u.taskId, u.status, u.priority);
            && |r| == |q|
            && forall k :: 0 <= k < |q| ==>
                 r[k] == if u.taskId == q[k].taskId then Revise(before[k], u.status, u.priority) else before[k]
  {
    hide Revise;
  }

  // ---------------------------------------------------------------- additions

  /** The task would create a file but has no content for it. */
  predicate Hollow(t: Task) {
    t.tool == "filesystem" && (t.action == "write_file" || t.action == "create_file") && t.content == ""
  }

  lemma HollowIs(t: Task)
    ensures LacksContent(t) <==> Hollow(t)
  {
  }

  /** Entry `p` is the first of its id that may be added to `q`. */
  predicate FirstNew(q: seq<Task>, ts: seq<Task>, needContent: bool, p: nat) {
    && p < |ts| && ts[p].taskId != "" && (forall k :: 0 <= k < |q| ==> q[k].taskId != ts[p].taskId)
    && !(needContent && Hollow(ts[p]))
    && forall m :: 0 <= m < p && ts[m].taskId == ts[p].taskId ==> needContent && Hollow(ts[m])
  }

  /** The tasks made of the entries at these places, waiting and without an error. */
  ghost predicate MadeOf(ts: seq<Task>, at: seq<nat>, made: seq<Task>) {
    && |made| == |at|
    && forall i :: 0 <= i < |at| ==> at[i] < |ts| && made[i] == ts[at[i]].(status := Todo, error := None)
  }

  /** The tasks already there stay as they are; behind them stand, in their order and waiting, the first
      usable entry of every new id. */
  lemma {:induction false} AdditionsAre(q: seq<Task>, ts: seq<Task>, needContent: bool, n: nat)
    returns (at: seq<nat>)
    requires n <= |ts|
    ensures var r := AddMissing(q, ts[..n], needContent);
            && q <= r && Ascending(at) && MadeOf(ts, at, r[|q|..])
            && forall p: nat :: p in at <==> p < n && FirstNew(q, ts, needContent, p)
  {
    hide *;
    at := [];
    if n > 0 {
      at := AdditionsAre(q, ts, needContent, n - 1);
      var before, r := AddMissing(q, ts[..n - 1], needContent), AddMissing(q, ts[..n], needContent);
      AdditionsUnfold(q, ts, needContent, n);
      KnownIds(q, ts, needContent, n - 1, at, before);
      if FirstNew(q, ts, needContent, n - 1) {
        var made := ts[n - 1].(status := Todo, error := None);
        assert r[|q|..] == before[|q|..] + [made];
        AscendingSnoc(at, n - 1);
        MadeSnoc(ts, at, before[|q|..], n - 1);
        at := at + [n - 1];
      }
    } else {
      NothingAdded(q, ts, needContent);
    }
  }

  lemma NothingAdded(q: seq<Task>, ts: seq<Task>, needContent: bool)
    ensures AddMissing(q, ts[..0], needContent) == q && Ascending([]) && MadeOf(ts, [], q[|q|..])
  {
  }

  lemma AdditionsUnfold(q: seq<Task>, ts: seq<Task>, needContent: bool, n: nat)
    requires 0 < n <= |ts|
    ensures var before, t := AddMissing(q, ts[..n - 1], needContent), ts[n - 1];
            AddMissing(q, ts[..n], needContent)
            == if t.taskId == "" || IndexOf(before, t.taskId).Some? || (needContent && Hollow(t)) then before
               else before + [t.(status := Todo, error := None)]
  {
    assert ts[..n][..n - 1] == ts[..n - 1];
    HollowIs(ts[n - 1]);
  }

  /** An id is known by now exactly when it was in the queue or a usable entry came before. */
  lemma KnownIds(q: seq<Task>, ts: seq<Task>, needContent: bool, n: nat, at: seq<nat>, before: seq<Task>)
    requires n < |ts| && q <= before && MadeOf(ts, at, before[|q|..])
    requires forall p: nat :: p in at <==> p < n && FirstNew(q, ts, needContent, p)
    ensures FirstNew(q, ts, needContent, n) <==>
            ts[n].taskId != "" && IndexOf(before, ts[n].taskId).None? && !(needContent && Hollow(ts[n]))
  {
    hide Hollow;
    var id := ts[n].taskId;
    if FirstNew(q, ts, needContent, n) {
      forall k | 0 <= k < |before| ensures before[k].taskId != id {
        if k >= |q| {
          var i := k - |q|;
          assert before[|q|..][i] == before[k] && at[i] in at;
          assert FirstNew(q, ts, needContent, at[i]);
        } else {
          assert before[k] == q[k];
        }
      }
    } else if k :| 0 <= k < |q| && q[k].taskId == id {
      assert before[k] == q[k];
    } else if id != "" && !(needContent && Hollow(ts[n])) {
      var m: nat :| m < n && ts[m].taskId == id && !(needContent && Hollow(ts[m]));
      FirstOfItsId(q, ts, needContent, m);
      var p: nat :| p <= m && FirstNew(q, ts, needContent, p) && ts[p].taskId == id;
      assert p in at;
      var i :| 0 <= i < |at| && at[i] == p;
      assert before[|q| + i] == before[|q|..][i];
    }
  }

  /** Where a usable entry of a new id stands, there is a first one. */
  lemma {:induction false} FirstOfItsId(q: seq<Task>, ts: seq<Task>, needContent: bool, m: nat)
    requires m < |ts| && ts[m].taskId != "" && (forall k :: 0 <= k < |q| ==> q[k].taskId != ts[m].taskId)
    requires !(needContent && Hollow(ts[m]))
    ensures exists p: nat :: p <= m && FirstNew(q, ts, needContent, p) && ts[p].taskId == ts[m].taskId
    decreases m
  {
    hide Hollow;
    if !FirstNew(q, ts, needContent, m) {
      var j: nat :| j < m && ts[j].taskId == ts[m].taskId && !(needContent && Hollow(ts[j]));
      FirstOfItsId(q, ts, needContent, j);
    }
  }

  lemma SeedsUnfold(ts: seq<Task>, n: nat)
    requires 0 < n <= |ts|
    ensures Seeds(ts[..n])
         == Seeds(ts[..n - 1])
            + if ts[n - 1].taskId == "" then [] else [ts[n - 1].(status := Todo, error := None)]
    ensures Seeds(ts[..0]) == []
  {
    assert ts[..n][..n - 1] == ts[..n - 1];
  }

  lemma MadeSnoc(ts: seq<Task>, at: seq<nat>, made: seq<Task>, n: nat)
    requires MadeOf(ts, at, made) && n < |ts|
    ensures MadeOf(ts, at + [n], made + [ts[n].(status := Todo, error := None)])
  {
  }

  /** The tasks written into an empty project queue are the generated ones with an id, waiting. */
  lemma {:induction false} SeedsAre(ts: seq<Task>, n: nat) returns (at: seq<nat>)
    requires n <= |ts|
    ensures Ascending(at) && MadeOf(ts, at, Seeds(ts[..n]))
    ensures forall p: nat :: p in at <==> p < n && ts[p].taskId != ""
  {
    at := [];
    if n > 0 {
      at := SeedsAre(ts, n - 1);
      SeedsUnfold(ts, n);
      hide *;
      if ts[n - 1].taskId != "" {
        AscendingSnoc(at, n - 1);
        MadeSnoc(ts, at, Seeds(ts[..n - 1]), n - 1);
        at := at + [n - 1];
      }
    }
  }

  // ---------------------------------------------------------------- removals

  /** The tasks of `q` at these places. */
  ghost predicate TakenFrom(q: seq<Task>, at: seq<nat>, r: seq<Task>) {
    |r| == |at| && forall i :: 0 <= i < |at| ==> at[i] < |q| && r[i] == q[at[i]]
  }

  /** What is left are the tasks not named, untouched and in their order. */
  lemma {:induction false} RemovalsAre(q: seq<Task>, ids: seq<string>) returns (at: seq<nat>)
    requires UniqueIds(q)
    ensures Ascending(at) && TakenFrom(q, at, RemoveAll(q, ids))
    ensures forall p: nat :: p in at <==> p < |q| && q[p].taskId !in ids
  {
    if ids == [] {
      at := seq(|q|, i => i);
      assert forall p: nat :: p < |q| ==> at[p] == p;
    } else {
      var n := |ids| - 1;
      at := RemovalsAre(q, ids[..n]);
      var before := RemoveAll(q, ids[..n]);
      StickyDone.RemoveAllShape(q, ids[..n], "");
      assert ids == ids[..n] + [ids[n]];
      at := RemoveOne(q, ids[..n], at, before, ids[n]);
    }
  }

  lemma RemoveOne(q: seq<Task>, gone: seq<string>, at: seq<nat>, before: seq<Task>, id: string)
    returns (fewer: seq<nat>)
    requires UniqueIds(q) && Ascending(at) && TakenFrom(q, at, before)
    requires forall p: nat :: p in at <==> p < |q| && q[p].taskId !in gone
    ensures Ascending(fewer) && TakenFrom(q, fewer, RemoveId(before, id))
    ensures forall p: nat :: p in fewer <==> p < |q| && q[p].taskId !in gone + [id]
  {
    match IndexOf(before, id)
    case None =>
      fewer := at;
      forall p: nat | p in at ensures q[p].taskId != id {
        var i :| 0 <= i < |at| && at[i] == p;
        assert before[i] == q[p];
      }
    case Some(k) =>
      fewer := at[..k] + at[k + 1..];
      DropPlace(at, k);
      assert q[at[k]].taskId == id;
      forall p: nat ensures p in fewer <==> p < |q| && q[p].taskId !in gone + [id] {
        assert p in fewer <==> p in at && p != at[k];
        assert p < |q| && p != at[k] ==> q[p].taskId != id;
      }
  }

  lemma DropPlace(at: seq<nat>, k: nat)
    requires Ascending(at) && k < |at|
    ensures Ascending(at[..k] + at[k + 1..])
    ensures forall p: nat :: p in at[..k] + at[k + 1..] <==> p in at && p != at[k]
  {
    var r := at[..k] + at[k + 1..];
    assert forall i :: 0 <= i < |r| ==> r[i] == if i < k then at[i] else at[i + 1];
    forall p: nat ensures p in r <==> p in at && p != at[k] {
      if p in at && p != at[k] {
        var i :| 0 <= i < |at| && at[i] == p;
        assert r[if i < k then i else i - 1] == p;
      }
    }
  }

  // ---------------------------------------------------------------- the whole decision

  /** Main result: a decision gives every task its last status and priority, then puts the first usable entry
      of every new id behind them, waiting, and then takes out exactly the tasks it names. */
  lemma DecisionIs(q: seq<Task>, r: Reflection)
    returns (updated: seq<Task>, grown: seq<Task>, added: seq<nat>, kept: seq<nat>)
    requires UniqueIds(q)
    ensures |updated| == |q| && forall k :: 0 <= k < |q| ==> UpdatedTo(r.updates, q[k], updated[k])
    ensures updated <= grown && Ascending(added) && MadeOf(r.newTasks, added, grown[|updated|..])
    ensures forall p: nat :: p in added <==> FirstNew(updated, r.newTasks, true, p)
    ensures Ascending(kept) && TakenFrom(grown, kept, ApplyReflection(q, r))
    ensures forall p: nat :: p in kept <==> p < |grown| && grown[p].taskId !in r.removals
  {
    updated := ApplyUpdates(q, r.updates);
    UpdatesAre(q, r.updates);
    added := AdditionsAre(updated, r.newTasks, true, |r.newTasks|);
    assert r.newTasks[..|r.newTasks|] == r.newTasks;
    grown := AddMissing(updated, r.newTasks, true);
    StickyDone.UpdatesOnDone(q, r.updates, "");
    StickyDone.AddMissingKeeps(updated, r.newTasks, true, "");
    assert ApplyReflection(q, r) == RemoveAll(grown, r.removals);
    kept := RemovalsAre(grown, r.removals);
    hide *;
    assert forall p: nat :: FirstNew(updated, r.newTasks, true, p) ==> p < |r.newTasks| by {
      forall p: nat | FirstNew(updated, r.newTasks, true, p) ensures p < |r.newTasks| {
        NewIsBelow(updated, r.newTasks, p);
      }
    }
  }

  lemma NewIsBelow(q: seq<Task>, ts: seq<Task>, p: nat)
    requires FirstNew(q, ts, true, p)
    ensures p < |ts|
  {
  }
}
