/** Where a pin goes when the task it names is superseded, in terms of the tasks. */
module PinFields {
  import opened Options
  import opened Text
  import opened Plans
  import opened Corrections
  import opened Install

  /** The task takes the place of `y`, under trimmed ids. */
  predicate TakesOver(t: Task, y: string)
  {
    y != "" && Trim(t.supersedes) == y && Trim(t.id) != "" && Trim(t.id) != y
  }

  /** The last task of the list that takes the place of `y` is `x`. */
  ghost predicate Successor(ts: seq<Task>, y: string, x: string)
  {
    exists i :: 0 <= i < |ts| && TakesOver(ts[i], y) && Trim(ts[i].id) == x &&
                forall j :: i < j < |ts| ==> !TakesOver(ts[j], y)
  }

  lemma SuccessorSnoc(front: seq<Task>, last: Task, ts: seq<Task>, y: string, x: string)
    requires ts == front + [last]
    ensures TakesOver(last, y) ==> Successor(ts, y, Trim(last.id))
    ensures !TakesOver(last, y) && Successor(front, y, x) ==> Successor(ts, y, x)
  {
    if TakesOver(last, y) {
      assert ts[|ts| - 1] == last;
    } else if Successor(front, y, x) {
      var i :| 0 <= i < |front| && TakesOver(front[i], y) && Trim(front[i].id) == x &&
          forall j :: i < j < |front| ==> !TakesOver(front[j], y);
      assert ts[i] == front[i] && forall j :: i < j < |ts| ==> !TakesOver(ts[j], y);
    }
  }

  lemma LinksSnoc(front: seq<Task>, last: Task, ts: seq<Task>, y: string)
    requires ts == front + [last]
    ensures y in Links(ts) <==> TakesOver(last, y) || y in Links(front)
    ensures y in Links(ts) ==> Links(ts)[y] == if TakesOver(last, y) then Trim(last.id) else Links(front)[y]
  {
    assert ts[..|ts| - 1] == front && ts[|ts| - 1] == last;
  }

  lemma {:induction false} LinkKeys(ts: seq<Task>, y: string)
    ensures y in Links(ts) <==> exists t :: t in ts && TakesOver(t, y)
  {
    if ts != [] {
      var front, last := ts[..|ts| - 1], ts[|ts| - 1];
      assert ts == front + [last];
      LinkKeys(front, y);
      LinksSnoc(front, last, ts, y);
      assert forall t :: t in ts <==> t in front || t == last;
    }
  }

  lemma {:induction false} LinkOf(ts: seq<Task>, y: string)
    requires y in Links(ts)
    ensures Successor(ts, y, Links(ts)[y])
  {
    var front, last := ts[..|ts| - 1], ts[|ts| - 1];
    assert ts == front + [last];
    LinksSnoc(front, last, ts, y);
    if !TakesOver(last, y) {
      LinkOf(front, y);
    }
    SuccessorSnoc(front, last, ts, y, Links(ts)[y]);
  }

  lemma SuccessorIs(ts: seq<Task>, y: string, x: string)
    requires Successor(ts, y, x)
    ensures y in Links(ts) && Links(ts)[y] == x && x != y
  {
    var i :| 0 <= i < |ts| && TakesOver(ts[i], y) && Trim(ts[i].id) == x &&
        forall j :: i < j < |ts| ==> !TakesOver(ts[j], y);
    assert ts[i] in ts;
    LinkKeys(ts, y);
    LinkOf(ts, y);
    var k :| 0 <= k < |ts| && TakesOver(ts[k], y) && Trim(ts[k].id) == Links(ts)[y] &&
        forall j :: k < j < |ts| ==> !TakesOver(ts[j], y);
    assert i == k;
  }

  /** The supersession map: a task has an entry exactly when some task takes its place, and then it
      leads to the last one that does. */
  lemma LinksMean(ts: seq<Task>, y: string, x: string)
    ensures y in Links(ts) <==> exists t :: t in ts && TakesOver(t, y)
    ensures y in Links(ts) && Links(ts)[y] == x <==> Successor(ts, y, x)
  {
    LinkKeys(ts, y);
    if Successor(ts, y, x) {
      SuccessorIs(ts, y, x);
    }
    if y in Links(ts) {
      LinkOf(ts, y);
    }
  }

  // ----- following successors

  /** Each entry of the path succeeds the one before it, none occurs twice, and nothing succeeds the
      last. */
  ghost predicate Lineage(ts: seq<Task>, path: seq<string>)
  {
    && path != []
    && (forall k :: 0 <= k < |path| - 1 ==> Successor(ts, path[k], path[k + 1]))
    && (forall k, l :: 0 <= k < l < |path| ==> path[k] != path[l])
    && (forall t <- ts :: !TakesOver(t, path[|path| - 1]))
  }

  ghost function Visited(path: seq<string>, k: nat): (r: set<string>)
    requires k < |path|
  {
    set i | 0 <= i <= k :: path[i]
  }

  lemma {:induction false} FollowLineage(ts: seq<Task>, path: seq<string>, k: nat)
    requires Lineage(ts, path) && k < |path|
    ensures Follow(Links(ts), path[k], Visited(path, k)) == path[|path| - 1]
    decreases |path| - k
  {
    if k < |path| - 1 {
      SuccessorIs(ts, path[k], path[k + 1]);
      assert path[k + 1] !in Visited(path, k);
      assert Visited(path, k + 1) == Visited(path, k) + {path[k + 1]};
      FollowLineage(ts, path, k + 1);
    } else {
      LinkKeys(ts, path[k]);
    }
  }

  /** A pin moves to the end of its lineage, and stays where nothing supersedes it. */
  lemma PinFollows(ts: seq<Task>, path: seq<string>)
    requires Lineage(ts, path)
    ensures Repinned(Links(ts), path[0]) == path[|path| - 1]
  {
    assert Visited(path, 0) == {path[0]};
    FollowLineage(ts, path, 0);
  }

  lemma PinStays(ts: seq<Task>, y: string)
    requires forall t <- ts :: !TakesOver(t, y)
    ensures Repinned(Links(ts), y) == y
  {
    PinFollows(ts, [y]);
  }

  /** One replacement that is not replaced itself takes the pin. */
  lemma PinMoves(ts: seq<Task>, y: string, x: string)
    requires Successor(ts, y, x) && x != y && forall t <- ts :: !TakesOver(t, x)
    ensures Repinned(Links(ts), y) == x
  {
    PinFollows(ts, [y, x]);
  }

  /** The state's own pin is read without outer white space, moves along the same lineage, and nothing
      else in the state changes; a pin that nothing supersedes is left as it was written. */
  lemma StatePinFollows(ts: seq<Task>, state: State, text: string, path: seq<string>)
    requires "goldfive.current_task_id" in state && state["goldfive.current_task_id"] == Words(text)
    requires Lineage(ts, path) && path[0] == Trim(text) && path[0] != ""
    ensures RepinState(Links(ts), state) ==
            if |path| == 1 then state else state["goldfive.current_task_id" := Words(path[|path| - 1])]
  {
    PinFollows(ts, path);
  }

  lemma NoStatePin(ts: seq<Task>, state: State)
    requires "goldfive.current_task_id" !in state || !state["goldfive.current_task_id"].Words? ||
             Trim(state["goldfive.current_task_id"].text) == ""
    ensures RepinState(Links(ts), state) == state
  {
  }

  /** Re-pinning a session moves both pins, each along its own lineage. */
  lemma InstallMovesPin(v: View, p: Plan, prev: Option<Plan>, d: Drift, now: int, path: seq<string>)
    requires Lineage(p.tasks, path) && path[0] == v.pin && v.pin != ""
    ensures Installed(v, p, prev, d, now).pin == path[|path| - 1]
  {
    PinFollows(p.tasks, path);
  }
}
