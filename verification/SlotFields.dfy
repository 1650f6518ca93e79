/** The correction slots that an install leaves, in terms of the tasks' own fields. */
module SlotFields {
  import opened Options
  import opened Text
  import opened Plans
  import opened Corrections
  import opened Install

  /** The task is assigned, and corrects a task that the new plan or the one before it has. */
  ghost predicate Corrective(t: Task, revised: seq<Task>, prev: seq<Task>)
  {
    && t.supersedesKind == Correct && Trim(t.id) != "" && Trim(t.assignee) != "" && Trim(t.supersedes) != ""
    && (Trim(t.supersedes) in Ids(revised) || Trim(t.supersedes) in Ids(prev))
  }

  lemma EligibleIff(t: Task, revised: seq<Task>, prev: seq<Task>)
    ensures Eligible(t, revised, prev) <==> Corrective(t, revised, prev)
  {
    FoundIff(revised, Trim(t.supersedes));
    FoundIff(prev, Trim(t.supersedes));
  }

  lemma FoundIff(ts: seq<Task>, id: string)
    ensures Lookup(ts, id).Some? <==> id != "" && id in Ids(ts)
  {
  }

  lemma FoundUnique(ts: seq<Task>, w: Task)
    requires UniqueIds(ts) && w in ts && w.id != ""
    ensures Lookup(ts, w.id) == Some(w)
  {
    var r := Lookup(ts, w.id);
    assert w.id in Ids(ts);
  }

  /** No id has a dot, so that a slot key names one agent and one task. */
  ghost predicate PlainIds(ts: seq<Task>)
  {
    UniqueIds(ts) && forall t <- ts :: DotFree(t.id) && DotFree(Trim(t.supersedes))
  }

  /** A corrective task gets a slot that names the agent, the task with its title, the corrected task
      with its title, and the drift, index and time of the revision. */
  lemma CorrectiveSlot(state: State, revised: seq<Task>, prev: seq<Task>, g: Trigger, t: Task, w: Task)
    requires PlainIds(revised) && t in revised && Corrective(t, revised, prev) && w.id == Trim(t.supersedes)
    requires w in revised || (w.id !in Ids(revised) && UniqueIds(prev) && w in prev)
    ensures var r, key := Refresh(state, revised, prev, g),
                          "goldfive.pending_corrections" + "." + Trim(t.assignee) + "." + t.id;
            && key in r && r[key].Slot?
            && var s := r[key].payload;
               && s.agent == Trim(t.assignee) && s.task == t.id && s.title == t.title
               && s.superseded == t.supersedes && s.supersededTitle == w.title
               && s.driftKind == g.kind && s.driftReason == g.reason && s.revision == g.revision && s.issuedAt == g.now
  {
    EligibleIff(t, revised, prev);
    if w in revised {
      FoundUnique(revised, w);
    } else {
      FoundIff(revised, w.id);
      FoundUnique(prev, w);
    }
    QueueValue(ClearObsolete(state, revised), revised, revised, prev, g, t);
  }

  /** So does an install: the slot carries the drift's kind and detail, the installed index and the time. */
  lemma InstalledSlot(v: View, p: Plan, prev: Plan, d: Drift, now: int, t: Task, w: Task)
    requires PlainIds(p.tasks) && t in p.tasks && Corrective(t, p.tasks, prev.tasks) && w.id == Trim(t.supersedes)
    requires w in p.tasks || (w.id !in Ids(p.tasks) && UniqueIds(prev.tasks) && w in prev.tasks)
    ensures var state, key := Installed(v, p, Some(prev), d, now).state, SlotKey(Trim(t.assignee), t.id);
            && key in state
            && state[key] == Slot(Payload(Trim(t.assignee), t.id, t.title, t.supersedes, w.title, d.kind, d.detail,
                 p.revision, now))
  {
    var marked := v.state[KEY_CURRENT_PLAN_ID := Words(p.id)];
    var key := SlotKey(Trim(t.assignee), t.id);
    CorrectiveSlot(marked, p.tasks, prev.tasks, TriggerOf(p, d, now), t, w);
    SlotKeyInFamily(Trim(t.assignee), t.id);
    assert |KEY_CURRENT_TASK_ID| < |SLOT_FAMILY|;
  }

  lemma QueuedIff(revised: seq<Task>, prev: seq<Task>, agent: string, task: string, t: Task)
    requires PlainIds(revised) && DotFree(task)
    ensures QueuedBy(t, revised, revised, prev, SlotKey(agent, task)) <==>
            t in revised && Corrective(t, revised, prev) && t.id == task && Trim(t.assignee) == agent
  {
    EligibleIff(t, revised, prev);
    if t in revised && SlotKey(Trim(t.assignee), t.id) == SlotKey(agent, task) {
      SlotKeyInjective(Trim(t.assignee), t.id, agent, task);
    }
  }

  /** The slot of any other pair is there exactly when it was, and no task of the revision supersedes
      its task, by replacement or by correction. A replacement gets none of its own. */
  lemma OtherSlots(state: State, revised: seq<Task>, prev: seq<Task>, g: Trigger, agent: string, task: string)
    requires PlainIds(revised) && DotFree(task) && task != ""
    requires forall t <- revised :: t.id == task && Trim(t.assignee) == agent ==> !Corrective(t, revised, prev)
    ensures var r, key := Refresh(state, revised, prev, g), SlotKey(agent, task);
            && (key in r <==> key in state && forall t <- revised :: Trim(t.supersedes) != task)
            && (key in r ==> r[key] == state[key])
  {
    var key := SlotKey(agent, task);
    forall t ensures !QueuedBy(t, revised, revised, prev, key) {
      QueuedIff(revised, prev, agent, task, t);
    }
    NoSlotEmpty();
    SlotsAfterRevision(state, revised, prev, g, agent, task, "");
  }

  lemma NoSlotEmpty()
    ensures !InFamily("")
  {
  }

  lemma ReplacementGetsNoSlot(state: State, revised: seq<Task>, prev: seq<Task>, g: Trigger, t: Task)
    requires PlainIds(revised) && t in revised && t.supersedesKind == Replace && t.id != ""
    ensures var key := SlotKey(Trim(t.assignee), t.id); key in Refresh(state, revised, prev, g) ==> key in state
  {
    forall u | u in revised && u.id == t.id && Trim(u.assignee) == Trim(t.assignee)
      ensures !Corrective(u, revised, prev)
    {
      assert u == t;
    }
    OtherSlots(state, revised, prev, g, Trim(t.assignee), t.id);
  }

  // ----- the rest of an install

  /** An install puts the plan on the session, points the state at it, and records its index for the
      kind and task of the drift, unless an operator caused it; every other mark stays. */
  lemma InstalledMarks(v: View, p: Plan, prev: Option<Plan>, d: Drift, now: int, kind: string, task: string)
    ensures var w := Installed(v, p, prev, d, now);
            && w.plan == Some(p)
            && ((kind, task) in w.addressed <==>
                  (kind, task) in v.addressed || (!d.byUser && kind == d.kind && task == d.task))
            && (!d.byUser ==> w.addressed[(d.kind, d.task)] == p.revision)
            && ((kind, task) in v.addressed && (d.byUser || (kind, task) != (d.kind, d.task)) ==>
                  w.addressed[(kind, task)] == v.addressed[(kind, task)])
  {
  }

  /** The state names the installed plan. */
  lemma InstalledPlanId(v: View, p: Plan, prev: Option<Plan>, d: Drift, now: int)
    ensures var s := Installed(v, p, prev, d, now).state;
            "goldfive.current_plan_id" in s && s["goldfive.current_plan_id"] == Words(p.id)
  {
    var marked := v.state[KEY_CURRENT_PLAN_ID := Words(p.id)];
    var k := KEY_CURRENT_PLAN_ID;
    assert |k| < |SLOT_FAMILY|;
    OutsideFamily(marked, p.tasks, TasksOf(prev), TriggerOf(p, d, now), k);
    assert KEY_CURRENT_PLAN_ID[17] == 'p' && KEY_CURRENT_TASK_ID[17] == 't';
  }

  /** Entries outside the slot family are not touched by collecting and queueing. */
  lemma OutsideFamily(state: State, revised: seq<Task>, prev: seq<Task>, g: Trigger, key: string)
    requires !InFamily(key)
    ensures var r := Refresh(state, revised, prev, g);
            (key in r <==> key in state) && (key in r ==> r[key] == state[key])
  {
    var mid := ClearObsolete(state, revised);
    QueueKeys(mid, revised, revised, prev, g, key);
    forall t ensures !QueuedBy(t, revised, revised, prev, key) {
      SlotKeyInFamily(Trim(t.assignee), t.id);
    }
  }

  /** A sweep for no task in particular collects nothing; one for a task collects exactly the family's keys
      that end in its id. */
  lemma ClearedKeys(state: State, task: string, key: string)
    ensures ClearTask(state, "") == state
    ensures task != "" ==>
              (key in ClearTask(state, task) <==>
                 key in state && !(InFamily(key) && |key| > |task| && key[|key| - |task| - 1..] == "." + task))
    ensures key in ClearTask(state, task) ==> ClearTask(state, task)[key] == state[key]
  {
    if |key| > |task| {
      assert key[|key| - |task| - 1..] == key[|key| - |task| - 1..|key|];
    }
  }
}
