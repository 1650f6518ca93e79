/** Preparing, gating and installing a revision on a session. */
module Install {
  import opened Options
  import opened Text
  import opened Graph
  import opened Rewire
  import opened Plans
  import opened Revisions
  import opened Corrections

  const DISCOVERY := "new_work_discovered"
  const KEY_CURRENT_PLAN_ID := "goldfive.current_plan_id"
  const KEY_CURRENT_TASK_ID := "goldfive.current_task_id"

  /** What an install reads off the drift that triggered it. */
  datatype Drift = Drift(
    kind: string, severity: string, detail: string, trigger: string, task: string, byUser: bool)

  function Max(a: int, b: int): (r: int)
    ensures r >= a && r >= b && (r == a || r == b)
  {
    if a >= b then a else b
  }

  function Stamped(p: Plan, prev: Option<Plan>, d: Drift): (r: Plan)
    ensures r.tasks == p.tasks && r.edges == p.edges && r.id == p.id
    ensures r.revision > (if prev.Some? then prev.value.revision else 0)
  {
    p.(revision := Max(p.revision, if prev.Some? then prev.value.revision + 1 else 1),
       stamp := Stamp(OrElse(p.stamp.kind, d.kind), OrElse(p.stamp.severity, d.severity),
                      OrElse(p.stamp.reason, d.detail), OrElse(p.stamp.trigger, d.trigger)))
  }

  /** The plan a revision proposes to install over `prev`. */
  function Prepared(ledger: bool, p: Plan, prev: Option<Plan>, d: Drift): (r: Plan)
  {
    Stamped(LedgerRepair(ledger, Fold(p, prev), prev), prev, d)
  }

  /** The status a candidate's task has once recorded terminal statuses are folded in. */
  function SettledStatus(t: Task, recorded: seq<Task>): (r: Status)
  {
    var was := Lookup(TerminalTasks(recorded), t.id);
    if was.Some? && !Terminal(t.status) then was.value.status else t.status
  }

  lemma RepairKeepsDiscoveries(ledger: bool, p: Plan, prev: Option<Plan>)
    requires ledger && prev.Some? && HasLedgerShape(prev.value.tasks)
    ensures forall t <- prev.value.tasks :: ReAdded(t, {}) ==> t.id in Ids(LedgerRepair(ledger, p, prev).tasks)
  {
    var r, m, back := LedgerRepair(ledger, p, prev), LedgerTasks(p.tasks, prev.value.tasks),
        Dropped(prev.value.tasks, Ids(p.tasks));
    SameIds(m, p.tasks);
    IdsConcat(m, back);
    forall t | t in prev.value.tasks && ReAdded(t, {}) ensures t.id in Ids(r.tasks) {
      if t.id !in Ids(p.tasks) {
        assert t in back;
      }
    }
  }

  /** The observation-only gate with its three carve-outs. */
  predicate Lands(active: bool, prev: Option<Plan>, d: Drift)
  {
    prev.None? || d.byUser || d.kind == DISCOVERY || active
  }

  // ----- re-pinning along supersessions

  function Links(ts: seq<Task>): (r: map<string, string>)
  {
    if ts == [] then map[]
    else
      var was, now := Trim(ts[|ts| - 1].supersedes), Trim(ts[|ts| - 1].id);
      var front := Links(ts[..|ts| - 1]);
      if was == "" || now == "" || was == now then front else front[was := now]
  }

  function Follow(links: map<string, string>, at: string, seen: set<string>): (r: string)
    decreases links.Values - seen
  {
    if at in links && links[at] !in seen
    then
      assert links[at] in links.Values;
      Follow(links, links[at], seen + {links[at]})
    else at
  }

  function Resolve(links: map<string, string>, start: string): (r: string)
  {
    Follow(links, start, {start})
  }

  ghost function LinkEdges(links: map<string, string>): (r: set<Edge>)
  {
    set k | k in links :: Edge(k, links[k])
  }

  lemma {:induction false} FollowEnds(links: map<string, string>, start: string, at: string, seen: set<string>)
    requires Reach(LinkEdges(links), start, at) && at in seen
    requires forall s :: s in seen ==> Reach(LinkEdges(links), s, at)
    ensures var r := Follow(links, at, seen);
            && Reach(LinkEdges(links), start, r)
            && (r in links ==> Leads(LinkEdges(links), r, r))
    decreases links.Values - seen
  {
    var L := LinkEdges(links);
    if at in links {
      var next := links[at];
      assert Edge(at, next) in L;
      EdgeLeads(L, at, next);
      if next in seen {
        StepReach(L, at, next, at);
      } else {
        assert next in links.Values;
        ReachTrans(L, start, at, next);
        ReachRefl(L, next);
        forall s | s in seen + {next} ensures Reach(L, s, next) {
          if s in seen {
            ReachTrans(L, s, at, next);
          }
        }
        FollowEnds(links, start, next, seen + {next});
      }
    }
  }

  /** A pin moves along the supersession chain, and it stops on a task nothing supersedes unless
      the chain runs in a circle. */
  lemma ResolveEnds(links: map<string, string>, start: string)
    ensures Reach(LinkEdges(links), start, Resolve(links, start))
    ensures Acyclic(LinkEdges(links)) ==> Resolve(links, start) !in links
  {
    ReachRefl(LinkEdges(links), start);
    FollowEnds(links, start, start, {start});
  }

  method ResolveChain(links: map<string, string>, start: string) returns (r: string)
    ensures r == Resolve(links, start)
  {
    var seen := {start};
    r := start;
    while r in links
      invariant Follow(links, r, seen) == Resolve(links, start)
      decreases links.Values - seen
    {
      var next := links[r];
      if next in seen {
        break;
      }
      assert next in links.Values;
      seen := seen + {next};
      r := next;
    }
  }

  // ----- the session, by value

  datatype View = View(plan: Option<Plan>, pin: string, addressed: map<(string, string), int>, state: State)

  function StatePin(state: State): (r: string)
  {
    if KEY_CURRENT_TASK_ID in state && state[KEY_CURRENT_TASK_ID].Words? then Trim(state[KEY_CURRENT_TASK_ID].text)
        else ""
  }

  function Repinned(links: map<string, string>, pin: string): (r: string)
  {
    if pin in links then Resolve(links, pin) else pin
  }

  function RepinState(links: map<string, string>, state: State): (r: State)
  {
    var pin := StatePin(state);
    if pin != "" && Repinned(links, pin) != pin then state[KEY_CURRENT_TASK_ID := Words(Repinned(links, pin))]
        else state
  }

  function TriggerOf(p: Plan, d: Drift, now: int): (r: Trigger)
  {
    Trigger(d.kind, d.detail, p.revision, now)
  }

  function TasksOf(p: Option<Plan>): (r: seq<Task>)
  {
    if p.Some? then p.value.tasks else []
  }

  /** Everything the locked region changes when it installs `p`. */
  function Installed(v: View, p: Plan, prev: Option<Plan>, d: Drift, now: int): (r: View)
  {
    var links := Links(p.tasks);
    var marked := v.state[KEY_CURRENT_PLAN_ID := Words(p.id)];
    View(Some(p),
         if v.pin != "" then Repinned(links, v.pin) else v.pin,
         if d.byUser then v.addressed else v.addressed[(d.kind, d.task) := p.revision],
         RepinState(links, Refresh(marked, p.tasks, TasksOf(prev), TriggerOf(p, d, now))))
  }

  /** The event put on the wire: the plan and whether it was only a preview. */
  datatype Emitted = Emitted(plan: Plan, dryRun: bool)

  class Session {
    var plan: Option<Plan>
    var pin: string
    var addressed: map<(string, string), int>
    var state: State

    ghost function Value(): (v: View)
      reads this
    {
      View(plan, pin, addressed, state)
    }

    /** The locked region: integrate the corrections, then either install everything or nothing. */
    method EmitPlanRevised(p: Plan, prev: Option<Plan>, d: Drift, now: int, dryRun: bool) returns (e: Emitted)
      modifies this
      ensures e == Emitted(Integrated(p), dryRun)
      ensures dryRun ==> Value() == old(Value())
      ensures !dryRun ==> Value() == Installed(old(Value()), Integrated(p), prev, d, now)
    {
      var cs := CorrectionsOf(p);
      var revised := p;
      if cs != [] {
        var es := IntegrateCorrections(p.edges, cs);
        revised := p.(edges := es);
      }
      if !dryRun {
        plan := Some(revised);
        if !d.byUser {
          addressed := addressed[(d.kind, d.task) := revised.revision];
        }
        state := state[KEY_CURRENT_PLAN_ID := Words(revised.id)];
        state := ClearObsoleteOnRevision(state, revised.tasks);
        state := QueueCorrections(state, revised.tasks, TasksOf(prev), TriggerOf(revised, d, now));
        Repin(revised);
      }
      e := Emitted(revised, dryRun);
    }

    method Repin(revised: Plan)
      modifies this`pin, this`state
      ensures pin == if old(pin) != "" then Repinned(Links(revised.tasks), old(pin)) else ""
      ensures state == RepinState(Links(revised.tasks), old(state))
    {
      var links := Links(revised.tasks);
      if pin != "" && pin in links {
        pin := ResolveChain(links, pin);
      }
      var s := StatePin(state);
      if s != "" && s in links {
        var r := ResolveChain(links, s);
        if r != s {
          state := state[KEY_CURRENT_TASK_ID := Words(r)];
        }
      }
    }

    /** Fold, repair, stamp and decide; no session field changes here. The tasks of the candidate
        come first and in order, an open one that is recorded terminal takes the recorded status,
        no open discovered task is missing, and the index is above the current one. */
    method ApplyRevision(ledger: bool, active: bool, p: Plan, d: Drift) returns (r: Plan, lands: bool)
      ensures r == Prepared(ledger, p, plan, d)
      ensures r.revision > (if plan.Some? then plan.value.revision else 0) && r.revision >= p.revision
      ensures r.edges == p.edges && |r.tasks| >= |p.tasks|
      ensures forall i :: 0 <= i < |p.tasks| ==> r.tasks[i].id == p.tasks[i].id
      ensures forall i :: 0 <= i < |p.tasks| ==> r.tasks[i].status == SettledStatus(p.tasks[i], TasksOf(plan))
      ensures ledger && HasLedgerShape(TasksOf(plan)) ==>
                forall t <- TasksOf(plan) :: ReAdded(t, {}) ==> t.id in Ids(r.tasks)
      ensures lands <==> active || plan.None? || d.byUser || d.kind == DISCOVERY
    {
      var folded := Fold(p, plan);
      var repaired := LedgerRepair(ledger, folded, plan);
      r := Stamped(repaired, plan, d);
      lands := plan.None? || d.byUser || d.kind == DISCOVERY || active;
      if ledger && HasLedgerShape(TasksOf(plan)) {
        RepairKeepsDiscoveries(ledger, folded, plan);
      }
    }

    /** Apply then emit, with nothing in between. */
    method Revise(ledger: bool, active: bool, p: Plan, d: Drift, now: int) returns (e: Emitted)
      modifies this
      ensures e == Emitted(Integrated(Prepared(ledger, p, old(plan), d)), !Lands(active, old(plan), d))
      ensures Value() == Revised(old(Value()), ledger, active, p, d, now)
    {
      var prev := plan;
      var r, lands := ApplyRevision(ledger, active, p, d);
      e := EmitPlanRevised(r, prev, d, now, !lands);
    }
  }

  function Revised(v: View, ledger: bool, active: bool, p: Plan, d: Drift, now: int): (r: View)
  {
    if Lands(active, v.plan, d)
    then Installed(v, Integrated(Prepared(ledger, p, v.plan, d)), v.plan, d, now)
    else v
  }
}
