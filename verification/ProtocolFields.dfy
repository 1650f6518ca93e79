/** What a task transition and a growth leave on the session, field by field. */
module ProtocolFields {
  import opened Options
  import opened Plans
  import opened Revisions
  import opened Corrections
  import opened Install
  import opened Steer
  import opened Runs
  import opened PlanFields
  import opened Protocol

  /** Neither a task that is not in the plan nor a finished one is touched. */
  lemma NothingToDo(v: View, id: string, status: Status)
    requires v.plan.Some?
    requires Lookup(v.plan.value.tasks, id).Some? ==> !Unfinished(Lookup(v.plan.value.tasks, id).value.status)
    ensures RuntimeView(v, id, status) == v
  {
  }

  /** A task that starts becomes the pinned one, and the state names it with its title. */
  lemma StartedFields(v: View, p: Plan, t: Task)
    requires v.plan == Some(p) && WellNamed(p) && t in p.tasks && Unfinished(t.status)
    ensures var w := RuntimeView(v, t.id, Running);
            && w.plan == Some(Transitioned(p, t.id, Running)) && w.pin == t.id && w.addressed == v.addressed
            && w.state == v.state["goldfive.current_task_id" := Words(t.id)]["goldfive.current_task_title" :=
                Words(t.title)]
  {
    UniqueLookup(p.tasks, t);
  }

  /** A task that ends is no longer named by the state, if it was the one named; the pin stays, and so
      does the mark of another task. */
  lemma EndedFields(v: View, p: Plan, t: Task, status: Status)
    requires v.plan == Some(p) && WellNamed(p) && t in p.tasks && Unfinished(t.status) && !Unfinished(status)
    ensures var w := RuntimeView(v, t.id, status);
            && w.plan == Some(Transitioned(p, t.id, status)) && w.pin == v.pin && w.addressed == v.addressed
            && w.state ==
               if "goldfive.current_task_id" in v.state && v.state["goldfive.current_task_id"] == Words(t.id)
               then v.state - {"goldfive.current_task_id", "goldfive.current_task_title",
                               "goldfive.current_task_revision"}
               else v.state
  {
    UniqueLookup(p.tasks, t);
  }

  /** A growth swaps the plan and the state's plan id, and nothing else of the session. */
  lemma GrownMarks(v: View, q: Plan)
    ensures var w := GrownView(v, q);
            && w.plan == Some(q) && w.pin == v.pin && w.addressed == v.addressed
            && w.state == v.state["goldfive.current_plan_id" := Words(q.id)]
  {
  }

  // ----- what is accepted, prepared and installed

  /** A refinement is accepted exactly when, folded, it is valid and changes something. */
  lemma RefinementAccepted(p: Plan, candidate: Plan, f: Plan)
    ensures Accepted(p, Refining(candidate)) == Some(f) <==>
            f == Fold(candidate, Some(p)) && ValidRevision(f, Some(p)) && !Unchanged(f, p)
  {
    UnchangedIff(p, Fold(candidate, Some(p)));
  }

  /** A steer is accepted as the planner's valid revision or the minimum, when that changes something. */
  lemma SteerAccepted(p: Plan, llm: Option<Plan>, reason: string, c: Plan)
    ensures Accepted(p, Steering(llm, reason)) == Some(c) <==>
            && !Unchanged(c, p)
            && c == if llm.Some? && ValidRevision(Fold(llm.value, Some(p)), Some(p)) then Fold(llm.value, Some(p))
                    else Minimal(p, reason)
  {
    UnchangedIff(p, Chosen(p, llm, reason));
  }

  /** A prepared revision lands when steering is active, an operator caused it, or it records discovered
      work, and not otherwise. */
  lemma PreparedLands(cfg: Config, pick: Pick, prev: Plan, held: nat, p: Plan, seen: nat, now: int)
    ensures JobOn(cfg, pick, prev, held, p, seen, now).lands <==>
            cfg.active || pick.drift.byUser || pick.drift.kind == "new_work_discovered"
  {
  }

  /** So in every history of an observed session only operators and discovered work install. */
  lemma InstallsLand(cfg: Config, log: seq<Commit>, k: nat, job: Job)
    requires History(cfg, log) && 1 <= k < |log| && log[k].cause == ByInstall(job)
    ensures cfg.active || job.pick.drift.byUser || job.pick.drift.kind == "new_work_discovered"
  {
    assert Explained(cfg, log, k);
    var p :| PlanThen(log[..k], job.seen, p) && job == JobOn(cfg, job.pick, job.prev, job.held, p, job.seen, job.now);
    PreparedLands(cfg, job.pick, job.prev, job.held, p, job.seen, job.now);
  }
}
