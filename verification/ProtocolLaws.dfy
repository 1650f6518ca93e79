/** What the history of a session guarantees: when the index rises and when a completion survives. */
module ProtocolLaws {
  import opened Options
  import opened Plans
  import opened Revisions
  import opened Install
  import opened Steer
  import opened Runs
  import opened Cascade
  import opened Protocol

  function PlanAt(log: seq<Commit>, k: nat): (p: Plan)
    requires k < |log| && log[k].view.plan.Some?
  {
    log[k].view.plan.value
  }

  ghost predicate NamedHistory(cfg: Config, log: seq<Commit>)
  {
    History(cfg, log) && log[0].view.plan.Some? && WellNamed(PlanAt(log, 0))
  }

  // ----- the plans of a history

  lemma PlansPresent(cfg: Config, log: seq<Commit>, k: nat)
    requires History(cfg, log) && k < |log|
    ensures log[k].view.plan.Some?
  {
  }

  lemma NotSeed(cfg: Config, log: seq<Commit>, k: nat)
    requires History(cfg, log) && 1 <= k < |log|
    ensures !log[k].cause.Seed?
  {
    assert Explained(cfg, log, k);
  }

  lemma InstallSeen(cfg: Config, log: seq<Commit>, k: nat, job: Job)
    requires History(cfg, log) && 1 <= k < |log| && log[k].cause == ByInstall(job)
    ensures 1 <= job.pick.seen <= job.held <= job.seen <= k
  {
    assert Explained(cfg, log, k);
    var l := log[..k];
    assert JobOk(cfg, l, job) && PickOk(l, job.pick);
    var p, q :| PlanThen(l, job.pick.seen, p) && PlanThen(l, job.seen, q);
  }

  /** What the install at `k` makes of the plan it was prepared against. */
  lemma InstallPrepared(cfg: Config, log: seq<Commit>, k: nat, job: Job, p: Plan)
    requires History(cfg, log) && 1 <= k < |log| && log[k].cause == ByInstall(job) && 1 <= job.seen <= k
    requires log[job.seen - 1].view.plan == Some(p)
    ensures job.plan == Integrated(Prepared(cfg.ledger, job.pick.plan, Some(p), job.pick.drift))
    ensures log[k].view.plan == Some(job.plan)
  {
    assert Explained(cfg, log, k);
    var l := log[..k];
    var q :| PlanThen(l, job.seen, q) && job == JobOn(cfg, job.pick, job.prev, job.held, q, job.seen, job.now);
    assert l[job.seen - 1] == log[job.seen - 1];
  }

  /** The install at `k`: what it installs, from the commits it was accepted and prepared against. */
  lemma InstallPlan(cfg: Config, log: seq<Commit>, k: nat, job: Job)
    requires History(cfg, log) && 1 <= k < |log| && log[k].cause == ByInstall(job)
    ensures 1 <= job.pick.seen <= job.held <= job.seen <= k
    ensures log[job.pick.seen - 1].view.plan.Some? && log[job.seen - 1].view.plan.Some?
    ensures job.plan == Integrated(Prepared(cfg.ledger, job.pick.plan, Some(PlanAt(log, job.seen - 1)), job.pick.drift))
    ensures log[k].view.plan == Some(job.plan)
  {
    InstallSeen(cfg, log, k, job);
    InstallPrepared(cfg, log, k, job, PlanAt(log, job.seen - 1));
  }

  /** The plan its candidate was accepted against. */
  lemma InstallAccepted(cfg: Config, log: seq<Commit>, k: nat, job: Job, p: Plan)
    requires History(cfg, log) && 1 <= k < |log| && log[k].cause == ByInstall(job) && 1 <= job.pick.seen <= k
    requires log[job.pick.seen - 1].view.plan == Some(p)
    ensures Accepted(p, job.pick.proposal) == Some(job.pick.plan)
  {
    assert Explained(cfg, log, k);
    var l := log[..k];
    assert JobOk(cfg, l, job) && PickOk(l, job.pick);
    var q :| PlanThen(l, job.pick.seen, q) && Accepted(q, job.pick.proposal) == Some(job.pick.plan);
    assert l[job.pick.seen - 1] == log[job.pick.seen - 1];
  }

  lemma GrowthPlan(cfg: Config, log: seq<Commit>, k: nat, g: Growth)
    requires History(cfg, log) && 1 <= k < |log| && log[k].cause == ByGrowth(g)
    ensures log[k - 1].view.plan.Some? && GrownBy(cfg, PlanAt(log, k - 1), g) != PlanAt(log, k - 1)
    ensures log[k].view.plan == Some(GrownBy(cfg, PlanAt(log, k - 1), g))
  {
    assert Explained(cfg, log, k);
  }

  lemma RuntimePlan(cfg: Config, log: seq<Commit>, k: nat)
    requires History(cfg, log) && 1 <= k < |log| && log[k].cause.ByRuntime?
    ensures log[k - 1].view.plan.Some?
    ensures log[k].view.plan == Some(Transitioned(PlanAt(log, k - 1), log[k].cause.id, log[k].cause.status))
  {
    assert Explained(cfg, log, k);
  }

  /** The cancellation at `k`, and the snapshot in which its task was open. */
  lemma CascadePlan(cfg: Config, log: seq<Commit>, k: nat, id: string, seen: nat)
    requires History(cfg, log) && 1 <= k < |log| && log[k].cause == ByCascade(id, seen)
    ensures 1 <= seen <= k && log[seen - 1].view.plan.Some? && OpenIn(PlanAt(log, seen - 1), id)
    ensures log[k - 1].view.plan.Some? && Lookup(PlanAt(log, k - 1).tasks, id).Some?
    ensures log[k].view.plan == Some(CascadeWrite(PlanAt(log, k - 1), id))
  {
    assert Explained(cfg, log, k);
    var l := log[..k];
    var p :| PlanThen(l, seen, p) && OpenIn(p, id);
    assert l[seen - 1] == log[seen - 1];
  }

  // ----- names stay unique

  lemma AcceptedNamed(p: Plan, o: Proposal, f: Plan)
    requires WellNamed(p) && Accepted(p, o) == Some(f)
    ensures WellNamed(f) && KeepsStatuses(f, p)
  {
    if o.Steering? {
      MinimalKeepsStatuses(p, o.reason);
    }
  }

  lemma PreparedNamed(ledger: bool, f: Plan, p: Plan, d: Drift)
    requires WellNamed(f) && WellNamed(p)
    ensures WellNamed(Integrated(Prepared(ledger, f, Some(p), d)))
  {
    var g := Fold(f, Some(p));
    forall t | t in g.tasks ensures t.id != "" {
      var i :| 0 <= i < |g.tasks| && g.tasks[i] == t;
      assert f.tasks[i] in f.tasks;
    }
    RepairedNames(g.tasks, p.tasks);
    assert Integrated(Prepared(ledger, f, Some(p), d)).tasks == LedgerRepair(ledger, g, Some(p)).tasks;
  }

  lemma GrowthKeeps(cfg: Config, p: Plan, g: Growth)
    requires GrownBy(cfg, p, g) != p
    ensures WellNamed(GrownBy(cfg, p, g)) && GrownBy(cfg, p, g).revision == p.revision + 1
    ensures KeepsStatuses(GrownBy(cfg, p, g), p)
  {
  }

  lemma CascadeNamed(p: Plan, id: string)
    requires WellNamed(p)
    ensures WellNamed(CascadeWrite(p, id))
  {
    var q := CascadeWrite(p, id);
    forall t | t in q.tasks ensures t.id != "" {
      var i :| 0 <= i < |q.tasks| && q.tasks[i] == t;
      assert p.tasks[i] in p.tasks;
    }
  }

  /** A commit that only changes the plan before it leaves the names alone. */
  lemma StepNamed(cfg: Config, log: seq<Commit>, k: nat)
    requires History(cfg, log) && 1 <= k < |log| && !log[k].cause.ByInstall?
    requires log[k - 1].view.plan.Some? && WellNamed(PlanAt(log, k - 1))
    ensures log[k].view.plan.Some? && WellNamed(PlanAt(log, k))
  {
    NotSeed(cfg, log, k);
    var p := PlanAt(log, k - 1);
    match log[k].cause
    case ByGrowth(g) =>
      GrowthPlan(cfg, log, k, g);
      GrowthKeeps(cfg, p, g);
    case ByRuntime(id, status) =>
      RuntimePlan(cfg, log, k);
      TransitionKeepsStatuses(p, id, status);
    case ByCascade(id, seen) =>
      CascadePlan(cfg, log, k, id, seen);
      CascadeNamed(p, id);
  }

  lemma {:induction false} HistoryNamed(cfg: Config, log: seq<Commit>, k: nat)
    requires NamedHistory(cfg, log) && k < |log|
    ensures log[k].view.plan.Some? && WellNamed(PlanAt(log, k))
    decreases k
  {
    if k > 0 {
      if log[k].cause.ByInstall? {
        var job := log[k].cause.job;
        InstallSeen(cfg, log, k, job);
        HistoryNamed(cfg, log, job.pick.seen - 1);
        HistoryNamed(cfg, log, job.seen - 1);
        InstallNamed(cfg, log, k, job);
      } else {
        HistoryNamed(cfg, log, k - 1);
        StepNamed(cfg, log, k);
      }
    }
  }

  lemma CandidateNamed(cfg: Config, log: seq<Commit>, k: nat, job: Job, p: Plan)
    requires History(cfg, log) && 1 <= k < |log| && log[k].cause == ByInstall(job) && 1 <= job.pick.seen <= k
    requires log[job.pick.seen - 1].view.plan == Some(p) && WellNamed(p)
    ensures WellNamed(job.pick.plan) && KeepsStatuses(job.pick.plan, p)
  {
    InstallAccepted(cfg, log, k, job, p);
    AcceptedNamed(p, job.pick.proposal, job.pick.plan);
  }

  lemma InstallNamed(cfg: Config, log: seq<Commit>, k: nat, job: Job)
    requires History(cfg, log) && 1 <= k < |log| && log[k].cause == ByInstall(job)
    requires 1 <= job.pick.seen <= job.seen <= k
    requires log[job.pick.seen - 1].view.plan.Some? && WellNamed(PlanAt(log, job.pick.seen - 1))
    requires log[job.seen - 1].view.plan.Some? && WellNamed(PlanAt(log, job.seen - 1))
    ensures log[k].view.plan.Some? && WellNamed(PlanAt(log, k)) && WellNamed(job.pick.plan)
  {
    InstallPlan(cfg, log, k, job);
    CandidateNamed(cfg, log, k, job, PlanAt(log, job.pick.seen - 1));
    PreparedNamed(cfg.ledger, job.pick.plan, PlanAt(log, job.seen - 1), job.pick.drift);
  }

  // ----- the revision index

  /** An install raises the index exactly when the accepted plan carries a higher one itself, or the
      plan it was prepared against has not been overtaken since. */
  lemma IndexRisesIff(cfg: Config, log: seq<Commit>, k: nat, job: Job)
    requires History(cfg, log) && 1 <= k < |log| && log[k].cause == ByInstall(job)
    ensures 1 <= job.seen <= k && log[job.seen - 1].view.plan.Some?
    ensures log[k - 1].view.plan.Some? && log[k].view.plan.Some?
    ensures PlanAt(log, k).revision > PlanAt(log, k - 1).revision <==>
            || job.pick.plan.revision > PlanAt(log, k - 1).revision
            || PlanAt(log, job.seen - 1).revision >= PlanAt(log, k - 1).revision
  {
    InstallPlan(cfg, log, k, job);
    PlansPresent(cfg, log, k - 1);
  }

  /** No install and no growth was committed from `a` up to `k`. */
  ghost predicate NoSwap(log: seq<Commit>, a: nat, k: nat)
    requires a <= k <= |log|
  {
    forall j :: a <= j < k ==> log[j].cause.ByRuntime? || log[j].cause.ByCascade?
  }

  lemma {:induction false} IndexStands(cfg: Config, log: seq<Commit>, a: nat, k: nat)
    requires History(cfg, log) && 1 <= a <= k <= |log| && NoSwap(log, a, k)
    ensures log[a - 1].view.plan.Some? && log[k - 1].view.plan.Some?
    ensures PlanAt(log, k - 1).revision == PlanAt(log, a - 1).revision
    decreases k - a
  {
    PlansPresent(cfg, log, a - 1);
    PlansPresent(cfg, log, k - 1);
    if a < k {
      IndexStands(cfg, log, a, k - 1);
      if log[k - 1].cause.ByRuntime? {
        RuntimePlan(cfg, log, k - 1);
      } else {
        CascadePlan(cfg, log, k - 1, log[k - 1].cause.id, log[k - 1].cause.seen);
      }
    }
  }

  /** The index rises by one at a growth, stays at a transition and at a cancellation, and rises at an
      install whenever no other install or growth was committed since its revision was prepared. */
  lemma IndexRises(cfg: Config, log: seq<Commit>, k: nat)
    requires History(cfg, log) && 1 <= k < |log|
    ensures log[k - 1].view.plan.Some? && log[k].view.plan.Some?
    ensures var before, after := PlanAt(log, k - 1).revision, PlanAt(log, k).revision;
            match log[k].cause
            case Seed => true
            case ByInstall(job) => job.seen <= k && (NoSwap(log, job.seen, k) ==> after > before)
            case ByGrowth(_) => after == before + 1
            case ByRuntime(_, _) => after == before
            case ByCascade(_, _) => after == before
  {
    PlansPresent(cfg, log, k - 1);
    PlansPresent(cfg, log, k);
    match log[k].cause
    case Seed =>
    case ByInstall(job) =>
      IndexRisesIff(cfg, log, k, job);
      if NoSwap(log, job.seen, k) {
        IndexStands(cfg, log, job.seen, k);
      }
    case ByGrowth(g) =>
      GrowthPlan(cfg, log, k, g);
      GrowthKeeps(cfg, PlanAt(log, k - 1), g);
    case ByRuntime(id, status) =>
      RuntimePlan(cfg, log, k);
    case ByCascade(id, seen) =>
      CascadePlan(cfg, log, k, id, seen);
  }

  // ----- terminal statuses

  /** The status a task has once `f` is prepared against `p`, if `f` has the task. */
  ghost predicate SettlesAs(f: Plan, p: Plan, id: string, status: Status)
  {
    Lookup(f.tasks, id).Some? && SettledStatus(Lookup(f.tasks, id).value, p.tasks) == status
  }

  lemma FoldedStatus(f: Plan, p: Plan, id: string)
    ensures var g := Fold(f, Some(p));
            && (Lookup(g.tasks, id).Some? <==> Lookup(f.tasks, id).Some?)
            && (Lookup(g.tasks, id).Some? ==>
                  Lookup(g.tasks, id).value.status == SettledStatus(Lookup(f.tasks, id).value, p.tasks))
  {
    var i := SameIdLookup(f.tasks, Fold(f, Some(p)).tasks, id);
  }

  /** What comes back from the repair is open, so it carries no terminal status. */
  lemma RepairedStatus(ledger: bool, g: Plan, p: Plan, id: string, status: Status)
    requires WellNamed(g) && WellNamed(p) && Terminal(status)
    ensures HasStatus(LedgerRepair(ledger, g, Some(p)), id, status) <==> HasStatus(g, id, status)
  {
    if ledger && HasLedgerShape(p.tasks) {
      var m, back := LedgerTasks(g.tasks, p.tasks), Dropped(p.tasks, Ids(g.tasks));
      var i := SameIdLookup(g.tasks, m, id);
      if Lookup(g.tasks, id).Some? {
        assert id in Ids(g.tasks) && id !in Ids(back);
        LookupPrefix(m, back, id);
      } else if Lookup(m + back, id).Some? {
        SameIds(m, g.tasks);
        var t := Lookup(m + back, id).value;
        assert t in m ==> t.id in Ids(m);
      }
    }
  }

  lemma PreparedStatus(ledger: bool, f: Plan, p: Plan, d: Drift, id: string, status: Status)
    requires WellNamed(f) && WellNamed(p) && Terminal(status)
    ensures HasStatus(Integrated(Prepared(ledger, f, Some(p), d)), id, status) <==> SettlesAs(f, p, id, status)
  {
    var g := Fold(f, Some(p));
    forall t | t in g.tasks ensures t.id != "" {
      var i :| 0 <= i < |g.tasks| && g.tasks[i] == t;
      assert f.tasks[i] in f.tasks;
    }
    FoldedStatus(f, p, id);
    RepairedStatus(ledger, g, p, id, status);
    assert Integrated(Prepared(ledger, f, Some(p), d)).tasks == LedgerRepair(ledger, g, Some(p)).tasks;
  }

  lemma InstallAt(cfg: Config, log: seq<Commit>, k: nat, job: Job)
    requires NamedHistory(cfg, log) && 1 <= k < |log| && log[k].cause == ByInstall(job)
    ensures 1 <= job.pick.seen <= job.seen <= k
    ensures log[job.seen - 1].view.plan.Some? && WellNamed(PlanAt(log, job.seen - 1)) && WellNamed(job.pick.plan)
    ensures log[k - 1].view.plan.Some? && log[k].view.plan == Some(job.plan)
  {
    InstallPlan(cfg, log, k, job);
    HistoryNamed(cfg, log, job.pick.seen - 1);
    HistoryNamed(cfg, log, job.seen - 1);
    InstallNamed(cfg, log, k, job);
    PlansPresent(cfg, log, k - 1);
  }

  /** An install keeps every recorded terminal status exactly when each terminal task of the live plan
      is in the accepted plan with that status, or open there and recorded with that status in the plan
      the revision was prepared against. */
  lemma CompletionSurvivesIff(cfg: Config, log: seq<Commit>, k: nat, job: Job)
    requires NamedHistory(cfg, log) && 1 <= k < |log| && log[k].cause == ByInstall(job)
    ensures 1 <= job.seen <= k && log[job.seen - 1].view.plan.Some? && log[k - 1].view.plan.Some?
    ensures log[k].view.plan == Some(job.plan)
    ensures KeepsStatuses(job.plan, PlanAt(log, k - 1)) <==>
            forall t <- PlanAt(log, k - 1).tasks ::
              Terminal(t.status) ==> SettlesAs(job.pick.plan, PlanAt(log, job.seen - 1), t.id, t.status)
  {
    InstallAt(cfg, log, k, job);
    InstallPlan(cfg, log, k, job);
    var f, p := job.pick.plan, PlanAt(log, job.seen - 1);
    forall t: Task | Terminal(t.status)
      ensures HasStatus(job.plan, t.id, t.status) <==> SettlesAs(f, p, t.id, t.status)
    {
      PreparedStatus(cfg.ledger, f, p, job.pick.drift, t.id, t.status);
    }
  }

  lemma CascadeWrites(cfg: Config, log: seq<Commit>, k: nat, id: string, seen: nat, p: Plan, q: Plan)
    requires History(cfg, log) && 1 <= k < |log| && log[k].cause == ByCascade(id, seen)
    requires log[k - 1].view.plan == Some(p) && log[k].view.plan == Some(q)
    ensures Lookup(p.tasks, id).Some? && q == CascadeWrite(p, id)
  {
    assert Explained(cfg, log, k);
  }

  lemma CascadeStatusAt(cfg: Config, log: seq<Commit>, k: nat, id: string, seen: nat, p: Plan, q: Plan)
    requires NamedHistory(cfg, log) && 1 <= k < |log| && log[k].cause == ByCascade(id, seen)
    requires log[k - 1].view.plan == Some(p) && log[k].view.plan == Some(q)
    ensures KeepsStatuses(q, p) <==> OpenIn(p, id) || HasStatus(p, id, Cancelled)
  {
    HistoryNamed(cfg, log, k - 1);
    CascadeWrites(cfg, log, k, id, seen, p, q);
    CascadeStatus(p, id, q);
  }

  /** A cascade's write keeps every recorded terminal status exactly when its task has not become
      terminal otherwise since the snapshot, in which it was open. */
  lemma CascadeSurvivesIff(cfg: Config, log: seq<Commit>, k: nat, id: string, seen: nat)
    requires NamedHistory(cfg, log) && 1 <= k < |log| && log[k].cause == ByCascade(id, seen)
    ensures 1 <= seen <= k && log[seen - 1].view.plan.Some? && OpenIn(PlanAt(log, seen - 1), id)
    ensures log[k - 1].view.plan.Some? && log[k].view.plan.Some?
    ensures KeepsStatuses(PlanAt(log, k), PlanAt(log, k - 1)) <==>
            OpenIn(PlanAt(log, k - 1), id) || HasStatus(PlanAt(log, k - 1), id, Cancelled)
  {
    CascadePlan(cfg, log, k, id, seen);
    CascadeStatusAt(cfg, log, k, id, seen, PlanAt(log, k - 1), PlanAt(log, k));
  }

  lemma CascadeStatus(p: Plan, id: string, q: Plan)
    requires WellNamed(p) && Lookup(p.tasks, id).Some? && q == CascadeWrite(p, id)
    ensures KeepsStatuses(q, p) <==> OpenIn(p, id) || HasStatus(p, id, Cancelled)
  {
    CascadeKeepsIff(p, id);
    var t := Lookup(p.tasks, id).value;
    forall u | u in p.tasks && u.id == id ensures u == t {
      UniqueLookup(p.tasks, u);
    }
  }

  /** Nothing was committed since the install's candidate was accepted, or since the cascade's snapshot. */
  ghost predicate Prompt(log: seq<Commit>, k: nat)
    requires k < |log|
  {
    match log[k].cause
    case ByInstall(job) => job.pick.seen == k
    case ByCascade(_, seen) => seen == k
    case _ => true
  }

  lemma PreparedKeeps(ledger: bool, f: Plan, p: Plan, d: Drift, q: Plan)
    requires WellNamed(f) && WellNamed(p) && KeepsStatuses(f, p) && q == Integrated(Prepared(ledger, f, Some(p), d))
    ensures KeepsStatuses(q, p)
  {
    PreparedKeepsStatuses(ledger, f, p, d);
  }

  lemma PromptInstallKeeps(cfg: Config, log: seq<Commit>, k: nat, job: Job, p: Plan)
    requires History(cfg, log) && 1 <= k < |log| && log[k].cause == ByInstall(job) && job.pick.seen == k
    requires log[k - 1].view.plan == Some(p) && WellNamed(p)
    ensures log[k].view.plan == Some(job.plan) && KeepsStatuses(job.plan, p)
  {
    InstallSeen(cfg, log, k, job);
    InstallPrepared(cfg, log, k, job, p);
    CandidateNamed(cfg, log, k, job, p);
    PreparedKeeps(cfg.ledger, job.pick.plan, p, job.pick.drift, job.plan);
  }

  /** Growth and transitions keep every terminal status, and so do installs and cancellations that
      nothing came before. */
  lemma QuietStepsKeep(cfg: Config, log: seq<Commit>, k: nat)
    requires NamedHistory(cfg, log) && 1 <= k < |log| && Prompt(log, k)
    ensures log[k - 1].view.plan.Some? && log[k].view.plan.Some?
    ensures KeepsStatuses(PlanAt(log, k), PlanAt(log, k - 1))
  {
    NotSeed(cfg, log, k);
    HistoryNamed(cfg, log, k - 1);
    match log[k].cause
    case ByInstall(job) =>
      PromptInstallKeeps(cfg, log, k, job, PlanAt(log, k - 1));
    case ByGrowth(g) =>
      GrowthPlan(cfg, log, k, g);
      GrowthKeeps(cfg, PlanAt(log, k - 1), g);
    case ByRuntime(id, status) =>
      RuntimePlan(cfg, log, k);
      TransitionKeepsStatuses(PlanAt(log, k - 1), id, status);
    case ByCascade(id, seen) =>
      CascadeSurvivesIff(cfg, log, k, id, seen);
  }

  /** Every schedule from a well-named plan produces such a history. */
  lemma SchedulesAreHistories(cfg: Config, v: View, actions: seq<Action>)
    requires v.plan.Some? && WellNamed(v.plan.value)
    ensures NamedHistory(cfg, Exec(cfg, Start(v), actions).log)
  {
    StartInv(cfg, v);
    ExecInv(cfg, Start(v), actions);
    SeedStays(cfg, Start(v), actions);
  }

  lemma LogGrows(cfg: Config, s: Sys, a: Action, t: Sys)
    requires t == Do(cfg, s, a)
    ensures s.log <= t.log
  {
  }

  lemma {:induction false} SeedStays(cfg: Config, s: Sys, actions: seq<Action>)
    requires s.log != []
    ensures Exec(cfg, s, actions).log != [] && Exec(cfg, s, actions).log[0] == s.log[0]
    decreases |actions|
  {
    if actions != [] {
      LogGrows(cfg, s, actions[0], Do(cfg, s, actions[0]));
      SeedStays(cfg, Do(cfg, s, actions[0]), actions[1..]);
    }
  }
}
