/** Revisions under concurrency: a candidate is checked against the plan, prepared against the plan as
    it is a little later, and installed, field by field, inside the plan lock. The writes of a locked
    region have no suspension point between them; other work runs before the first and after the last
    of them. Growth holds the lock too; task transitions and cancellation cascades do not. */
module Protocol {
  import opened Options
  import opened Plans
  import opened Revisions
  import opened Corrections
  import opened Install
  import opened Steer
  import opened Runs
  import opened Cascade

  const KEY_CURRENT_TASK_TITLE := "goldfive.current_task_title"
  const KEY_CURRENT_TASK_REVISION := "goldfive.current_task_revision"

  /** What a revision starts from: a planner's candidate, or an operator's steer. */
  datatype Proposal = Refining(candidate: Plan) | Steering(llm: Option<Plan>, reason: string)

  /** A candidate that was accepted when `seen` commits had been made. */
  datatype Pick = Pick(proposal: Proposal, drift: Drift, plan: Plan, seen: nat)

  /** A prepared revision waiting for the lock. `prev` is the plan held for comparison, as of `held`
      commits; the revision was prepared against the plan as of `seen` commits. */
  datatype Job = Job(pick: Pick, prev: Plan, held: nat, plan: Plan, now: int, lands: bool, seen: nat)

  datatype Growth = Growth(id: string, title: string, agent: string, hash: string, drift: Drift)

  datatype Proc =
    | Idle
    | Picked(pick: Pick)
    | Checked(pick: Pick, prev: Plan, held: nat)
    | Ready(job: Job)
    | Holding(job: Job, stage: nat)
    | Growing(growth: Growth, grown: Plan, stage: nat)
    | Cascading(sweep: Sweep, seen: nat)

  datatype Cause =
    | Seed
    | ByInstall(job: Job)
    | ByGrowth(growth: Growth)
    | ByRuntime(id: string, status: Status)
    | ByCascade(id: string, seen: nat)

  /** A session value at which other work may look, and what produced it. */
  datatype Commit = Commit(view: View, cause: Cause)

  datatype Sys = Sys(view: View, holder: Option<nat>, procs: map<nat, Proc>, log: seq<Commit>)

  datatype Action =
    | Check(i: nat, proposal: Proposal, drift: Drift)
    | Hold(i: nat)
    | Prepare(i: nat, now: int)
    | Acquire(i: nat)
    | StartGrowth(i: nat, growth: Growth)
    | Advance(i: nat)
    | Release(i: nat)
    | Runtime(id: string, status: Status)
    | StartCascade(i: nat, id: string)
    | CascadeStep(i: nat)

  const LAST := 7
  const GROWN := 2

  function At(s: Sys, i: nat): (r: Proc)
  {
    if i in s.procs then s.procs[i] else Idle
  }

  /** No write of a locked region is under way. */
  predicate Quiet(s: Sys)
  {
    s.holder.Some? ==>
      match At(s, s.holder.value)
      case Holding(_, k) => k == LAST
      case Growing(_, _, k) => k == GROWN
      case _ => true
  }

  // ----- the single writes

  function LinksOf(job: Job): (r: map<string, string>)
  {
    Links(job.plan.tasks)
  }

  /** The state dictionary after the first `k` writes of the locked region. */
  function StateAt(state: State, job: Job, k: nat): (r: State)
  {
    var marked := state[KEY_CURRENT_PLAN_ID := Words(job.plan.id)];
    var cleared := ClearObsolete(marked, job.plan.tasks);
    var trigger := TriggerOf(job.plan, job.pick.drift, job.now);
    var queued := Queue(cleared, job.plan.tasks, job.plan.tasks, job.prev.tasks, trigger);
    if k < 3 then state
    else if k == 3 then marked
    else if k == 4 then cleared
    else if k < LAST then queued
    else RepinState(LinksOf(job), queued)
  }

  /** The session after the first `k` writes of an install. */
  function Partial(v: View, job: Job, k: nat): (r: View)
  {
    var key := (job.pick.drift.kind, job.pick.drift.task);
    View(if k >= 1 then Some(job.plan) else v.plan,
         if k >= 6 && v.pin != "" then Repinned(LinksOf(job), v.pin) else v.pin,
         if k >= 2 && !job.pick.drift.byUser then v.addressed[key := job.plan.revision] else v.addressed,
         StateAt(v.state, job, k))
  }

  /** One write of the locked region, as the code performs it on the live session. */
  function Write(v: View, job: Job, k: nat): (r: View)
  {
    var key, trigger := (job.pick.drift.kind, job.pick.drift.task), TriggerOf(job.plan, job.pick.drift, job.now);
    match k
    case 0 => v.(plan := Some(job.plan))
    case 1 => if job.pick.drift.byUser then v else v.(addressed := v.addressed[key := job.plan.revision])
    case 2 => v.(state := v.state[KEY_CURRENT_PLAN_ID := Words(job.plan.id)])
    case 3 => v.(state := ClearObsolete(v.state, job.plan.tasks))
    case 4 => v.(state := Queue(v.state, job.plan.tasks, job.plan.tasks, job.prev.tasks, trigger))
    case 5 => if v.pin != "" then v.(pin := Repinned(LinksOf(job), v.pin)) else v
    case 6 => v.(state := RepinState(LinksOf(job), v.state))
    case _ => v
  }

  function GrowthWrite(v: View, q: Plan, k: nat): (r: View)
  {
    match k
    case 0 => v.(plan := Some(q))
    case 1 => v.(state := v.state[KEY_CURRENT_PLAN_ID := Words(q.id)])
    case _ => v
  }

  function GrownView(v: View, q: Plan): (r: View)
  {
    v.(plan := Some(q), state := v.state[KEY_CURRENT_PLAN_ID := Words(q.id)])
  }

  // ----- runtime transitions

  /** The current-task entries follow a task that starts, and are cleared when it ends. */
  function Synced(state: State, t: Task, status: Status): (r: State)
  {
    if status.Running? then state[KEY_CURRENT_TASK_ID := Words(t.id)][KEY_CURRENT_TASK_TITLE := Words(t.title)]
    else if Terminal(status) && KEY_CURRENT_TASK_ID in state && state[KEY_CURRENT_TASK_ID] == Words(t.id)
    then state - {KEY_CURRENT_TASK_ID, KEY_CURRENT_TASK_TITLE, KEY_CURRENT_TASK_REVISION}
    else state
  }

  /** A runtime transition: status, pin and current-task entries of a task that is not yet terminal. */
  function RuntimeView(v: View, id: string, status: Status): (r: View)
    requires v.plan.Some?
    ensures r.plan == Some(Transitioned(v.plan.value, id, status))
  {
    var t := Lookup(v.plan.value.tasks, id);
    if t.None? || Terminal(t.value.status) then v
    else View(Some(Transitioned(v.plan.value, id, status)),
              if status.Running? then id else v.pin,
              v.addressed,
              Synced(v.state, t.value, status))
  }

  // ----- the scheduler

  /** The plan a proposal puts forward against `p`: the folded candidate when it validates and changes
      something, or what the steer path selects when that changes something. */
  ghost function Accepted(p: Plan, o: Proposal): (r: Option<Plan>)
  {
    match o
    case Refining(candidate) =>
      var f := Fold(candidate, Some(p));
      if !ValidRevision(f, Some(p)) || StructurallySame(p, f) then None else Some(f)
    case Steering(llm, reason) =>
      var c := Chosen(p, llm, reason);
      if StructurallySame(p, c) then None else Some(c)
  }

  /** Folding, repairing and stamping against the plan `p` of the moment. */
  function JobOn(cfg: Config, pick: Pick, prev: Plan, held: nat, p: Plan, seen: nat, now: int): (r: Job)
  {
    var q := Integrated(Prepared(cfg.ledger, pick.plan, Some(p), pick.drift));
    Job(pick, prev, held, q, now, Lands(cfg.active, Some(p), pick.drift), seen)
  }

  ghost function GrownBy(cfg: Config, p: Plan, g: Growth): (r: Plan)
  {
    Grown(cfg, p, g.id, g.title, g.agent, g.hash, g.drift)
  }

  /** One step of a cascade. It cancels by the snapshot it holds, without looking at the live status,
      and gives up when the task is no longer in the live plan. */
  function CascadeOn(s: Sys, i: nat): (r: Sys)
    requires At(s, i).Cascading? && s.view.plan.Some?
  {
    var Cascading(w, seen) := At(s, i);
    if w.queue == [] then s.(procs := s.procs[i := Idle])
    else if !Writes(w) then s.(procs := s.procs[i := Cascading(Pop(w), seen)])
    else if Lookup(s.view.plan.value.tasks, w.queue[0]).None? then s.(procs := s.procs[i := Idle])
    else
      var v := s.view.(plan := Some(CascadeWrite(s.view.plan.value, w.queue[0])));
      Sys(v, s.holder, s.procs[i := Cascading(Pop(w), seen)], s.log + [Commit(v, ByCascade(w.queue[0], seen))])
  }

  function Logged(log: seq<Commit>, done: bool, v: View, cause: Cause): (r: seq<Commit>)
  {
    if done then log + [Commit(v, cause)] else log
  }

  /** One scheduler step; an action that is not enabled changes nothing. */
  ghost function Do(cfg: Config, s: Sys, a: Action): (r: Sys)
  {
    match a
    case Check(i, o, d) =>
      if At(s, i).Idle? && Quiet(s) && s.view.plan.Some? && Accepted(s.view.plan.value, o).Some?
      then s.(procs := s.procs[i := Picked(Pick(o, d, Accepted(s.view.plan.value, o).value, |s.log|))])
      else s
    case Hold(i) =>
      if At(s, i).Picked? && Quiet(s) && s.view.plan.Some?
      then s.(procs := s.procs[i := Checked(At(s, i).pick, s.view.plan.value, |s.log|)])
      else s
    case Prepare(i, now) =>
      if At(s, i).Checked? && Quiet(s) && s.view.plan.Some?
      then
        var Checked(pick, prev, held) := At(s, i);
        s.(procs := s.procs[i := Ready(JobOn(cfg, pick, prev, held, s.view.plan.value, |s.log|, now))])
      else s
    case Acquire(i) =>
      if At(s, i).Ready? && s.holder.None?
      then
        var job := At(s, i).job;
        s.(holder := Some(i), procs := s.procs[i := Holding(job, if job.lands then 0 else LAST)])
      else s
    case StartGrowth(i, g) =>
      if At(s, i).Idle? && s.holder.None? && s.view.plan.Some? &&
          GrownBy(cfg, s.view.plan.value, g) != s.view.plan.value
      then s.(holder := Some(i), procs := s.procs[i := Growing(g, GrownBy(cfg, s.view.plan.value, g), 0)])
      else s
    case Advance(i) =>
      if At(s, i).Holding? && At(s, i).stage < LAST
      then
        var Holding(job, k) := At(s, i);
        var v := Write(s.view, job, k);
        Sys(v, s.holder, s.procs[i := Holding(job, k + 1)], Logged(s.log, k + 1 == LAST, v, ByInstall(job)))
      else if At(s, i).Growing? && At(s, i).stage < GROWN
      then
        var Growing(g, q, k) := At(s, i);
        var v := GrowthWrite(s.view, q, k);
        Sys(v, s.holder, s.procs[i := Growing(g, q, k + 1)], Logged(s.log, k + 1 == GROWN, v, ByGrowth(g)))
      else s
    case Release(i) =>
      if (At(s, i).Holding? && At(s, i).stage == LAST) || (At(s, i).Growing? && At(s, i).stage == GROWN)
      then s.(holder := None, procs := s.procs[i := Idle])
      else s
    case Runtime(id, status) =>
      if Quiet(s) && s.view.plan.Some?
      then
        var v := RuntimeView(s.view, id, status);
        s.(view := v, log := s.log + [Commit(v, ByRuntime(id, status))])
      else s
    case StartCascade(i, id) =>
      if At(s, i).Idle? && Quiet(s) && s.view.plan.Some?
      then s.(procs := s.procs[i := Cascading(Begin(s.view.plan.value, id), |s.log|)])
      else s
    case CascadeStep(i) =>
      if At(s, i).Cascading? && Quiet(s) && s.view.plan.Some? then CascadeOn(s, i) else s
  }

  ghost function Exec(cfg: Config, s: Sys, actions: seq<Action>): (r: Sys)
    decreases |actions|
  {
    if actions == [] then s else Exec(cfg, Do(cfg, s, actions[0]), actions[1..])
  }

  function Start(v: View): (r: Sys)
  {
    Sys(v, None, map[], [Commit(v, Seed)])
  }

  // ----- what every schedule keeps

  /** `p` was the committed plan when `n` commits had been made. */
  ghost predicate PlanThen(log: seq<Commit>, n: nat, p: Plan)
  {
    1 <= n <= |log| && log[n - 1].view.plan == Some(p)
  }

  /** The candidate was accepted against the plan committed last at that time. */
  ghost predicate PickOk(log: seq<Commit>, pick: Pick)
  {
    exists p :: PlanThen(log, pick.seen, p) && Accepted(p, pick.proposal) == Some(pick.plan)
  }

  /** The revision was prepared against the plan committed last at that time, after it was accepted
      and after the plan for comparison was taken. */
  ghost predicate JobOk(cfg: Config, log: seq<Commit>, job: Job)
  {
    && PickOk(log, job.pick)
    && PlanThen(log, job.held, job.prev)
    && job.pick.seen <= job.held <= job.seen
    && exists p :: PlanThen(log, job.seen, p) && job == JobOn(cfg, job.pick, job.prev, job.held, p, job.seen, job.now)
  }

  /** The task was open when `n` commits had been made. */
  ghost predicate OpenThen(log: seq<Commit>, n: nat, id: string)
  {
    exists p :: PlanThen(log, n, p) && OpenIn(p, id)
  }

  /** How a committed value comes from the one before it. */
  ghost predicate Explained(cfg: Config, log: seq<Commit>, k: nat)
    requires 1 <= k < |log|
  {
    var v, c := log[k - 1].view, log[k];
    && v.plan.Some?
    && match c.cause
       case Seed => false
       case ByInstall(job) =>
         && JobOk(cfg, log[..k], job) && job.lands
         && c.view == Installed(v, job.plan, Some(job.prev), job.pick.drift, job.now)
       case ByGrowth(g) =>
         GrownBy(cfg, v.plan.value, g) != v.plan.value && c.view == GrownView(v, GrownBy(cfg, v.plan.value, g))
       case ByRuntime(id, status) =>
         c.view == RuntimeView(v, id, status)
       case ByCascade(id, seen) =>
         && OpenThen(log[..k], seen, id)
         && Lookup(v.plan.value.tasks, id).Some?
         && c.view == v.(plan := Some(CascadeWrite(v.plan.value, id)))
  }

  ghost predicate History(cfg: Config, log: seq<Commit>)
  {
    && log != []
    && (forall k :: 0 <= k < |log| ==> log[k].view.plan.Some?)
    && forall k {:trigger Explained(cfg, log, k)} :: 1 <= k < |log| ==> Explained(cfg, log, k)
  }

  function LastView(log: seq<Commit>): (r: View)
    requires log != []
  {
    log[|log| - 1].view
  }

  ghost predicate ProcOk(cfg: Config, s: Sys, i: nat)
    requires s.log != [] && LastView(s.log).plan.Some?
  {
    var v := LastView(s.log);
    match At(s, i)
    case Idle => true
    case Picked(pick) => PickOk(s.log, pick)
    case Checked(pick, prev, held) => PickOk(s.log, pick) && pick.seen <= held && PlanThen(s.log, held, prev)
    case Ready(job) => JobOk(cfg, s.log, job)
    case Cascading(w, seen) => PlanThen(s.log, seen, w.snapshot)
    case Holding(job, k) =>
      s.holder == Some(i) && k <= LAST && (k < LAST ==>
          job.lands && JobOk(cfg, s.log, job) && s.view == Partial(v, job, k))
    case Growing(g, q, k) =>
      && s.holder == Some(i) && k <= GROWN
      && (k < GROWN ==>
            && q == GrownBy(cfg, v.plan.value, g) && q != v.plan.value
            && s.view == if k == 0 then v else v.(plan := Some(q)))
  }

  ghost predicate Inv(cfg: Config, s: Sys)
  {
    && History(cfg, s.log)
    && (Quiet(s) ==> s.view == LastView(s.log))
    && (s.holder.Some? ==> At(s, s.holder.value).Holding? || At(s, s.holder.value).Growing?)
    && forall i: nat :: ProcOk(cfg, s, i)
  }

  lemma PartialStep(v: View, job: Job, k: nat)
    requires k < LAST
    ensures Write(Partial(v, job, k), job, k) == Partial(v, job, k + 1)
  {
  }

  lemma PartialEnds(v: View, job: Job)
    ensures Partial(v, job, 0) == v
    ensures Partial(v, job, LAST) == Installed(v, job.plan, Some(job.prev), job.pick.drift, job.now)
  {
  }

  lemma StartInv(cfg: Config, v: View)
    requires v.plan.Some?
    ensures Inv(cfg, Start(v))
  {
  }

  lemma ThenStays(log: seq<Commit>, c: Commit, n: nat, p: Plan)
    requires PlanThen(log, n, p)
    ensures PlanThen(log + [c], n, p)
  {
    assert (log + [c])[n - 1] == log[n - 1];
  }

  lemma PickStays(log: seq<Commit>, c: Commit, pick: Pick)
    requires PickOk(log, pick)
    ensures PickOk(log + [c], pick)
  {
    var p :| PlanThen(log, pick.seen, p) && Accepted(p, pick.proposal) == Some(pick.plan);
    ThenStays(log, c, pick.seen, p);
  }

  lemma JobStays(cfg: Config, log: seq<Commit>, c: Commit, job: Job)
    requires JobOk(cfg, log, job)
    ensures JobOk(cfg, log + [c], job)
  {
    PickStays(log, c, job.pick);
    ThenStays(log, c, job.held, job.prev);
    var p :| PlanThen(log, job.seen, p) && job == JobOn(cfg, job.pick, job.prev, job.held, p, job.seen, job.now);
    ThenStays(log, c, job.seen, p);
  }

  lemma HistoryExtends(cfg: Config, log: seq<Commit>, c: Commit)
    requires History(cfg, log) && c.view.plan.Some? && Explained(cfg, log + [c], |log|)
    ensures History(cfg, log + [c])
  {
    var l := log + [c];
    forall k | 1 <= k < |l| ensures Explained(cfg, l, k) {
      if k < |log| {
        assert Explained(cfg, log, k);
        assert l[..k] == log[..k];
      }
    }
  }

  /** A process that the step did not touch stays consistent when nothing was committed. */
  lemma OthersOk(cfg: Config, s: Sys, t: Sys, j: nat)
    requires s.log != [] && LastView(s.log).plan.Some? && ProcOk(cfg, s, j) && At(t, j) == At(s, j) && t.log == s.log
    requires s.holder != Some(j)
    ensures ProcOk(cfg, t, j)
  {
  }

  lemma OthersOkLogged(cfg: Config, s: Sys, t: Sys, c: Commit, j: nat)
    requires s.log != [] && LastView(s.log).plan.Some? && c.view.plan.Some?
    requires ProcOk(cfg, s, j) && At(t, j) == At(s, j) && t.log == s.log + [c] && s.holder != Some(j)
    ensures ProcOk(cfg, t, j)
  {
    match At(s, j)
    case Picked(pick) => PickStays(s.log, c, pick);
    case Checked(pick, prev, held) =>
      PickStays(s.log, c, pick);
      ThenStays(s.log, c, held, prev);
    case Ready(job) => JobStays(cfg, s.log, c, job);
    case Cascading(w, seen) => ThenStays(s.log, c, seen, w.snapshot);
    case _ =>
  }

  /** A process outside the lock takes its next place outside the lock. */
  lemma Moves(cfg: Config, s: Sys, i: nat, next: Proc)
    requires Inv(cfg, s) && !At(s, i).Holding? && !At(s, i).Growing? && !next.Holding? && !next.Growing?
    requires ProcOk(cfg, s.(procs := s.procs[i := next]), i)
    ensures Inv(cfg, s.(procs := s.procs[i := next]))
  {
    var t := s.(procs := s.procs[i := next]);
    assert s.holder != Some(i);
    assert Quiet(t) <==> Quiet(s);
    forall j: nat ensures ProcOk(cfg, t, j) {
      assert ProcOk(cfg, s, j);
    }
  }

  lemma NowPlan(cfg: Config, s: Sys)
    requires Inv(cfg, s) && Quiet(s)
    ensures s.view.plan.Some? && PlanThen(s.log, |s.log|, s.view.plan.value)
  {
  }

  lemma CheckInv(cfg: Config, s: Sys, i: nat, o: Proposal, d: Drift)
    requires Inv(cfg, s)
    ensures Inv(cfg, Do(cfg, s, Check(i, o, d)))
  {
    if At(s, i).Idle? && Quiet(s) {
      NowPlan(cfg, s);
      if f :| Accepted(s.view.plan.value, o) == Some(f) {
        var pick := Pick(o, d, f, |s.log|);
        assert PickOk(s.log, pick);
        Moves(cfg, s, i, Picked(pick));
      }
    }
  }

  lemma HoldInv(cfg: Config, s: Sys, i: nat)
    requires Inv(cfg, s)
    ensures Inv(cfg, Do(cfg, s, Hold(i)))
  {
    if At(s, i).Picked? && Quiet(s) {
      NowPlan(cfg, s);
      assert ProcOk(cfg, s, i);
      Moves(cfg, s, i, Checked(At(s, i).pick, s.view.plan.value, |s.log|));
    }
  }

  lemma PrepareInv(cfg: Config, s: Sys, i: nat, now: int)
    requires Inv(cfg, s)
    ensures Inv(cfg, Do(cfg, s, Prepare(i, now)))
  {
    if At(s, i).Checked? && Quiet(s) {
      NowPlan(cfg, s);
      assert ProcOk(cfg, s, i);
      var Checked(pick, prev, held) := At(s, i);
      PreparedOk(cfg, s.log, pick, prev, held, s.view.plan.value, now);
      Moves(cfg, s, i, Ready(JobOn(cfg, pick, prev, held, s.view.plan.value, |s.log|, now)));
    }
  }

  lemma PreparedOk(cfg: Config, log: seq<Commit>, pick: Pick, prev: Plan, held: nat, p: Plan, now: int)
    requires PickOk(log, pick) && pick.seen <= held && PlanThen(log, held, prev) && PlanThen(log, |log|, p)
    ensures JobOk(cfg, log, JobOn(cfg, pick, prev, held, p, |log|, now))
  {
    var job := JobOn(cfg, pick, prev, held, p, |log|, now);
    assert PlanThen(log, job.seen, p) && job == JobOn(cfg, job.pick, job.prev, job.held, p, job.seen, job.now);
  }

  lemma AcquireInv(cfg: Config, s: Sys, i: nat)
    requires Inv(cfg, s)
    ensures Inv(cfg, Do(cfg, s, Acquire(i)))
  {
    var t := Do(cfg, s, Acquire(i));
    if t != s {
      assert ProcOk(cfg, s, i);
      PartialEnds(LastView(s.log), At(s, i).job);
      forall j: nat ensures ProcOk(cfg, t, j) {
        assert ProcOk(cfg, s, j);
        if j != i {
          OthersOk(cfg, s, t, j);
        }
      }
    }
  }

  lemma StartGrowthInv(cfg: Config, s: Sys, i: nat, g: Growth)
    requires Inv(cfg, s)
    ensures Inv(cfg, Do(cfg, s, StartGrowth(i, g)))
  {
    var t := Do(cfg, s, StartGrowth(i, g));
    if t != s {
      forall j: nat ensures ProcOk(cfg, t, j) {
        assert ProcOk(cfg, s, j);
        if j != i {
          OthersOk(cfg, s, t, j);
        }
      }
    }
  }

  lemma InstallExplained(cfg: Config, log: seq<Commit>, job: Job, c: Commit)
    requires History(cfg, log) && JobOk(cfg, log, job) && job.lands
    requires c == Commit(Partial(LastView(log), job, LAST), ByInstall(job))
    ensures History(cfg, log + [c])
  {
    PartialEnds(LastView(log), job);
    assert (log + [c])[..|log|] == log;
    HistoryExtends(cfg, log, c);
  }

  /** A write inside the lock that is not the last one. */
  lemma OpenWriteInv(cfg: Config, s: Sys, t: Sys, i: nat)
    requires Inv(cfg, s) && s.holder == Some(i) && t.holder == s.holder && t.log == s.log && !Quiet(t)
    requires (At(t, i).Holding? || At(t, i).Growing?) && ProcOk(cfg, t, i)
    requires forall j: nat :: j != i ==> At(t, j) == At(s, j)
    ensures Inv(cfg, t)
  {
    forall j: nat ensures ProcOk(cfg, t, j) {
      assert ProcOk(cfg, s, j);
      if j != i {
        OthersOk(cfg, s, t, j);
      }
    }
  }

  /** A write that commits, by the holder of the lock or outside it while no locked write is under way. */
  lemma CommitInv(cfg: Config, s: Sys, t: Sys, c: Commit, i: nat)
    requires Inv(cfg, s) && t.log == s.log + [c] && History(cfg, t.log) && t.view == c.view && t.holder == s.holder
    requires ProcOk(cfg, t, i) && forall j: nat :: j != i ==> At(t, j) == At(s, j)
    requires if s.holder == Some(i) then At(t, i).Holding? || At(t, i).Growing? else Quiet(s)
    ensures Inv(cfg, t)
  {
    forall j: nat ensures ProcOk(cfg, t, j) {
      assert ProcOk(cfg, s, j);
      if j != i && s.holder != Some(j) {
        OthersOkLogged(cfg, s, t, c, j);
      }
    }
  }

  lemma Advanced(cfg: Config, s: Sys, i: nat, v: View)
    requires At(s, i).Holding? && At(s, i).stage < LAST && s.view == Partial(v, At(s, i).job, At(s, i).stage)
    ensures var Holding(job, k) := At(s, i);
            var w := Partial(v, job, k + 1);
            Do(cfg, s, Advance(i)) ==
              Sys(w, s.holder, s.procs[i := Holding(job, k + 1)], Logged(s.log, k + 1 == LAST, w, ByInstall(job)))
  {
    PartialStep(v, At(s, i).job, At(s, i).stage);
  }

  lemma MidWriteTo(cfg: Config, s: Sys, t: Sys, i: nat, job: Job, k: nat)
    requires Inv(cfg, s) && At(s, i) == Holding(job, k) && k + 1 < LAST
    requires t == Sys(Partial(LastView(s.log), job, k + 1), s.holder, s.procs[i := Holding(job, k + 1)], s.log)
    ensures Inv(cfg, t)
  {
    assert ProcOk(cfg, s, i);
    OpenWriteInv(cfg, s, t, i);
  }

  lemma LastWriteTo(cfg: Config, s: Sys, t: Sys, i: nat, job: Job, c: Commit)
    requires Inv(cfg, s) && At(s, i).Holding? && At(s, i).job == job && At(s, i).stage < LAST
    requires c == Commit(Partial(LastView(s.log), job, LAST), ByInstall(job))
    requires t == Sys(c.view, s.holder, s.procs[i := Holding(job, LAST)], s.log + [c])
    ensures Inv(cfg, t)
  {
    assert ProcOk(cfg, s, i);
    InstallExplained(cfg, s.log, job, c);
    CommitInv(cfg, s, t, c, i);
  }

  lemma InstallWriteTo(cfg: Config, s: Sys, t: Sys, i: nat, job: Job, k: nat, w: View)
    requires Inv(cfg, s) && At(s, i) == Holding(job, k) && k < LAST && w == Partial(LastView(s.log), job, k + 1)
    requires t ==
      Sys(w, s.holder, s.procs[i := Holding(job, k + 1)], Logged(s.log, k + 1 == LAST, w, ByInstall(job)))
    ensures Inv(cfg, t)
  {
    if k + 1 == LAST {
      LastWriteTo(cfg, s, t, i, job, Commit(w, ByInstall(job)));
    } else {
      MidWriteTo(cfg, s, t, i, job, k);
    }
  }

  lemma HolderView(cfg: Config, s: Sys, i: nat)
    requires Inv(cfg, s) && At(s, i).Holding? && At(s, i).stage < LAST
    ensures s.view == Partial(LastView(s.log), At(s, i).job, At(s, i).stage)
  {
    assert ProcOk(cfg, s, i);
  }

  lemma InstallWriteInv(cfg: Config, s: Sys, i: nat, t: Sys)
    requires Inv(cfg, s) && At(s, i).Holding? && At(s, i).stage < LAST && t == Do(cfg, s, Advance(i))
    ensures Inv(cfg, t)
  {
    var v, job, k := LastView(s.log), At(s, i).job, At(s, i).stage;
    HolderView(cfg, s, i);
    Advanced(cfg, s, i, v);
    InstallWriteTo(cfg, s, t, i, job, k, Partial(v, job, k + 1));
  }

  lemma GrowthExplained(cfg: Config, log: seq<Commit>, g: Growth, c: Commit)
    requires History(cfg, log) && GrownBy(cfg, LastView(log).plan.value, g) != LastView(log).plan.value
    requires c == Commit(GrownView(LastView(log), GrownBy(cfg, LastView(log).plan.value, g)), ByGrowth(g))
    ensures History(cfg, log + [c])
  {
    assert (log + [c])[..|log|] == log;
    HistoryExtends(cfg, log, c);
  }

  lemma GrowthWriteInv(cfg: Config, s: Sys, i: nat)
    requires Inv(cfg, s) && At(s, i).Growing? && At(s, i).stage < GROWN
    ensures Inv(cfg, Do(cfg, s, Advance(i)))
  {
    var t, g := Do(cfg, s, Advance(i)), At(s, i).growth;
    assert ProcOk(cfg, s, i);
    if At(s, i).stage + 1 == GROWN {
      var c := Commit(t.view, ByGrowth(g));
      GrowthExplained(cfg, s.log, g, c);
      CommitInv(cfg, s, t, c, i);
    } else {
      OpenWriteInv(cfg, s, t, i);
    }
  }

  lemma ReleaseInv(cfg: Config, s: Sys, i: nat)
    requires Inv(cfg, s)
    ensures Inv(cfg, Do(cfg, s, Release(i)))
  {
    var t := Do(cfg, s, Release(i));
    if t != s {
      assert ProcOk(cfg, s, i);
      assert Quiet(s);
      forall j: nat ensures ProcOk(cfg, t, j) {
        assert ProcOk(cfg, s, j);
        if j != i {
          OthersOk(cfg, s, t, j);
        }
      }
    }
  }

  lemma RuntimeExplained(cfg: Config, log: seq<Commit>, id: string, status: Status, c: Commit)
    requires History(cfg, log) && c == Commit(RuntimeView(LastView(log), id, status), ByRuntime(id, status))
    ensures History(cfg, log + [c])
  {
    HistoryExtends(cfg, log, c);
  }

  lemma RuntimeInv(cfg: Config, s: Sys, id: string, status: Status)
    requires Inv(cfg, s)
    ensures Inv(cfg, Do(cfg, s, Runtime(id, status)))
  {
    var t := Do(cfg, s, Runtime(id, status));
    if Quiet(s) && s.view.plan.Some? {
      var c := Commit(t.view, ByRuntime(id, status));
      RuntimeExplained(cfg, s.log, id, status, c);
      forall j: nat ensures ProcOk(cfg, t, j) {
        assert ProcOk(cfg, s, j);
        if s.holder != Some(j) {
          OthersOkLogged(cfg, s, t, c, j);
        }
      }
    }
  }

  lemma StartCascadeInv(cfg: Config, s: Sys, i: nat, id: string)
    requires Inv(cfg, s)
    ensures Inv(cfg, Do(cfg, s, StartCascade(i, id)))
  {
    if At(s, i).Idle? && Quiet(s) {
      NowPlan(cfg, s);
      Moves(cfg, s, i, Cascading(Begin(s.view.plan.value, id), |s.log|));
    }
  }

  lemma CascadeStepInv(cfg: Config, s: Sys, i: nat)
    requires Inv(cfg, s)
    ensures Inv(cfg, Do(cfg, s, CascadeStep(i)))
  {
    if At(s, i).Cascading? && Quiet(s) {
      NowPlan(cfg, s);
      assert ProcOk(cfg, s, i);
      var Cascading(w, seen) := At(s, i);
      if w.queue != [] && !Writes(w) {
        Moves(cfg, s, i, Cascading(Pop(w), seen));
      } else if w.queue == [] || Lookup(s.view.plan.value.tasks, w.queue[0]).None? {
        Moves(cfg, s, i, Idle);
      } else {
        CascadeWriteInv(cfg, s, i);
      }
    }
  }

  lemma CascadeExplained(cfg: Config, log: seq<Commit>, w: Sweep, seen: nat, c: Commit)
    requires History(cfg, log) && PlanThen(log, seen, w.snapshot) && Writes(w)
    requires Lookup(LastView(log).plan.value.tasks, w.queue[0]).Some?
    requires c.cause == ByCascade(w.queue[0], seen)
    requires c.view == LastView(log).(plan := Some(CascadeWrite(LastView(log).plan.value, w.queue[0])))
    ensures History(cfg, log + [c])
  {
    assert (log + [c])[..|log|] == log;
    assert OpenThen(log, seen, w.queue[0]);
    HistoryExtends(cfg, log, c);
  }

  lemma CascadeWriteInv(cfg: Config, s: Sys, i: nat)
    requires Inv(cfg, s) && Quiet(s) && At(s, i).Cascading? && Writes(At(s, i).sweep) && s.view.plan.Some?
    requires Lookup(s.view.plan.value.tasks, At(s, i).sweep.queue[0]).Some?
    ensures Inv(cfg, CascadeOn(s, i))
  {
    var t := CascadeOn(s, i);
    var Cascading(w, seen) := At(s, i);
    var c := t.log[|s.log|];
    assert ProcOk(cfg, s, i) && s.holder != Some(i);
    CascadeExplained(cfg, s.log, w, seen, c);
    ThenStays(s.log, c, seen, w.snapshot);
    CommitInv(cfg, s, t, c, i);
  }

  lemma DoInv(cfg: Config, s: Sys, a: Action)
    requires Inv(cfg, s)
    ensures Inv(cfg, Do(cfg, s, a))
  {
    match a
    case Check(i, o, d) => CheckInv(cfg, s, i, o, d);
    case Hold(i) => HoldInv(cfg, s, i);
    case Prepare(i, now) => PrepareInv(cfg, s, i, now);
    case Acquire(i) => AcquireInv(cfg, s, i);
    case StartGrowth(i, g) => StartGrowthInv(cfg, s, i, g);
    case Advance(i) =>
      if At(s, i).Holding? && At(s, i).stage < LAST {
        InstallWriteInv(cfg, s, i, Do(cfg, s, a));
      } else if At(s, i).Growing? && At(s, i).stage < GROWN {
        GrowthWriteInv(cfg, s, i);
      }
    case Release(i) => ReleaseInv(cfg, s, i);
    case Runtime(id, status) => RuntimeInv(cfg, s, id, status);
    case StartCascade(i, id) => StartCascadeInv(cfg, s, i, id);
    case CascadeStep(i) => CascadeStepInv(cfg, s, i);
  }

  lemma {:induction false} ExecInv(cfg: Config, s: Sys, actions: seq<Action>)
    requires Inv(cfg, s)
    ensures Inv(cfg, Exec(cfg, s, actions))
    decreases |actions|
  {
    if actions != [] {
      DoInv(cfg, s, actions[0]);
      ExecInv(cfg, Do(cfg, s, actions[0]), actions[1..]);
    }
  }

  /** Under every schedule, work that runs between the locked writes sees the last committed value,
      and each committed value is a whole install of a revision accepted and prepared against earlier
      ones, a whole growth of the one before, a task transition of it, or a cancellation in it that a
      cascade decided on an earlier one. */
  lemma ReadersSeeWholeRevisions(cfg: Config, v: View, actions: seq<Action>)
    requires v.plan.Some?
    ensures var s := Exec(cfg, Start(v), actions);
            && s.log != []
            && (s.holder.None? ==> Quiet(s))
            && (Quiet(s) ==> s.view == LastView(s.log))
            && forall k :: 1 <= k < |s.log| ==> Explained(cfg, s.log, k)
  {
    StartInv(cfg, v);
    ExecInv(cfg, Start(v), actions);
  }
}
