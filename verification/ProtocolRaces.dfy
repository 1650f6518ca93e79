/** Schedules that show why the conditions of the protocol laws are needed. */
module ProtocolRaces {
  import opened Options
  import opened Text
  import opened Graph
  import opened Plans
  import opened Revisions
  import opened Install
  import opened Steer
  import opened Runs
  import opened Validator
  import opened Cascade
  import opened Protocol
  import opened ProtocolLaws

  /** Everything process `i` does from acquiring the lock to releasing it. */
  function Section(i: nat): (r: seq<Action>)
  {
    [Acquire(i)] + (Repeat(Advance(i), LAST) + [Release(i)])
  }

  function Repeat(a: Action, n: nat): (r: seq<Action>)
  {
    if n == 0 then [] else [a] + Repeat(a, n - 1)
  }

  lemma {:induction false} ExecConcat(cfg: Config, s: Sys, a: seq<Action>, b: seq<Action>)
    ensures Exec(cfg, s, a + b) == Exec(cfg, Exec(cfg, s, a), b)
    decreases |a|
  {
    if a == [] {
      assert a + b == b;
    } else {
      assert (a + b)[1..] == a[1..] + b;
      ExecConcat(cfg, Do(cfg, s, a[0]), a[1..], b);
    }
  }

  lemma ExecOne(cfg: Config, s: Sys, a: Action, rest: seq<Action>)
    ensures Exec(cfg, s, [a] + rest) == Exec(cfg, Do(cfg, s, a), rest)
  {
    assert ([a] + rest)[1..] == rest;
  }

  /** The writes of a landing install, from stage `k` to the end, and the commit. */
  lemma {:induction false} FinishWrites(cfg: Config, s: Sys, v: View, i: nat, job: Job, k: nat)
    requires k < LAST && At(s, i) == Holding(job, k) && s.view == Partial(v, job, k)
    ensures var w := Partial(v, job, LAST);
            Exec(cfg, s, Repeat(Advance(i), LAST - k)) ==
              Sys(w, s.holder, s.procs[i := Holding(job, LAST)], s.log + [Commit(w, ByInstall(job))])
    decreases LAST - k
  {
    var t, rest := Do(cfg, s, Advance(i)), Repeat(Advance(i), LAST - k - 1);
    PartialStep(v, job, k);
    ExecOne(cfg, s, Advance(i), rest);
    if k + 1 < LAST {
      FinishWrites(cfg, t, v, i, job, k + 1);
      assert t.procs[i := Holding(job, LAST)] == s.procs[i := Holding(job, LAST)];
    } else {
      assert rest == [];
    }
  }

  /** A whole critical section, run through its single writes, is one atomic install. */
  lemma SectionInstalls(cfg: Config, s: Sys, i: nat, job: Job)
    requires s.holder.None? && At(s, i) == Ready(job) && job.lands
    ensures var w := Installed(s.view, job.plan, Some(job.prev), job.pick.drift, job.now);
            Exec(cfg, s, Section(i)) == Sys(w, None, s.procs[i := Idle], s.log + [Commit(w, ByInstall(job))])
  {
    var w := Installed(s.view, job.plan, Some(job.prev), job.pick.drift, job.now);
    var s1 := Do(cfg, s, Acquire(i));
    PartialEnds(s.view, job);
    FinishWrites(cfg, s1, s.view, i, job, 0);
    var writes, r := Repeat(Advance(i), LAST), [Release(i)];
    var s2 := Exec(cfg, s1, writes);
    ExecOne(cfg, s, Acquire(i), writes + r);
    ExecConcat(cfg, s1, writes, r);
    ExecOne(cfg, s2, Release(i), []);
    assert r == [Release(i)] + [];
    assert s2.procs[i := Idle] == s.procs[i := Idle];
  }

  /** The part of a section's outcome that the examples look at. */
  lemma SectionCommits(cfg: Config, s: Sys, i: nat, job: Job, w: seq<Action>) returns (c: Commit)
    requires s.holder.None? && At(s, i) == Ready(job) && job.lands && w == Section(i)
    ensures Exec(cfg, s, w) == Sys(c.view, None, s.procs[i := Idle], s.log + [c])
    ensures c.cause == ByInstall(job) && c.view.plan == Some(job.plan)
  {
    SectionInstalls(cfg, s, i, job);
    c := Commit(Installed(s.view, job.plan, Some(job.prev), job.pick.drift, job.now), ByInstall(job));
  }

  /** Everything process `i` does from looking at a proposal to waiting for the lock. */
  function Preparation(i: nat, o: Proposal, d: Drift, now: int): (r: seq<Action>)
  {
    [Check(i, o, d)] + ([Hold(i)] + ([Prepare(i, now)] + []))
  }

  /** The revision that results when nothing is committed meanwhile. */
  ghost predicate PromptJob(cfg: Config, p: Plan, n: nat, o: Proposal, d: Drift, now: int, job: Job)
  {
    Accepted(p, o).Some? && job == JobOn(cfg, Pick(o, d, Accepted(p, o).value, n), p, n, p, n, now)
  }

  lemma Checks(cfg: Config, s: Sys, i: nat, o: Proposal, d: Drift, pick: Pick, t: Sys)
    requires At(s, i).Idle? && s.holder.None? && s.view.plan.Some? && Accepted(s.view.plan.value, o).Some?
    requires pick == Pick(o, d, Accepted(s.view.plan.value, o).value, |s.log|)
    requires t == s.(procs := s.procs[i := Picked(pick)])
    ensures Do(cfg, s, Check(i, o, d)) == t
  {
  }

  lemma Holds(cfg: Config, s: Sys, i: nat, pick: Pick, t: Sys)
    requires At(s, i) == Picked(pick) && s.holder.None? && s.view.plan.Some?
    requires t == s.(procs := s.procs[i := Checked(pick, s.view.plan.value, |s.log|)])
    ensures Do(cfg, s, Hold(i)) == t
  {
  }

  lemma Readies(cfg: Config, s: Sys, i: nat, pick: Pick, p: Plan, now: int, job: Job, t: Sys)
    requires At(s, i) == Checked(pick, p, |s.log|) && s.holder.None? && s.view.plan == Some(p)
    requires job == JobOn(cfg, pick, p, |s.log|, p, |s.log|, now) && t == s.(procs := s.procs[i := Ready(job)])
    ensures Do(cfg, s, Prepare(i, now)) == t
  {
  }

  lemma Prepares(cfg: Config, s: Sys, i: nat, o: Proposal, d: Drift, now: int, job: Job)
    requires At(s, i).Idle? && s.holder.None? && s.view.plan.Some?
    requires PromptJob(cfg, s.view.plan.value, |s.log|, o, d, now, job)
    ensures Exec(cfg, s, Preparation(i, o, d, now)) == s.(procs := s.procs[i := Ready(job)])
  {
    var p, n := s.view.plan.value, |s.log|;
    var s1 := s.(procs := s.procs[i := Picked(job.pick)]);
    var s2 := s.(procs := s.procs[i := Checked(job.pick, p, n)]);
    var s3 := s.(procs := s.procs[i := Ready(job)]);
    assert s1.procs[i := Checked(job.pick, p, n)] == s2.procs && s2.procs[i := Ready(job)] == s3.procs;
    Checks(cfg, s, i, o, d, job.pick, s1);
    Holds(cfg, s1, i, job.pick, s2);
    Readies(cfg, s2, i, job.pick, p, now, job, s3);
    ThreeSteps(cfg, s, s1, s2, s3, Check(i, o, d), Hold(i), Prepare(i, now));
  }

  lemma ThreeSteps(cfg: Config, s: Sys, s1: Sys, s2: Sys, s3: Sys, a: Action, b: Action, c: Action)
    requires Do(cfg, s, a) == s1 && Do(cfg, s1, b) == s2 && Do(cfg, s2, c) == s3
    ensures Exec(cfg, s, [a] + ([b] + ([c] + []))) == s3
  {
    ExecOne(cfg, s, a, [b] + ([c] + []));
    ExecOne(cfg, s1, b, [c] + []);
    ExecOne(cfg, s2, c, []);
  }

  lemma RuntimeCommits(cfg: Config, s: Sys, id: string, status: Status, w: seq<Action>) returns (t: Sys, c: Commit)
    requires s.holder.None? && s.view.plan.Some?
    ensures Exec(cfg, s, [Runtime(id, status)] + w) == Exec(cfg, t, w)
    ensures t == s.(view := c.view, log := s.log + [c])
    ensures c.cause == ByRuntime(id, status) && c.view.plan == Some(Transitioned(s.view.plan.value, id, status))
  {
    t := Do(cfg, s, Runtime(id, status));
    c := Commit(RuntimeView(s.view, id, status), ByRuntime(id, status));
    ExecOne(cfg, s, Runtime(id, status), w);
  }

  // ----- a completion that arrives between preparation and install

  ghost predicate LostCompletion(log: seq<Commit>, job: Job, id: string)
  {
    && |log| == 3
    && log[1].cause == ByRuntime(id, Completed)
    && log[2].cause == ByInstall(job)
    && log[1].view.plan.Some? && HasStatus(PlanAt(log, 1), id, Completed)
    && log[2].view.plan == Some(job.plan) && !KeepsStatuses(job.plan, PlanAt(log, 1))
  }

  /** Whatever the revision, if it leaves a task open and that task completes before the install, the
      completion is lost, although no other install is involved. */
  lemma CompletionLost(
      cfg: Config, v: View, i: nat, o: Proposal, d: Drift, now: int, job: Job, id: string, schedule: seq<Action>)
    requires v.plan.Some? && WellNamed(v.plan.value) && OpenIn(v.plan.value, id)
    requires PromptJob(cfg, v.plan.value, 1, o, d, now, job) && job.lands
    requires !HasStatus(job.plan, id, Completed)
    requires schedule == Preparation(i, o, d, now) + ([Runtime(id, Completed)] + Section(i))
    ensures LostCompletion(Exec(cfg, Start(v), schedule).log, job, id)
  {
    var before, w := Preparation(i, o, d, now), Section(i);
    Prepares(cfg, Start(v), i, o, d, now, job);
    ExecConcat(cfg, Start(v), before, [Runtime(id, Completed)] + w);
    LostFrom(cfg, Start(v).(procs := map[i := Ready(job)]), i, job, id, w);
  }

  lemma LostFrom(cfg: Config, s: Sys, i: nat, job: Job, id: string, w: seq<Action>)
    requires s.holder.None? && s.view.plan.Some? && WellNamed(s.view.plan.value) && |s.log| == 1
    requires At(s, i) == Ready(job) && job.lands && w == Section(i)
    requires OpenIn(s.view.plan.value, id)
    requires !HasStatus(job.plan, id, Completed)
    ensures LostCompletion(Exec(cfg, s, [Runtime(id, Completed)] + w).log, job, id)
  {
    var p := s.view.plan.value;
    var t, c := RuntimeCommits(cfg, s, id, Completed, w);
    var e := SectionCommits(cfg, t, i, job, w);
    Completes(p, id);
    var q := Transitioned(p, id, Completed);
    assert Lookup(q.tasks, id).value in q.tasks;
  }

  lemma Completes(p: Plan, id: string)
    requires WellNamed(p) && OpenIn(p, id)
    ensures HasStatus(Transitioned(p, id, Completed), id, Completed)
  {
    var q := Transitioned(p, id, Completed);
    var i := SameIdLookup(p.tasks, q.tasks, id);
    SetStatusAt(p.tasks, id, Completed, i);
  }

  function Bare(ts: seq<Task>, revision: int): (r: Plan)
  {
    Plan("p", ts, [], revision, Stamp("", "", "", ""))
  }

  function Plain(id: string, status: Status): (r: Task)
  {
    Task(id, id, "", status, "", "", Unspecified, false, "", Forecast, "")
  }

  /** Adding one plain task to a plan of plain open tasks is a valid revision that changes nothing else. */
  lemma AddsTask(cfg: Config, ts: seq<Task>, id: string, d: Drift, now: int) returns (job: Job)
    requires id != "" && NamedTasks(ts) && UniqueIds(ts + [Plain(id, Pending)]) && cfg.active
    requires forall t <- ts :: t.status.Pending? && t.supersedes == "" && t.kind.Forecast? && !t.supersedesKind.Correct?
    ensures PromptJob(cfg, Bare(ts, 0), 1, Refining(Bare(ts + [Plain(id, Pending)], 0)), d, now, job) && job.lands
    ensures job.plan.tasks == ts + [Plain(id, Pending)] && job.plan.revision == 1
  {
    var p, c := Bare(ts, 0), Bare(ts + [Plain(id, Pending)], 0);
    AddedValid(ts, Plain(id, Pending));
    OpenFolds(c, ts);
    var q := Prepared(cfg.ledger, c, Some(p), d);
    assert q.tasks == c.tasks;
    job := JobOn(cfg, Pick(Refining(c), d, c, 1), p, 1, p, 1, now);
  }

  lemma AddedValid(ts: seq<Task>, x: Task)
    requires NamedTasks(ts) && UniqueIds(ts + [x]) && x.id != ""
    requires forall t <- ts + [x] :: t.status.Pending? && t.supersedes == ""
    ensures ValidRevision(Bare(ts + [x], 0), Some(Bare(ts, 0)))
  {
    var p, c := Bare(ts, 0), Bare(ts + [x], 0);
    assert Rewire.SetOf([]) == {};
    NoEdgesAcyclic();
    assert Trim("") == "";
    forall t | t in ts ensures t in ts + [x] {
    }
  }

  lemma {:induction false} NoneEnded(ts: seq<Task>)
    requires forall t <- ts :: t.status.Pending?
    ensures TerminalTasks(ts) == []
  {
    if ts != [] {
      assert ts[0] in ts;
      NoneEnded(ts[1..]);
    }
  }

  lemma OpenFolds(c: Plan, ts: seq<Task>)
    requires forall t <- ts :: t.status.Pending?
    ensures Fold(c, Some(Bare(ts, 0))) == c
  {
    NoneEnded(ts);
    assert Fold(c, Some(Bare(ts, 0))).tasks == c.tasks;
  }

  lemma FirstStaysOpen(p: Plan, a: string, b: string)
    requires p.tasks == [Plain(a, Pending)] + [Plain(b, Pending)] && a != "" && a != b
    ensures !HasStatus(p, a, Completed)
  {
    assert p.tasks[0] in p.tasks;
    UniqueLookup(p.tasks, p.tasks[0]);
  }

  lemma SecondTaskJob(cfg: Config, a: string, b: string, d: Drift) returns (job: Job)
    requires cfg.active && a != "" && b != "" && a != b
    ensures var ts := [Plain(a, Pending)];
            && PromptJob(cfg, Bare(ts, 0), 1, Refining(Bare(ts + [Plain(b, Pending)], 0)), d, 0, job) && job.lands
            && OpenIn(Bare(ts, 0), a) && WellNamed(Bare(ts, 0)) && !HasStatus(job.plan, a, Completed)
  {
    var ts := [Plain(a, Pending)];
    job := AddsTask(cfg, ts, b, d, 0);
    assert ts[0] in ts;
    UniqueLookup(ts, ts[0]);
    FirstStaysOpen(job.plan, a, b);
  }

  /** There is such a schedule: one task, one revision that adds another, and the first completes. */
  lemma LoneCompletionLost(cfg: Config, a: string, b: string, d: Drift)
    returns (v: View, o: Proposal, job: Job, schedule: seq<Action>)
    requires cfg.active && a != "" && b != "" && a != b
    ensures v.plan == Some(Bare([Plain(a, Pending)], 0))
    ensures schedule == Preparation(0, o, d, 0) + ([Runtime(a, Completed)] + Section(0))
    ensures LostCompletion(Exec(cfg, Start(v), schedule).log, job, a)
  {
    var ts := [Plain(a, Pending)];
    o := Refining(Bare(ts + [Plain(b, Pending)], 0));
    job := SecondTaskJob(cfg, a, b, d);
    v := View(Some(Bare(ts, 0)), "", map[], map[]);
    schedule := Preparation(0, o, d, 0) + ([Runtime(a, Completed)] + Section(0));
    CompletionLost(cfg, v, 0, o, d, 0, job, a, schedule);
  }

  // ----- two revisions prepared against the same plan

  /** The second install repeats the first one's revision index and drops its completed task. */
  ghost predicate Collided(log: seq<Commit>, a: string, b: string)
  {
    && |log| == 4
    && (forall k :: 1 <= k < 4 ==> log[k].view.plan.Some?)
    && PlanAt(log, 1).revision == PlanAt(log, 3).revision == 1
    && HasStatus(PlanAt(log, 2), a, Completed)
    && PlanAt(log, 3).tasks == [Plain(b, Pending)]
  }

  lemma BothPrepare(
      cfg: Config, s: Sys, oa: Proposal, ob: Proposal, d: Drift, ja: Job, jb: Job, w: seq<Action>, x: seq<Action>)
    requires s.holder.None? && s.view.plan.Some? && s.procs == map[]
    requires PromptJob(cfg, s.view.plan.value, |s.log|, oa, d, 0, ja) && w == Preparation(0, oa, d, 0)
    requires PromptJob(cfg, s.view.plan.value, |s.log|, ob, d, 0, jb) && x == Preparation(1, ob, d, 0)
    ensures Exec(cfg, s, w + x) == s.(procs := map[0 := Ready(ja), 1 := Ready(jb)])
  {
    var t := s.(procs := map[0 := Ready(ja)]);
    Prepares(cfg, s, 0, oa, d, 0, ja);
    ExecConcat(cfg, s, w, x);
    Prepares(cfg, t, 1, ob, d, 0, jb);
    assert t.procs[1 := Ready(jb)] == map[0 := Ready(ja), 1 := Ready(jb)];
  }

  lemma LoneTaskJob(cfg: Config, a: string, d: Drift) returns (job: Job)
    requires cfg.active && a != ""
    ensures PromptJob(cfg, Bare([], 0), 1, Refining(Bare([Plain(a, Pending)], 0)), d, 0, job) && job.lands
    ensures job.plan.tasks == [Plain(a, Pending)] && job.plan.revision == 1
  {
    assert [] + [Plain(a, Pending)] == [Plain(a, Pending)];
    job := AddsTask(cfg, [], a, d, 0);
  }

  lemma BothReady(cfg: Config, s: Sys, a: string, b: string, d: Drift, w: seq<Action>, x: seq<Action>)
    returns (ja: Job, jb: Job)
    requires cfg.active && a != "" && b != "" && s == Start(View(Some(Bare([], 0)), "", map[], map[]))
    requires w == Preparation(0, Refining(Bare([Plain(a, Pending)], 0)), d, 0)
    requires x == Preparation(1, Refining(Bare([Plain(b, Pending)], 0)), d, 0)
    ensures Exec(cfg, s, w + x) == s.(procs := map[0 := Ready(ja), 1 := Ready(jb)])
    ensures ja.lands && ja.plan.tasks == [Plain(a, Pending)] && ja.plan.revision == 1
    ensures jb.lands && jb.plan.tasks == [Plain(b, Pending)] && jb.plan.revision == 1
  {
    ja := LoneTaskJob(cfg, a, d);
    jb := LoneTaskJob(cfg, b, d);
    var oa, ob := Refining(Bare([Plain(a, Pending)], 0)), Refining(Bare([Plain(b, Pending)], 0));
    BothPrepare(cfg, s, oa, ob, d, ja, jb, w, x);
  }

  lemma RaceCommits(cfg: Config, s: Sys, ja: Job, jb: Job, a: string, w: seq<Action>, x: seq<Action>)
    returns (c1: Commit, c2: Commit, c3: Commit)
    requires s.holder.None? && At(s, 0) == Ready(ja) && At(s, 1) == Ready(jb) && ja.lands && jb.lands
    requires w == Section(0) && x == Section(1)
    ensures Exec(cfg, s, w + ([Runtime(a, Completed)] + x)).log == s.log + [c1] + [c2] + [c3]
    ensures c1.view.plan == Some(ja.plan) && c3.view.plan == Some(jb.plan)
    ensures c2.view.plan == Some(Transitioned(ja.plan, a, Completed))
  {
    c1 := SectionCommits(cfg, s, 0, ja, w);
    var s1 := Exec(cfg, s, w);
    ExecConcat(cfg, s, w, [Runtime(a, Completed)] + x);
    var s2;
    s2, c2 := RuntimeCommits(cfg, s1, a, Completed, x);
    assert At(s2, 1) == Ready(jb);
    c3 := SectionCommits(cfg, s2, 1, jb, x);
  }

  lemma OnlyTaskCompletes(p: Plan, a: string)
    requires p.tasks == [Plain(a, Pending)] && a != ""
    ensures HasStatus(Transitioned(p, a, Completed), a, Completed)
  {
    assert p.tasks[0] in p.tasks;
    UniqueLookup(p.tasks, p.tasks[0]);
    Completes(p, a);
  }

  lemma ThreeCommits(log: seq<Commit>, c0: Commit, c1: Commit, c2: Commit, c3: Commit, p: Plan, q: Plan, a: string)
    requires log == [c0] + [c1] + [c2] + [c3] && c1.view.plan == Some(p) && c3.view.plan == Some(q)
    requires c2.view.plan == Some(Transitioned(p, a, Completed))
    requires HasStatus(Transitioned(p, a, Completed), a, Completed)
    requires p.revision == 1 && q.revision == 1
    ensures forall b :: q.tasks == [Plain(b, Pending)] ==> Collided(log, a, b)
  {
    assert log[1] == c1 && log[2] == c2 && log[3] == c3;
  }

  lemma RaceOutcome(cfg: Config, s: Sys, ja: Job, jb: Job, a: string, b: string, w: seq<Action>, x: seq<Action>)
    requires s.holder.None? && At(s, 0) == Ready(ja) && At(s, 1) == Ready(jb) && |s.log| == 1 && a != ""
    requires ja.lands && ja.plan.tasks == [Plain(a, Pending)] && ja.plan.revision == 1
    requires jb.lands && jb.plan.tasks == [Plain(b, Pending)] && jb.plan.revision == 1
    requires w == Section(0) && x == Section(1)
    ensures Collided(Exec(cfg, s, w + ([Runtime(a, Completed)] + x)).log, a, b)
  {
    var c1, c2, c3 := RaceCommits(cfg, s, ja, jb, a, w, x);
    OnlyTaskCompletes(ja.plan, a);
    assert s.log == [s.log[0]];
    ThreeCommits(s.log + [c1] + [c2] + [c3], s.log[0], c1, c2, c3, ja.plan, jb.plan, a);
  }

  /** Two revisions are prepared before either is installed, and the first one's task completes in
      between: the second install repeats the index and loses the completed task. */
  lemma RacingInstallsCollide(cfg: Config, s: Sys, a: string, b: string, d: Drift) returns (schedule: seq<Action>)
    requires cfg.active && a != "" && b != "" && s == Start(View(Some(Bare([], 0)), "", map[], map[]))
    ensures var oa, ob := Refining(Bare([Plain(a, Pending)], 0)), Refining(Bare([Plain(b, Pending)], 0));
            schedule == Preparation(0, oa, d, 0) + Preparation(1, ob, d, 0) +
                        (Section(0) + ([Runtime(a, Completed)] + Section(1)))
    ensures Collided(Exec(cfg, s, schedule).log, a, b)
  {
    var w := Preparation(0, Refining(Bare([Plain(a, Pending)], 0)), d, 0);
    var x := Preparation(1, Refining(Bare([Plain(b, Pending)], 0)), d, 0);
    var tail := Section(0) + ([Runtime(a, Completed)] + Section(1));
    var ja, jb := BothReady(cfg, s, a, b, d, w, x);
    schedule := w + x + tail;
    ExecConcat(cfg, s, w + x, tail);
    RaceOutcome(cfg, s.(procs := map[0 := Ready(ja), 1 := Ready(jb)]), ja, jb, a, b, Section(0), Section(1));
  }

  // ----- a completion that arrives while a cascade is under way

  /** The last commit is a cascade's write, and it undoes the completion committed just before. */
  ghost predicate Overwritten(log: seq<Commit>, n: nat, id: string, seen: nat)
  {
    && n >= 1 && |log| == n + 2
    && log[n].cause == ByRuntime(id, Completed)
    && log[n + 1].cause == ByCascade(id, seen)
    && log[n].view.plan.Some? && HasStatus(PlanAt(log, n), id, Completed)
    && log[n + 1].view.plan.Some? && HasStatus(PlanAt(log, n + 1), id, Cancelled)
  }

  lemma Cancels(p: Plan, id: string)
    requires WellNamed(p) && Lookup(p.tasks, id).Some?
    ensures HasStatus(CascadeWrite(p, id), id, Cancelled)
  {
    var i := SameIdLookup(p.tasks, CascadeWrite(p, id).tasks, id);
    SetStatusAt(p.tasks, id, Cancelled, i);
  }

  lemma CascadeCommits(s: Sys, i: nat, w: Sweep, seen: nat) returns (t: Sys, c: Commit)
    requires s.view.plan.Some? && At(s, i) == Cascading(w, seen) && Writes(w)
    requires Lookup(s.view.plan.value.tasks, w.queue[0]).Some?
    ensures t == CascadeOn(s, i) && t.log == s.log + [c] && c.cause == ByCascade(w.queue[0], seen)
    ensures c.view.plan == Some(CascadeWrite(s.view.plan.value, w.queue[0]))
    ensures t.view == c.view && t.holder == s.holder && At(t, i) == Cascading(Pop(w), seen)
  {
    t := CascadeOn(s, i);
    c := Commit(s.view.(plan := Some(CascadeWrite(s.view.plan.value, w.queue[0]))), ByCascade(w.queue[0], seen));
  }

  lemma CascadeRuns(cfg: Config, s: Sys, i: nat, rest: seq<Action>)
    requires s.holder.None? && s.view.plan.Some? && At(s, i).Cascading?
    ensures Exec(cfg, s, [CascadeStep(i)] + rest) == Exec(cfg, CascadeOn(s, i), rest)
  {
    ExecOne(cfg, s, CascadeStep(i), rest);
  }

  lemma CascadeStarts(cfg: Config, v: View, i: nat, p: Plan, initiator: string, s: Sys, rest: seq<Action>)
    requires v.plan == Some(p) && s == Start(v).(procs := map[i := Cascading(Begin(p, initiator), 1)])
    ensures Exec(cfg, Start(v), [StartCascade(i, initiator)] + rest) == Exec(cfg, s, rest)
  {
    ExecOne(cfg, Start(v), StartCascade(i, initiator), rest);
  }

  /** A cascade first suspends after its first write. From then on, wherever it has got to, the task it
      is about to cancel may complete first, and the completion is undone. */
  lemma CascadeOverwrites(cfg: Config, s: Sys, i: nat, w: Sweep, seen: nat, id: string)
    requires s.holder.None? && s.log != [] && s.view.plan.Some? && WellNamed(s.view.plan.value)
    requires At(s, i) == Cascading(w, seen) && Hit(w) != {}
    requires Writes(w) && w.queue[0] == id && OpenIn(s.view.plan.value, id)
    ensures Overwritten(Exec(cfg, s, [Runtime(id, Completed)] + ([CascadeStep(i)] + [])).log, |s.log|, id, seen)
  {
    var p := s.view.plan.value;
    var t, c := RuntimeCommits(cfg, s, id, Completed, [CascadeStep(i)] + []);
    Completes(p, id);
    TransitionKeepsStatuses(p, id, Completed);
    Cancels(c.view.plan.value, id);
    var u, e := CascadeCommits(t, i, w, seen);
    CascadeRuns(cfg, t, i, []);
  }

  /** Cancelling one task leaves another open. */
  lemma OthersStayOpen(p: Plan, b: string, c: string)
    requires WellNamed(p) && OpenIn(p, c) && b != c
    ensures WellNamed(CascadeWrite(p, b)) && OpenIn(CascadeWrite(p, b), c)
  {
    CascadeNamed(p, b);
    var i := SameIdLookup(p.tasks, CascadeWrite(p, b).tasks, c);
    SetStatusAt(p.tasks, b, Cancelled, i);
  }

  /** The snapshot and the first write, between which nothing runs. */
  lemma FirstWrite(cfg: Config, v: View, i: nat, p: Plan, initiator: string, b: string, rest: seq<Action>)
    returns (t: Sys)
    requires v.plan == Some(p) && OpenIn(p, b)
    requires Children(p.edges, initiator) != [] && Children(p.edges, initiator)[0] == b
    ensures t.view.plan == Some(CascadeWrite(p, b)) && t.holder.None? && |t.log| == 2
    ensures At(t, i) == Cascading(Pop(Begin(p, initiator)), 1)
    ensures Exec(cfg, Start(v), [StartCascade(i, initiator)] + ([CascadeStep(i)] + rest)) == Exec(cfg, t, rest)
  {
    var s := Start(v).(procs := map[i := Cascading(Begin(p, initiator), 1)]);
    var c;
    t, c := CascadeCommits(s, i, Begin(p, initiator), 1);
    CascadeStarts(cfg, v, i, p, initiator, s, [CascadeStep(i)] + rest);
    CascadeRuns(cfg, s, i, rest);
  }

  /** After the first write the second successor is next. */
  lemma SecondIsNext(p: Plan, initiator: string, b: string, c: string)
    requires OpenIn(p, b) && OpenIn(p, c) && b != c
    requires var next := Children(p.edges, initiator); |next| >= 2 && next[0] == b && next[1] == c
    ensures var w := Pop(Begin(p, initiator)); b in Hit(w) && Writes(w) && w.queue[0] == c
  {
    var w := Begin(p, initiator);
    assert w.queue[1..][0] == c;
  }

  lemma SecondOverwritten(cfg: Config, t: Sys, i: nat, w: Sweep, p: Plan, b: string, c: string)
    requires t.view.plan == Some(CascadeWrite(p, b)) && t.holder.None? && |t.log| == 2
    requires WellNamed(p) && OpenIn(p, c) && b != c
    requires At(t, i) == Cascading(w, 1) && Hit(w) != {} && Writes(w) && w.queue[0] == c
    ensures Overwritten(Exec(cfg, t, [Runtime(c, Completed)] + ([CascadeStep(i)] + [])).log, 2, c, 1)
  {
    OthersStayOpen(p, b, c);
    CascadeOverwrites(cfg, t, i, w, 1, c);
  }

  /** Whatever the plan, when the first two successors of the initiator are open, the second one may
      complete while the cascade reports the first, and is recorded as cancelled. */
  lemma SuccessorOverwritten(
      cfg: Config, v: View, i: nat, p: Plan, initiator: string, b: string, c: string, rest: seq<Action>)
    requires v.plan == Some(p) && WellNamed(p) && OpenIn(p, b) && OpenIn(p, c) && b != c
    requires var next := Children(p.edges, initiator); |next| >= 2 && next[0] == b && next[1] == c
    requires rest == [Runtime(c, Completed)] + ([CascadeStep(i)] + [])
    ensures Overwritten(Exec(cfg, Start(v), [StartCascade(i, initiator)] + ([CascadeStep(i)] + rest)).log, 2, c, 1)
  {
    var t := FirstWrite(cfg, v, i, p, initiator, b, rest);
    SecondIsNext(p, initiator, b, c);
    SecondOverwritten(cfg, t, i, Pop(Begin(p, initiator)), p, b, c);
  }

  /** A failed task and two that wait on it. */
  function Fork(a: string, b: string, c: string): (r: Plan)
  {
    Bare([Plain(a, Failed), Plain(b, Pending), Plain(c, Pending)], 0).(edges := [Edge(a, b), Edge(a, c)])
  }

  lemma ForkOpen(p: Plan, a: string, b: string, c: string)
    requires a != "" && b != "" && c != "" && a != b && a != c && b != c && p == Fork(a, b, c)
    ensures WellNamed(p) && OpenIn(p, b) && OpenIn(p, c) && Children(p.edges, a) == [b, c]
  {
    assert p.tasks[1] in p.tasks && p.tasks[2] in p.tasks;
    UniqueLookup(p.tasks, p.tasks[1]);
    UniqueLookup(p.tasks, p.tasks[2]);
    assert p.edges[..1] == [Edge(a, b)] && p.edges[..1][..0] == [];
    assert Children(p.edges[..1], a) == [b];
  }

  /** There is such a plan. */
  lemma ForkOverwritten(cfg: Config, a: string, b: string, c: string) returns (v: View, rest: seq<Action>)
    requires a != "" && b != "" && c != "" && a != b && a != c && b != c
    ensures v.plan == Some(Fork(a, b, c)) && rest == [Runtime(c, Completed)] + ([CascadeStep(0)] + [])
    ensures Overwritten(Exec(cfg, Start(v), [StartCascade(0, a)] + ([CascadeStep(0)] + rest)).log, 2, c, 1)
  {
    var p := Fork(a, b, c);
    v := View(Some(p), "", map[], map[]);
    rest := [Runtime(c, Completed)] + ([CascadeStep(0)] + []);
    ForkOpen(p, a, b, c);
    SuccessorOverwritten(cfg, v, 0, p, a, b, c, rest);
  }
}
