/** What growth and a cancellation cascade amount to in the protocol when nothing comes between. */
module ProtocolSections {
  import opened Options
  import opened Plans
  import opened Install
  import Steer
  import opened Runs
  import opened Cascade
  import opened Protocol
  import opened ProtocolRaces

  // ----- growth

  lemma GrowthStarts(cfg: Config, s: Sys, i: nat, g: Growth, p: Plan, q: Plan, t: Sys)
    requires At(s, i).Idle? && s.holder.None? && s.view.plan == Some(p) && q == GrownBy(cfg, p, g) && q != p
    requires t == s.(holder := Some(i), procs := s.procs[i := Growing(g, q, 0)])
    ensures Do(cfg, s, StartGrowth(i, g)) == t
  {
  }

  lemma FirstGrowthWrite(cfg: Config, s: Sys, i: nat, g: Growth, q: Plan, t: Sys)
    requires At(s, i) == Growing(g, q, 0)
    requires t == Sys(s.view.(plan := Some(q)), s.holder, s.procs[i := Growing(g, q, 1)], s.log)
    ensures Do(cfg, s, Advance(i)) == t
  {
  }

  lemma LastGrowthWrite(cfg: Config, s: Sys, i: nat, g: Growth, q: Plan, v: View, t: Sys)
    requires At(s, i) == Growing(g, q, 1) && v == GrowthWrite(s.view, q, 1)
    requires t == Sys(v, s.holder, s.procs[i := Growing(g, q, 2)], s.log + [Commit(v, ByGrowth(g))])
    ensures Do(cfg, s, Advance(i)) == t
  {
  }

  lemma GrowthEnds(cfg: Config, s: Sys, i: nat, g: Growth, q: Plan, t: Sys)
    requires At(s, i) == Growing(g, q, 2) && t == s.(holder := None, procs := s.procs[i := Idle])
    ensures Do(cfg, s, Release(i)) == t
  {
  }

  /** A growth that lands, run through its single writes, is one atomic commit of the grown plan. */
  lemma GrowthInstalls(cfg: Config, s: Sys, i: nat, g: Growth, p: Plan, q: Plan)
    requires At(s, i).Idle? && s.holder.None? && s.view.plan == Some(p) && q == GrownBy(cfg, p, g) && q != p
    ensures var w := GrownView(s.view, q);
            Exec(cfg, s, [StartGrowth(i, g)] + ([Advance(i)] + ([Advance(i)] + ([Release(i)] + [])))) ==
            Sys(w, None, s.procs[i := Idle], s.log + [Commit(w, ByGrowth(g))])
  {
    var w := GrownView(s.view, q);
    var s1 := s.(holder := Some(i), procs := s.procs[i := Growing(g, q, 0)]);
    var s2 := Sys(s.view.(plan := Some(q)), Some(i), s1.procs[i := Growing(g, q, 1)], s.log);
    var s3 := Sys(w, Some(i), s2.procs[i := Growing(g, q, 2)], s.log + [Commit(w, ByGrowth(g))]);
    var s4 := s3.(holder := None, procs := s3.procs[i := Idle]);
    GrowthStarts(cfg, s, i, g, p, q, s1);
    FirstGrowthWrite(cfg, s1, i, g, q, s2);
    LastGrowthWrite(cfg, s2, i, g, q, w, s3);
    GrowthEnds(cfg, s3, i, g, q, s4);
    assert s4.procs == s.procs[i := Idle];
    ExecOne(cfg, s, StartGrowth(i, g), [Advance(i)] + ([Advance(i)] + ([Release(i)] + [])));
    ThreeSteps(cfg, s1, s2, s3, s4, Advance(i), Advance(i), Release(i));
  }

  // ----- a cascade

  /** Snapshot walk and live plan after `n` steps. */
  function Walked(w: Sweep, q: Plan, n: nat): (r: (Sweep, Plan))
    decreases n
  {
    if n == 0 || w.queue == [] then (w, q) else Walked(Pop(w), StepPlan(w, q), n - 1)
  }

  /** Everything queued, and every target of an edge, is in `all`. */
  ghost predicate Within(w: Sweep, all: set<string>)
  {
    (forall x <- w.queue :: x in all) && forall e <- w.snapshot.edges :: e.dst in all
  }

  lemma PopWithin(w: Sweep, all: set<string>)
    requires Within(w, all) && w.queue != []
    ensures Within(Pop(w), all) && w.queue[0] in all
  {
    forall x | x in Pop(w).queue ensures x in all {
      if x !in w.queue[1..] {
        ChildIff(w.snapshot.edges, w.queue[0], x);
      }
    }
  }

  lemma PopLess(w: Sweep, all: set<string>)
    requires Within(w, all) && w.queue != []
    ensures |all - Pop(w).visited| < |all - w.visited| ||
            (Pop(w).visited == w.visited && |Pop(w).queue| < |w.queue|)
  {
    PopWithin(w, all);
    var x := w.queue[0];
    if x in w.visited {
      assert w.visited + {x} == w.visited;
    } else {
      assert all - Pop(w).visited == (all - w.visited) - {x};
    }
  }

  /** The walk comes to its end. */
  lemma {:induction false} WalkEnds(w: Sweep, q: Plan, all: set<string>) returns (n: nat)
    requires Within(w, all)
    ensures Walked(w, q, n).0.queue == []
    decreases |all - w.visited|, |w.queue|
  {
    n := 0;
    if w.queue != [] {
      PopWithin(w, all);
      PopLess(w, all);
      var m := WalkEnds(Pop(w), StepPlan(w, q), all);
      WalkedMore(w, q, m);
      n := m + 1;
    }
  }

  /** At every point it has cancelled what it should have so far. */
  lemma {:induction false} WalkedOk(w: Sweep, p: Plan, q: Plan, id: string, n: nat)
    requires SweepOk(w, p, q, id) && UniqueIds(p.tasks)
    ensures SweepOk(Walked(w, q, n).0, p, Walked(w, q, n).1, id)
    decreases n
  {
    if n > 0 && w.queue != [] {
      SweepStep(w, p, q, id);
      WalkedOk(Pop(w), p, StepPlan(w, q), id, n - 1);
    }
  }

  /** The live plan has the tasks of the snapshot. */
  ghost predicate SameNames(q: Plan, p: Plan)
  {
    |q.tasks| == |p.tasks| && forall i :: 0 <= i < |p.tasks| ==> q.tasks[i].id == p.tasks[i].id
  }

  lemma HeadIsLive(w: Sweep, q: Plan)
    requires SameNames(q, w.snapshot) && Writes(w)
    ensures Lookup(q.tasks, w.queue[0]).Some?
  {
    var i := Steer.SameIdLookup(q.tasks, w.snapshot.tasks, w.queue[0]);
  }

  lemma StepNames(w: Sweep, q: Plan)
    requires SameNames(q, w.snapshot) && w.queue != []
    ensures SameNames(StepPlan(w, q), Pop(w).snapshot)
  {
  }

  /** One step of the process is one step of the walk. */
  lemma StepMoves(cfg: Config, s: Sys, i: nat, w: Sweep, seen: nat, q: Plan, t: Sys)
    requires s.holder.None? && At(s, i) == Cascading(w, seen) && s.view.plan == Some(q) && w.queue != []
    requires Writes(w) ==> Lookup(q.tasks, w.queue[0]).Some?
    requires t == Do(cfg, s, CascadeStep(i))
    ensures t.holder.None? && At(t, i) == Cascading(Pop(w), seen) && t.view.plan == Some(StepPlan(w, q))
  {
    assert t == CascadeOn(s, i);
  }

  lemma NextState(cfg: Config, s: Sys, i: nat, w: Sweep, seen: nat, q: Plan) returns (u: Sys, r: Plan)
    requires s.holder.None? && At(s, i) == Cascading(w, seen) && s.view.plan == Some(q) && SameNames(q, w.snapshot)
    requires w.queue != []
    ensures u == Do(cfg, s, CascadeStep(i)) && r == StepPlan(w, q)
    ensures u.holder.None? && At(u, i) == Cascading(Pop(w), seen) && u.view.plan == Some(r)
    ensures SameNames(r, Pop(w).snapshot)
  {
    u, r := Do(cfg, s, CascadeStep(i)), StepPlan(w, q);
    if Writes(w) {
      HeadIsLive(w, q);
    }
    StepMoves(cfg, s, i, w, seen, q, u);
    StepNames(w, q);
  }

  lemma WalkDone(cfg: Config, s: Sys, i: nat, w: Sweep, seen: nat, q: Plan, n: nat)
    requires s.holder.None? && At(s, i) == Cascading(w, seen) && s.view.plan == Some(q) && w.queue == []
    ensures RestsAt(cfg, s, i, n + 1, q)
  {
    ExecOne(cfg, s, CascadeStep(i), Repeat(CascadeStep(i), n));
    LastStep(cfg, s, i, w, seen);
    ProcessRests(cfg, s.(procs := s.procs[i := Idle]), i, n);
  }

  lemma WalkedMore(w: Sweep, q: Plan, n: nat)
    requires w.queue != []
    ensures Walked(w, q, n + 1) == Walked(Pop(w), StepPlan(w, q), n)
  {
  }

  /** After `n` steps the process is done, and the live plan is `r`. */
  ghost predicate RestsAt(cfg: Config, s: Sys, i: nat, n: nat, r: Plan)
  {
    var t := Exec(cfg, s, Repeat(CascadeStep(i), n));
    At(t, i).Idle? && t.view.plan == Some(r)
  }

  lemma RestsLater(cfg: Config, s: Sys, i: nat, u: Sys, n: nat, r: Plan)
    requires u == Do(cfg, s, CascadeStep(i)) && RestsAt(cfg, u, i, n, r)
    ensures RestsAt(cfg, s, i, n + 1, r)
  {
    ExecOne(cfg, s, CascadeStep(i), Repeat(CascadeStep(i), n));
  }

  lemma {:induction false} ProcessWalks(cfg: Config, s: Sys, i: nat, w: Sweep, seen: nat, q: Plan, n: nat, r: Plan)
    requires s.holder.None? && At(s, i) == Cascading(w, seen) && s.view.plan == Some(q) && SameNames(q, w.snapshot)
    requires Walked(w, q, n).0.queue == [] && r == Walked(w, q, n).1
    ensures RestsAt(cfg, s, i, n + 1, r)
    decreases n
  {
    if w.queue == [] {
      WalkDone(cfg, s, i, w, seen, q, n);
    } else {
      var u, x := NextState(cfg, s, i, w, seen, q);
      WalkedMore(w, q, n - 1);
      ProcessWalks(cfg, u, i, Pop(w), seen, x, n - 1, r);
      RestsLater(cfg, s, i, u, n, r);
    }
  }

  /** Steps of a process that is done change nothing. */
  lemma {:induction false} ProcessRests(cfg: Config, s: Sys, i: nat, n: nat)
    requires At(s, i).Idle?
    ensures Exec(cfg, s, Repeat(CascadeStep(i), n)) == s
    decreases n
  {
    if n > 0 {
      ExecOne(cfg, s, CascadeStep(i), Repeat(CascadeStep(i), n - 1));
      ProcessRests(cfg, s, i, n - 1);
    }
  }

  lemma LastStep(cfg: Config, s: Sys, i: nat, w: Sweep, seen: nat)
    requires s.holder.None? && At(s, i) == Cascading(w, seen) && s.view.plan.Some? && w.queue == []
    ensures Do(cfg, s, CascadeStep(i)) == s.(procs := s.procs[i := Idle])
  {
  }

  lemma CascadeBegins(cfg: Config, s: Sys, i: nat, p: Plan, id: string, t: Sys)
    requires At(s, i).Idle? && s.holder.None? && s.view.plan == Some(p)
    requires t == s.(procs := s.procs[i := Cascading(Begin(p, id), |s.log|)])
    ensures Do(cfg, s, StartCascade(i, id)) == t
  {
  }

  lemma WalkFromStart(p: Plan, id: string) returns (n: nat)
    requires UniqueIds(p.tasks)
    ensures Walked(Begin(p, id), p, n).0.queue == [] && Swept(Walked(Begin(p, id), p, n).1, p, id)
  {
    var w := Begin(p, id);
    BeginOk(p, id);
    assert Hit(w) == {};
    assert SweepOk(w, p, p, id);
    var all := (set x | x in w.queue) + Targets(p.edges);
    n := WalkEnds(w, p, all);
    WalkedOk(w, p, p, id, n);
    SweepDone(Walked(w, p, n).0, p, Walked(w, p, n).1, id);
  }

  /** A cascade that nothing disturbs ends, and it has cancelled exactly the open tasks reached through
      open tasks. */
  lemma CascadeSweeps(cfg: Config, s: Sys, i: nat, p: Plan, id: string) returns (n: nat, t: Sys)
    requires At(s, i).Idle? && s.holder.None? && s.view.plan == Some(p) && UniqueIds(p.tasks)
    ensures t == Exec(cfg, s, [StartCascade(i, id)] + Repeat(CascadeStep(i), n))
    ensures At(t, i).Idle? && t.view.plan.Some? && Swept(t.view.plan.value, p, id)
  {
    var u := s.(procs := s.procs[i := Cascading(Begin(p, id), |s.log|)]);
    CascadeBegins(cfg, s, i, p, id, u);
    var m := WalkFromStart(p, id);
    n := m + 1;
    ExecOne(cfg, s, StartCascade(i, id), Repeat(CascadeStep(i), n));
    t := Exec(cfg, u, Repeat(CascadeStep(i), n));
    ProcessWalks(cfg, u, i, Begin(p, id), |s.log|, p, m, Walked(Begin(p, id), p, m).1);
  }
}
