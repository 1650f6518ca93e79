/** Serial runs of plan-changing steps: terminal statuses are absorbing, discovered work is never lost. */
module Runs {
  import opened Options
  import opened Plans
  import opened Revisions
  import opened Install
  import opened Steer

  datatype Config = Config(ledger: bool, active: bool)

  datatype Step =
    | Refine(candidate: Plan, drift: Drift)
    | UserSteer(llm: Option<Plan>, drift: Drift, reason: string)
    | Grow(id: string, title: string, agent: string, hash: string, drift: Drift)
    | Transition(id: string, status: Status)

  /** A drift-driven revision: fold, validate, reject no-ops, prepare, gate, integrate. */
  ghost function Refined(cfg: Config, p: Plan, candidate: Plan, d: Drift): (r: Plan)
  {
    var f := Fold(candidate, Some(p));
    if !ValidRevision(f, Some(p)) || StructurallySame(p, f) || !Lands(cfg.active, Some(p), d) then p
    else Integrated(Prepared(cfg.ledger, f, Some(p), d))
  }

  ghost function Steered(cfg: Config, p: Plan, llm: Option<Plan>, d: Drift, reason: string): (r: Plan)
  {
    var c := Chosen(p, llm, reason);
    if StructurallySame(p, c) || !Lands(cfg.active, Some(p), d) then p
    else Integrated(Prepared(cfg.ledger, c, Some(p), d))
  }

  /** The open discovered task already carrying `hash`, if any, blocks growth. */
  ghost predicate AlreadyGrown(p: Plan, hash: string)
  {
    exists t :: t in p.tasks && t.discovered && t.identityHash == hash && !Terminal(t.status)
  }

  function GrownTask(ledger: bool, id: string, title: string, agent: string, hash: string): (r: Task)
  {
    Task(id, title, agent, Pending, "", "", Unspecified, true, hash, if ledger then Discovery else Forecast, "")
  }

  function Extended(ledger: bool, p: Plan, id: string, title: string, agent: string, hash: string, d: Drift): (r: Plan)
  {
    p.(tasks := p.tasks + [GrownTask(ledger, id, title, agent, hash)],
       revision := p.revision + 1,
       stamp := Stamp(d.kind, d.severity, d.detail, d.trigger))
  }

  ghost function Grown(cfg: Config, p: Plan, id: string, title: string, agent: string, hash: string,
                       d: Drift): (r: Plan)
  {
    var q := Extended(cfg.ledger, p, id, title, agent, hash, d);
    if AlreadyGrown(p, hash) || !ValidRevision(q, Some(p)) then p else q
  }

  function SetStatus(ts: seq<Task>, id: string, status: Status): (r: seq<Task>)
    ensures |r| == |ts|
    ensures forall i :: 0 <= i < |ts| ==> r[i].id == ts[i].id
    ensures forall i :: 0 <= i < |ts| ==> r[i] == ts[i] || (ts[i].id == id && r[i] == ts[i].(status := status))
  {
    if ts == [] then []
    else if ts[0].id == id then [ts[0].(status := status)] + ts[1..]
    else [ts[0]] + SetStatus(ts[1..], id, status)
  }

  /** The runtime's task transitions never leave a terminal status. */
  function Transitioned(p: Plan, id: string, status: Status): (r: Plan)
  {
    var t := Lookup(p.tasks, id);
    if t.None? || Terminal(t.value.status) then p else p.(tasks := SetStatus(p.tasks, id, status))
  }

  ghost function Next(cfg: Config, p: Plan, s: Step): (r: Plan)
  {
    match s
    case Refine(candidate, d) => Refined(cfg, p, candidate, d)
    case UserSteer(llm, d, reason) => Steered(cfg, p, llm, d, reason)
    case Grow(id, title, agent, hash, d) => Grown(cfg, p, id, title, agent, hash, d)
    case Transition(id, status) => Transitioned(p, id, status)
  }

  ghost function After(cfg: Config, p: Plan, run: seq<Step>): (r: Plan)
    decreases |run|
  {
    if run == [] then p else After(cfg, Next(cfg, p, run[0]), run[1..])
  }

  // ----- terminal statuses are absorbing

  ghost predicate WellNamed(p: Plan)
  {
    NamedTasks(p.tasks) && UniqueIds(p.tasks)
  }

  /** `id` is in the plan with status `s`. */
  ghost predicate HasStatus(p: Plan, id: string, s: Status)
  {
    Lookup(p.tasks, id).Some? && Lookup(p.tasks, id).value.status == s
  }

  ghost predicate KeepsStatuses(q: Plan, p: Plan)
  {
    forall t <- p.tasks :: Terminal(t.status) ==> HasStatus(q, t.id, t.status)
  }

  lemma FoldKeepsStatuses(q: Plan, p: Plan, prior: Option<Plan>)
    requires WellNamed(q) && KeepsStatuses(q, p)
    ensures WellNamed(Fold(q, prior)) && KeepsStatuses(Fold(q, prior), p)
  {
    var f := Fold(q, prior);
    forall t | t in f.tasks ensures t.id != "" {
      var i :| 0 <= i < |f.tasks| && f.tasks[i] == t;
      assert q.tasks[i] in q.tasks;
    }
    forall t | t in p.tasks && Terminal(t.status) ensures HasStatus(f, t.id, t.status) {
      var i := SameIdLookup(q.tasks, f.tasks, t.id);
    }
  }

  lemma RepairedNames(ts: seq<Task>, prior: seq<Task>)
    requires NamedTasks(ts) && UniqueIds(ts) && UniqueIds(prior)
    ensures var r := LedgerTasks(ts, prior) + Dropped(prior, Ids(ts)); NamedTasks(r) && UniqueIds(r)
  {
    var m, d := LedgerTasks(ts, prior), Dropped(prior, Ids(ts));
    DroppedUnique(prior, Ids(ts));
    forall t: Task | t in m + d ensures t.id != "" {
      if t in m {
        var i :| 0 <= i < |m| && m[i] == t;
        assert ts[i] in ts;
      }
    }
    forall i, j | 0 <= i < j < |m + d| ensures (m + d)[i].id != (m + d)[j].id {
      if i < |m| <= j {
        assert d[j - |m|] in d && ts[i] in ts;
      }
    }
  }

  lemma {:induction false} DroppedUnique(prior: seq<Task>, kept: set<string>)
    requires UniqueIds(prior)
    ensures UniqueIds(Dropped(prior, kept))
  {
    if prior != [] {
      var rest := Dropped(prior[1..], kept);
      DroppedUnique(prior[1..], kept);
      forall t | t in rest ensures t.id != prior[0].id {
        var i :| 0 <= i < |prior[1..]| && prior[1..][i] == t;
        assert prior[i + 1] == t;
      }
    }
  }

  /** Lookup in a list extended by tasks with other ids. */
  lemma {:induction false} LookupPrefix(a: seq<Task>, b: seq<Task>, id: string)
    requires id !in Ids(b)
    ensures Lookup(a + b, id) == Lookup(a, id)
    decreases |b|
  {
    if b == [] {
      assert a + b == a;
    } else {
      var front := b[..|b| - 1];
      assert (a + b)[..|a + b| - 1] == a + front;
      assert b[|b| - 1] in b;
      assert Ids(front) <= Ids(b);
      LookupPrefix(a, front, id);
    }
  }

  lemma RepairKeepsStatuses(ledger: bool, q: Plan, p: Plan)
    requires WellNamed(q) && WellNamed(p) && KeepsStatuses(q, p)
    ensures WellNamed(LedgerRepair(ledger, q, Some(p))) && KeepsStatuses(LedgerRepair(ledger, q, Some(p)), p)
  {
    if ledger && HasLedgerShape(p.tasks) {
      RepairedNames(q.tasks, p.tasks);
      var m, d := LedgerTasks(q.tasks, p.tasks), Dropped(p.tasks, Ids(q.tasks));
      forall t | t in p.tasks && Terminal(t.status) ensures HasStatus(q.(tasks := m + d), t.id, t.status) {
        var i := SameIdLookup(q.tasks, m, t.id);
        assert t.id !in Ids(d) by {
          assert q.tasks[i] in q.tasks;
        }
        LookupPrefix(m, d, t.id);
      }
    }
  }

  /** Preparing a candidate that keeps the recorded statuses keeps them. */
  lemma PreparedKeepsStatuses(ledger: bool, q: Plan, p: Plan, d: Drift)
    requires WellNamed(q) && WellNamed(p) && KeepsStatuses(q, p)
    ensures var r := Integrated(Prepared(ledger, q, Some(p), d)); WellNamed(r) && KeepsStatuses(r, p)
  {
    FoldKeepsStatuses(q, p, Some(p));
    RepairKeepsStatuses(ledger, Fold(q, Some(p)), p);
    var r, g := Integrated(Prepared(ledger, q, Some(p), d)), LedgerRepair(ledger, Fold(q, Some(p)), Some(p));
    assert r.tasks == g.tasks;
  }

  lemma MinimalKeepsStatuses(p: Plan, reason: string)
    requires WellNamed(p)
    ensures WellNamed(Minimal(p, reason)) && KeepsStatuses(Minimal(p, reason), p)
  {
    var m := Minimal(p, reason);
    forall t | t in m.tasks ensures t.id != "" {
      var i :| 0 <= i < |m.tasks| && m.tasks[i] == t;
      assert p.tasks[i] in p.tasks;
    }
    forall t | t in p.tasks && Terminal(t.status) ensures HasStatus(m, t.id, t.status) {
      RolledLookup(p.tasks, reason, t);
    }
  }

  lemma TransitionKeepsOne(p: Plan, id: string, status: Status, t: Task)
    requires WellNamed(p) && t in p.tasks && Terminal(t.status)
    ensures HasStatus(Transitioned(p, id, status), t.id, t.status)
  {
    UniqueLookup(p.tasks, t);
    var i := SameIdLookup(p.tasks, Transitioned(p, id, status).tasks, t.id);
  }

  lemma TransitionKeepsStatuses(p: Plan, id: string, status: Status)
    requires WellNamed(p)
    ensures WellNamed(Transitioned(p, id, status)) && KeepsStatuses(Transitioned(p, id, status), p)
  {
    var q := Transitioned(p, id, status);
    assert |q.tasks| == |p.tasks| && forall i :: 0 <= i < |p.tasks| ==> q.tasks[i].id == p.tasks[i].id;
    forall t | t in q.tasks ensures t.id != "" {
      var i :| 0 <= i < |q.tasks| && q.tasks[i] == t;
      assert p.tasks[i] in p.tasks;
    }
    forall t | t in p.tasks && Terminal(t.status) ensures HasStatus(q, t.id, t.status) {
      TransitionKeepsOne(p, id, status, t);
    }
  }

  /** One write of the cancellation cascade: it trusts a snapshot of the statuses, not the live plan. */
  function CascadeWrite(p: Plan, id: string): (r: Plan)
  {
    p.(tasks := SetStatus(p.tasks, id, Cancelled))
  }

  lemma TailUnique(ts: seq<Task>)
    requires UniqueIds(ts) && ts != []
    ensures UniqueIds(ts[1..])
  {
  }

  lemma {:induction false} SetStatusAt(ts: seq<Task>, id: string, status: Status, i: nat)
    requires UniqueIds(ts) && i < |ts|
    ensures SetStatus(ts, id, status)[i].status == if ts[i].id == id then status else ts[i].status
  {
    var r, rest := SetStatus(ts, id, status), ts[1..];
    if i > 0 {
      assert rest[i - 1] == ts[i] && ts[i].id != ts[0].id;
      if ts[0].id == id {
        assert r == [ts[0].(status := status)] + rest;
      } else {
        assert r == [ts[0]] + SetStatus(rest, id, status);
        TailUnique(ts);
        SetStatusAt(rest, id, status, i - 1);
      }
    }
  }

  /** A cascade write keeps the terminal statuses exactly when its task is not already terminal with
      another status by then. */
  lemma CascadeKeepsIff(p: Plan, id: string)
    requires WellNamed(p)
    ensures KeepsStatuses(CascadeWrite(p, id), p) <==>
            forall t <- p.tasks :: t.id == id && Terminal(t.status) ==> t.status.Cancelled?
  {
    var q := CascadeWrite(p, id);
    forall t | t in p.tasks
      ensures HasStatus(q, t.id, if t.id == id then Cancelled else t.status)
    {
      UniqueLookup(p.tasks, t);
      var i := SameIdLookup(p.tasks, q.tasks, t.id);
      SetStatusAt(p.tasks, id, Cancelled, i);
    }
  }

  lemma StaysKeepsStatuses(p: Plan)
    requires WellNamed(p)
    ensures KeepsStatuses(p, p)
  {
    forall t | t in p.tasks && Terminal(t.status) ensures HasStatus(p, t.id, t.status) {
      UniqueLookup(p.tasks, t);
    }
  }

  lemma StepKeepsStatuses(cfg: Config, p: Plan, s: Step)
    requires WellNamed(p)
    ensures WellNamed(Next(cfg, p, s)) && KeepsStatuses(Next(cfg, p, s), p)
  {
    StaysKeepsStatuses(p);
    match s
    case Refine(candidate, d) =>
      var f := Fold(candidate, Some(p));
      if ValidRevision(f, Some(p)) {
        PreparedKeepsStatuses(cfg.ledger, f, p, d);
      }
    case UserSteer(llm, d, reason) =>
      MinimalKeepsStatuses(p, reason);
      PreparedKeepsStatuses(cfg.ledger, Chosen(p, llm, reason), p, d);
    case Grow(id, title, agent, hash, d) =>
    case Transition(id, status) =>
      TransitionKeepsStatuses(p, id, status);
  }

  /** Once terminal, a task keeps exactly that status at every later point of every run. */
  lemma {:induction false} TerminalIsAbsorbing(cfg: Config, p: Plan, run: seq<Step>, id: string, status: Status)
    requires WellNamed(p) && HasStatus(p, id, status) && Terminal(status)
    ensures HasStatus(After(cfg, p, run), id, status)
    decreases |run|
  {
    if run != [] {
      StepKeepsStatuses(cfg, p, run[0]);
      assert Lookup(p.tasks, id).value in p.tasks;
      TerminalIsAbsorbing(cfg, Next(cfg, p, run[0]), run[1..], id, status);
    }
  }

  // ----- discovered work is never lost

  /** Discovered tasks carry the ledger kind and an identity hash. */
  ghost predicate Labelled(p: Plan)
  {
    forall t <- p.tasks :: t.discovered ==> t.kind.Discovery? && t.identityHash != ""
  }

  /** At most one open discovered task per identity hash. */
  ghost predicate OneOpenPerHash(p: Plan)
  {
    forall t, u | t in p.tasks && u in p.tasks && t.discovered && u.discovered && t.identityHash == u.identityHash
                  && !Terminal(t.status) && !Terminal(u.status) :: t.id == u.id
  }

  ghost predicate LedgerOk(p: Plan)
  {
    WellNamed(p) && Labelled(p) && OneOpenPerHash(p)
  }

  /** Planner output carries no discovery fields of its own. */
  ghost predicate Undiscovered(p: Plan)
  {
    forall t <- p.tasks :: !t.discovered && !t.kind.Discovery? && t.identityHash == ""
  }

  ghost predicate PlannerStep(s: Step)
  {
    match s
    case Refine(candidate, _) => Undiscovered(candidate)
    case UserSteer(llm, _, _) => llm.Some? ==> Undiscovered(llm.value)
    case Grow(_, _, _, hash, _) => hash != ""
    case Transition(_, _) => true
  }

  /** The discovered task with this id and hash is recorded in `p`. */
  ghost predicate Recorded(p: Plan, id: string, hash: string)
  {
    exists t :: t in p.tasks && t.id == id && t.discovered && t.kind.Discovery? && t.identityHash == hash
  }

  /** Every discovered task of `p` is recorded in `q`, and `q` has no others;
      one that is open in `q` was open in `p`. */
  ghost predicate SameDiscoveries(p: Plan, q: Plan)
  {
    && (forall t <- p.tasks :: t.discovered ==> Recorded(q, t.id, t.identityHash))
    && (forall u <- q.tasks :: u.discovered ==> ComesFrom(u, p))
  }

  ghost predicate ComesFrom(u: Task, p: Plan)
  {
    exists t :: t in p.tasks && t.id == u.id && t.discovered && t.identityHash == u.identityHash
                && t.kind == u.kind && (!Terminal(u.status) ==> !Terminal(t.status))
  }

  lemma SameDiscoveriesOk(p: Plan, q: Plan)
    requires LedgerOk(p) && WellNamed(q) && SameDiscoveries(p, q)
    ensures LedgerOk(q)
  {
    forall u | u in q.tasks && u.discovered ensures u.kind.Discovery? && u.identityHash != "" {
      assert ComesFrom(u, p);
    }
    forall u, v | u in q.tasks && v in q.tasks && u.discovered && v.discovered && u.identityHash == v.identityHash
                  && !Terminal(u.status) && !Terminal(v.status)
      ensures u.id == v.id
    {
      assert ComesFrom(u, p) && ComesFrom(v, p);
    }
  }

  /** A candidate's own discovered tasks are tasks of the prior plan. */
  ghost predicate Borrowed(q: Plan, p: Plan)
  {
    forall x <- q.tasks :: x.discovered ==> exists t :: t in p.tasks && t.id == x.id && t.discovered
  }

  /** One task through fold and ledger repair. */
  function RepairTask(x: Task, prior: seq<Task>): (r: Task)
  {
    LedgerTask(FoldTask(x, prior), prior)
  }

  lemma RepairedComesFrom(x: Task, q: Plan, p: Plan)
    requires LedgerOk(p) && WellNamed(q) && KeepsStatuses(q, p) && Borrowed(q, p)
    requires x in q.tasks && RepairTask(x, p.tasks).discovered
    ensures ComesFrom(RepairTask(x, p.tasks), p)
  {
    var u := RepairTask(x, p.tasks);
    var was := Lookup(p.tasks, x.id);
    if x.discovered {
      var t :| t in p.tasks && t.id == x.id && t.discovered;
      UniqueLookup(p.tasks, t);
    }
    assert was.Some? && was.value.discovered;
    if Terminal(was.value.status) {
      UniqueLookup(q.tasks, x);
      assert HasStatus(q, x.id, was.value.status);
    }
  }

  lemma RepairedTaskRecords(x: Task, p: Plan, t: Task)
    requires LedgerOk(p) && t in p.tasks && t.discovered && x.id == t.id
    ensures var u := LedgerTask(x, p.tasks);
            u.id == t.id && u.discovered && u.kind.Discovery? && u.identityHash == t.identityHash
  {
    UniqueLookup(p.tasks, t);
  }

  lemma RepairedRecords(q: Plan, p: Plan, t: Task)
    requires LedgerOk(p) && WellNamed(q) && KeepsStatuses(q, p)
    requires t in p.tasks && t.discovered
    ensures Recorded(LedgerRepair(true, Fold(q, Some(p)), Some(p)), t.id, t.identityHash)
  {
    var f := Fold(q, Some(p));
    var r := LedgerRepair(true, f, Some(p));
    SameIds(f.tasks, q.tasks);
    assert r.tasks == LedgerTasks(f.tasks, p.tasks) + Dropped(p.tasks, Ids(f.tasks));
    if t.id in Ids(f.tasks) {
      var i :| 0 <= i < |f.tasks| && f.tasks[i].id == t.id;
      RepairedTaskRecords(f.tasks[i], p, t);
      assert r.tasks[i] in r.tasks;
    } else {
      assert Lookup(q.tasks, t.id).None?;
      assert t in Dropped(p.tasks, Ids(f.tasks));
      assert t in r.tasks;
    }
  }

  lemma NoDiscoveries(q: Plan, p: Plan)
    requires Labelled(p) && Borrowed(q, p) && !HasLedgerShape(p.tasks)
    ensures forall u <- Fold(q, Some(p)).tasks :: !u.discovered
  {
    var f := Fold(q, Some(p));
    forall u | u in f.tasks ensures !u.discovered {
      var i :| 0 <= i < |f.tasks| && f.tasks[i] == u;
      assert q.tasks[i] in q.tasks;
    }
  }

  lemma PreparedDiscoveries(q: Plan, p: Plan, d: Drift)
    requires LedgerOk(p) && WellNamed(q) && KeepsStatuses(q, p) && Borrowed(q, p)
    ensures SameDiscoveries(p, Integrated(Prepared(true, q, Some(p), d)))
  {
    var f := Fold(q, Some(p));
    var g := LedgerRepair(true, f, Some(p));
    var r := Integrated(Prepared(true, q, Some(p), d));
    assert r.tasks == g.tasks;
    forall t | t in p.tasks && t.discovered ensures Recorded(r, t.id, t.identityHash) {
      RepairedRecords(q, p, t);
    }
    if !HasLedgerShape(p.tasks) {
      NoDiscoveries(q, p);
    }
    forall u | u in g.tasks && u.discovered ensures ComesFrom(u, p) {
      if HasLedgerShape(p.tasks) {
        var i :| 0 <= i < |g.tasks| && g.tasks[i] == u;
        if i < |q.tasks| {
          assert u == RepairTask(q.tasks[i], p.tasks);
          RepairedComesFrom(q.tasks[i], q, p);
        } else {
          assert u in Dropped(p.tasks, Ids(f.tasks));
        }
      }
    }
  }

  lemma MinimalBorrowed(p: Plan, reason: string)
    ensures Borrowed(Minimal(p, reason), p)
  {
    var m := Minimal(p, reason);
    forall x | x in m.tasks && x.discovered ensures exists t :: t in p.tasks && t.id == x.id && t.discovered {
      var i :| 0 <= i < |m.tasks| && m.tasks[i] == x;
      assert p.tasks[i] in p.tasks;
    }
  }

  lemma FoldUndiscovered(q: Plan, prior: Option<Plan>)
    requires Undiscovered(q)
    ensures Undiscovered(Fold(q, prior))
  {
    var f := Fold(q, prior);
    forall t | t in f.tasks ensures !t.discovered && !t.kind.Discovery? && t.identityHash == "" {
      var i :| 0 <= i < |f.tasks| && f.tasks[i] == t;
      assert q.tasks[i] in q.tasks;
    }
  }

  lemma TransitionedTask(p: Plan, id: string, status: Status, i: nat)
    requires LedgerOk(p) && i < |p.tasks|
    ensures var q := Transitioned(p, id, status);
            && |q.tasks| == |p.tasks|
            && q.tasks[i] == p.tasks[i].(status := q.tasks[i].status)
            && (!Terminal(q.tasks[i].status) ==> !Terminal(p.tasks[i].status))
  {
    var t, found := p.tasks[i], Lookup(p.tasks, id);
    if found.Some? && !Terminal(found.value.status) {
      var u := SetStatus(p.tasks, id, status)[i];
      if u != t {
        assert t.id == id && u == t.(status := status);
        UniqueLookup(p.tasks, t);
      }
    }
  }

  lemma TransitionDiscoveries(p: Plan, id: string, status: Status)
    requires LedgerOk(p)
    ensures SameDiscoveries(p, Transitioned(p, id, status))
  {
    var q := Transitioned(p, id, status);
    forall t | t in p.tasks && t.discovered ensures Recorded(q, t.id, t.identityHash) {
      var i :| 0 <= i < |p.tasks| && p.tasks[i] == t;
      TransitionedTask(p, id, status, i);
      assert q.tasks[i] in q.tasks;
    }
    assert |q.tasks| == |p.tasks|;
    forall u | u in q.tasks && u.discovered ensures ComesFrom(u, p) {
      var i :| 0 <= i < |q.tasks| && q.tasks[i] == u;
      TransitionedTask(p, id, status, i);
      assert p.tasks[i] in p.tasks;
    }
  }

  lemma GrowDiscoveries(p: Plan, q: Plan, t: Task)
    requires LedgerOk(p) && WellNamed(q) && q.tasks == p.tasks + [t]
    requires t.discovered && t.kind.Discovery? && t.identityHash != "" && !AlreadyGrown(p, t.identityHash)
    ensures LedgerOk(q) && forall u <- p.tasks :: u.discovered ==> Recorded(q, u.id, u.identityHash)
  {
    forall u, v | u in q.tasks && v in q.tasks && u.discovered && v.discovered && u.identityHash == v.identityHash
                  && !Terminal(u.status) && !Terminal(v.status)
      ensures u.id == v.id
    {
      assert u in p.tasks || u == t;
      assert v in p.tasks || v == t;
    }
    forall u | u in p.tasks && u.discovered ensures Recorded(q, u.id, u.identityHash) {
      assert u in q.tasks;
    }
  }

  lemma StepDiscoveries(cfg: Config, p: Plan, s: Step)
    requires cfg.ledger && LedgerOk(p) && PlannerStep(s)
    ensures LedgerOk(Next(cfg, p, s))
    ensures forall t <- p.tasks :: t.discovered ==> Recorded(Next(cfg, p, s), t.id, t.identityHash)
  {
    var q := Next(cfg, p, s);
    StepKeepsStatuses(cfg, p, s);
    if q != p {
      match s
      case Refine(candidate, d) =>
        FoldUndiscovered(candidate, Some(p));
        PreparedDiscoveries(Fold(candidate, Some(p)), p, d);
        SameDiscoveriesOk(p, q);
      case UserSteer(llm, d, reason) =>
        if llm.Some? {
          FoldUndiscovered(llm.value, Some(p));
        }
        MinimalBorrowed(p, reason);
        MinimalKeepsStatuses(p, reason);
        PreparedDiscoveries(Chosen(p, llm, reason), p, d);
        SameDiscoveriesOk(p, q);
      case Grow(id, title, agent, hash, d) =>
        GrowDiscoveries(p, q, GrownTask(true, id, title, agent, hash));
      case Transition(id, status) =>
        TransitionDiscoveries(p, id, status);
        SameDiscoveriesOk(p, q);
    }
  }

  /** In ledger mode, over every run: a discovered task once in the plan stays recorded with its
      kind and hash, and no hash ever has two open discovered tasks. */
  lemma {:induction false} DiscoveriesSurvive(cfg: Config, p: Plan, run: seq<Step>, id: string, hash: string)
    requires cfg.ledger && LedgerOk(p) && (forall s <- run :: PlannerStep(s))
    ensures LedgerOk(After(cfg, p, run))
    ensures Recorded(p, id, hash) ==> Recorded(After(cfg, p, run), id, hash)
    decreases |run|
  {
    if run != [] {
      assert run[0] in run;
      StepDiscoveries(cfg, p, run[0]);
      DiscoveriesSurvive(cfg, Next(cfg, p, run[0]), run[1..], id, hash);
    }
  }
}
