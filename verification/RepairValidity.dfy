/** Exactly when the ledger repair keeps a valid revision valid, and what a user steer returns. */
module RepairValidity {
  import opened Options
  import opened Text
  import opened Graph
  import opened Plans
  import opened Revisions
  import opened Install
  import opened Steer
  import opened Runs

  /** The open discovered tasks that the repair puts back. */
  ghost function Back(p: Plan, prior: Plan): (r: seq<Task>)
  {
    Dropped(prior.tasks, Ids(p.tasks))
  }

  /** The task an id names after the repair, up to ledger fields. */
  ghost function Found(p: Plan, prior: Plan, id: string): (r: Option<Task>)
  {
    if Lookup(p.tasks, id).Some? then Lookup(p.tasks, id) else Lookup(Back(p, prior), id)
  }

  ghost predicate Repaired(r: Plan, p: Plan, prior: Plan)
  {
    r.edges == p.edges && r.tasks == LedgerTasks(p.tasks, prior.tasks) + Back(p, prior)
  }

  lemma RepairedLookup(r: Plan, p: Plan, prior: Plan, id: string)
    requires Repaired(r, p, prior)
    ensures Lookup(r.tasks, id).Some? <==> Found(p, prior, id).Some?
    ensures Lookup(r.tasks, id).Some? ==>
              && Lookup(r.tasks, id).value.status == Found(p, prior, id).value.status
              && Lookup(r.tasks, id).value.supersedes == Found(p, prior, id).value.supersedes
  {
    var m, d := LedgerTasks(p.tasks, prior.tasks), Back(p, prior);
    var i := SameIdLookup(p.tasks, m, id);
    if Lookup(p.tasks, id).Some? {
      assert id in Ids(p.tasks) && id !in Ids(d);
      LookupPrefix(m, d, id);
    } else {
      LookupSuffix(m, d, id);
    }
  }

  /** Lookup in a list whose first part lacks the id. */
  lemma {:induction false} LookupSuffix(a: seq<Task>, b: seq<Task>, id: string)
    requires Lookup(a, id).None?
    ensures Lookup(a + b, id) == Lookup(b, id)
    decreases |b|
  {
    if b == [] {
      assert a + b == a;
    } else {
      assert (a + b)[..|a + b| - 1] == a + b[..|b| - 1];
      LookupSuffix(a, b[..|b| - 1], id);
    }
  }

  // ----- rules 1 to 7

  lemma RepairedStructure(r: Plan, p: Plan, prior: Plan)
    requires Repaired(r, p, prior) && Structural(prior) && Structural(p) && Executable(p) && KeepsTerminals(p, prior)
    ensures Structural(r) && Executable(r) && KeepsTerminals(r, prior)
  {
    RepairedNames(p.tasks, prior.tasks);
    var m, d := LedgerTasks(p.tasks, prior.tasks), Back(p, prior);
    SameIds(m, p.tasks);
    IdsConcat(m, d);
    forall e | e in r.edges
      ensures Lookup(r.tasks, e.src).Some? && Lookup(r.tasks, e.src).value.status == Lookup(p.tasks, e.src).value.status
      ensures Lookup(r.tasks, e.dst).Some? && Lookup(r.tasks, e.dst).value.status == Lookup(p.tasks, e.dst).value.status
    {
      assert e.src in Ids(p.tasks) && e.dst in Ids(p.tasks);
      RepairedLookup(r, p, prior, e.src);
      RepairedLookup(r, p, prior, e.dst);
    }
    forall t | t in prior.tasks && Terminal(t.status)
      ensures Lookup(r.tasks, t.id).Some? && Lookup(r.tasks, t.id).value.status == t.status
    {
      RepairedLookup(r, p, prior, t.id);
    }
  }

  // ----- rule 8

  /** The link supersedes a task that was open and is not finished by the revision. */
  ghost predicate Routable(x: Task, p: Plan, prior: Plan)
  {
    var y := Trim(x.supersedes);
    && y != "" && Lookup(prior.tasks, y).Some? && !Terminal(Lookup(prior.tasks, y).value.status)
    && !(Lookup(p.tasks, y).Some? && Terminal(Lookup(p.tasks, y).value.status))
  }

  /** A task of the revision keeps its link: no task that comes back points at it in turn, and none
      that comes back consumes what it supersedes unless the superseded task waits on it. */
  ghost predicate LinkHolds(x: Task, p: Plan, prior: Plan)
  {
    var y := Trim(x.supersedes);
    && (forall t <- Back(p, prior) :: !(t.id == y && Trim(t.supersedes) == x.id))
    && (Routable(x, p, prior) ==>
          WaitsOn(x, y, p) || forall e <- prior.edges :: e.src == y ==> e.dst !in Ids(Back(p, prior)))
  }

  /** The link of a task that comes back names another known task, is not mutual, and supersedes no
      open task that still has live consumers. */
  ghost predicate ReturnHolds(t: Task, p: Plan, prior: Plan)
  {
    var y := Trim(t.supersedes);
    y != "" ==>
      && y != t.id
      && (Lookup(prior.tasks, y).Some? || Lookup(p.tasks, y).Some?)
      && (Found(p, prior, y).Some? ==> Trim(Found(p, prior, y).value.supersedes) != t.id)
      && (Lookup(prior.tasks, y).Some? && !Terminal(Lookup(prior.tasks, y).value.status)
          && !(Found(p, prior, y).Some? && Terminal(Found(p, prior, y).value.status)) ==>
            forall e <- prior.edges :: e.src == y ==>
              !(Found(p, prior, e.dst).Some? && !Terminal(Found(p, prior, e.dst).value.status)))
  }

  ghost predicate RepairHolds(p: Plan, prior: Plan)
  {
    (forall x <- p.tasks :: LinkHolds(x, p, prior)) && (forall t <- Back(p, prior) :: ReturnHolds(t, p, prior))
  }

  lemma BackOpen(p: Plan, prior: Plan, id: string)
    requires UniqueIds(prior.tasks)
    ensures Lookup(Back(p, prior), id).Some? <==> id in Ids(Back(p, prior))
    ensures Lookup(Back(p, prior), id).Some? ==>
              id !in Ids(p.tasks) && !Terminal(Lookup(Back(p, prior), id).value.status)
  {
    if id in Ids(Back(p, prior)) {
      var t :| t in Back(p, prior) && t.id == id;
    }
  }

  lemma SoundIff(r: Plan, p: Plan, prior: Plan, x: Task, y: Task)
    requires Repaired(r, p, prior) && UniqueIds(prior.tasks)
    requires SoundLink(x, p, prior) && y.id == x.id && y.supersedes == x.supersedes
    ensures SoundLink(y, r, prior) <==>
            forall t <- Back(p, prior) :: !(t.id == Trim(x.supersedes) && Trim(t.supersedes) == x.id)
  {
    var s := Trim(x.supersedes);
    RepairedLookup(r, p, prior, s);
    BackOpen(p, prior, s);
    DroppedUnique(prior.tasks, Ids(p.tasks));
    if t :| t in Back(p, prior) && t.id == s {
      UniqueLookup(Back(p, prior), t);
      assert s in Ids(Back(p, prior));
    }
  }

  lemma ReroutedIff(r: Plan, p: Plan, prior: Plan, x: Task, y: Task)
    requires Repaired(r, p, prior) && UniqueIds(prior.tasks) && Structural(p)
    requires y.id == x.id && y.supersedes == x.supersedes
    ensures var s := Trim(x.supersedes);
            Rerouted(y, s, r, prior) <==>
            Rerouted(x, s, p, prior) && forall e <- prior.edges :: e.src == s ==> e.dst !in Ids(Back(p, prior))
  {
    forall e | e in prior.edges
      ensures Lookup(r.tasks, e.dst).Some? <==> Found(p, prior, e.dst).Some?
      ensures Lookup(r.tasks, e.dst).Some? ==>
                Lookup(r.tasks, e.dst).value.status == Found(p, prior, e.dst).value.status
      ensures Lookup(Back(p, prior), e.dst).Some? <==> e.dst in Ids(Back(p, prior))
      ensures e.dst in Ids(Back(p, prior)) ==>
                Found(p, prior, e.dst).Some? && !Terminal(Found(p, prior, e.dst).value.status) &&
                    Edge(x.id, e.dst) !in p.edges
    {
      RepairedLookup(r, p, prior, e.dst);
      BackOpen(p, prior, e.dst);
    }
  }

  lemma WaitsIff(r: Plan, p: Plan, prior: Plan, x: Task, y: Task, s: string)
    requires Repaired(r, p, prior) && Structural(p) && y.id == x.id
    ensures WaitsOn(y, s, r) <==> WaitsOn(x, s, p)
  {
    RepairedLookup(r, p, prior, s);
    if Edge(x.id, s) in p.edges {
      assert s in Ids(p.tasks);
    }
  }

  lemma LinkIff(r: Plan, p: Plan, prior: Plan, x: Task, y: Task)
    requires Repaired(r, p, prior) && UniqueIds(prior.tasks) && Structural(p)
    requires SoundLink(x, p, prior) && RoutedLink(x, p, prior) && y.id == x.id && y.supersedes == x.supersedes
    ensures SoundLink(y, r, prior) && RoutedLink(y, r, prior) <==> LinkHolds(x, p, prior)
  {
    var s := Trim(x.supersedes);
    SoundIff(r, p, prior, x, y);
    RepairedLookup(r, p, prior, s);
    BackOpen(p, prior, s);
    WaitsIff(r, p, prior, x, y, s);
    ReroutedIff(r, p, prior, x, y);
  }

  lemma ReturnIff(r: Plan, p: Plan, prior: Plan, t: Task)
    requires Repaired(r, p, prior) && UniqueIds(prior.tasks) && Structural(p) && t in Back(p, prior)
    ensures SoundLink(t, r, prior) && RoutedLink(t, r, prior) <==> ReturnHolds(t, p, prior)
  {
    var s := Trim(t.supersedes);
    RepairedLookup(r, p, prior, s);
    assert t.id !in Ids(p.tasks);
    BackComesFromPrior(p, prior, s);
    forall e | e in prior.edges
      ensures Lookup(r.tasks, e.dst).Some? <==> Found(p, prior, e.dst).Some?
      ensures Lookup(r.tasks, e.dst).Some? ==>
                Lookup(r.tasks, e.dst).value.status == Found(p, prior, e.dst).value.status
      ensures Edge(t.id, e.dst) !in r.edges
    {
      RepairedLookup(r, p, prior, e.dst);
    }
    assert !WaitsOn(t, s, r);
  }

  lemma BackComesFromPrior(p: Plan, prior: Plan, id: string)
    ensures Lookup(Back(p, prior), id).Some? ==> Lookup(prior.tasks, id).Some?
  {
    if Lookup(Back(p, prior), id).Some? {
      assert Lookup(Back(p, prior), id).value in prior.tasks;
      assert id in Ids(prior.tasks);
    }
  }

  /** In ledger mode, against a ledger-shaped plan, the repair keeps a valid revision valid exactly
      when every link of the revision holds against the tasks that come back, and theirs hold. */
  lemma RepairValidIff(p: Plan, prior: Plan)
    requires Structural(prior) && ValidRevision(p, Some(prior)) && HasLedgerShape(prior.tasks)
    ensures ValidRevision(LedgerRepair(true, p, Some(prior)), Some(prior)) <==> RepairHolds(p, prior)
  {
    var r := LedgerRepair(true, p, Some(prior));
    RepairedStructure(r, p, prior);
    forall i | 0 <= i < |p.tasks|
      ensures SoundLink(r.tasks[i], r, prior) && RoutedLink(r.tasks[i], r, prior) <==> LinkHolds(p.tasks[i], p, prior)
    {
      assert p.tasks[i] in p.tasks;
      LinkIff(r, p, prior, p.tasks[i], r.tasks[i]);
    }
    forall t | t in Back(p, prior)
      ensures SoundLink(t, r, prior) && RoutedLink(t, r, prior) <==> ReturnHolds(t, p, prior)
    {
      ReturnIff(r, p, prior, t);
    }
    LinksSplit(r, p, prior);
  }

  ghost predicate LinkOk(x: Task, r: Plan, prior: Plan)
  {
    SoundLink(x, r, prior) && RoutedLink(x, r, prior)
  }

  /** Checking the links of the repaired plan is checking both its parts. */
  lemma LinksSplit(r: Plan, p: Plan, prior: Plan)
    requires Repaired(r, p, prior)
    ensures (forall x <- r.tasks :: LinkOk(x, r, prior)) <==>
            && (forall i :: 0 <= i < |p.tasks| ==> LinkOk(r.tasks[i], r, prior))
            && (forall t <- Back(p, prior) :: LinkOk(t, r, prior))
  {
    var m, d := LedgerTasks(p.tasks, prior.tasks), Back(p, prior);
    if forall x <- r.tasks :: LinkOk(x, r, prior) {
      forall i | 0 <= i < |p.tasks| ensures LinkOk(r.tasks[i], r, prior) {
        assert r.tasks[i] in r.tasks;
      }
      forall t | t in d ensures LinkOk(t, r, prior) {
        assert t in r.tasks;
      }
    }
    if (forall i :: 0 <= i < |p.tasks| ==> LinkOk(r.tasks[i], r, prior)) && (forall t <- d :: LinkOk(t, r, prior)) {
      forall x | x in r.tasks ensures LinkOk(x, r, prior) {
        var i :| 0 <= i < |r.tasks| && r.tasks[i] == x;
        if i >= |p.tasks| {
          assert x == d[i - |p.tasks|];
        }
      }
    }
  }

  /** Open discovered tasks are isolated roots, as growth creates them. */
  ghost predicate IsolatedDiscoveries(p: Plan)
  {
    forall t <- p.tasks :: (t.kind.Discovery? || t.discovered) && !Terminal(t.status) ==>
      Trim(t.supersedes) == "" && forall e <- p.edges :: e.src != t.id && e.dst != t.id
  }

  lemma IsolatedBack(p: Plan, prior: Plan, t: Task)
    requires IsolatedDiscoveries(prior) && t in Back(p, prior)
    ensures Trim(t.supersedes) == "" && (forall e <- prior.edges :: e.dst != t.id) && ReturnHolds(t, p, prior)
  {
  }

  lemma IsolatedLink(p: Plan, prior: Plan, x: Task)
    requires IsolatedDiscoveries(prior) && x.id != ""
    ensures LinkHolds(x, p, prior)
  {
    forall t | t in Back(p, prior) ensures Trim(t.supersedes) == "" && forall e <- prior.edges :: e.dst != t.id {
      IsolatedBack(p, prior, t);
    }
  }

  /** Isolated discoveries come back without harm. */
  lemma RepairKeepsValid(ledger: bool, p: Plan, prior: Plan)
    requires Structural(prior) && IsolatedDiscoveries(prior) && ValidRevision(p, Some(prior))
    ensures ValidRevision(LedgerRepair(ledger, p, Some(prior)), Some(prior))
  {
    if ledger && HasLedgerShape(prior.tasks) {
      forall x | x in p.tasks ensures LinkHolds(x, p, prior) {
        IsolatedLink(p, prior, x);
      }
      forall t | t in Back(p, prior) ensures ReturnHolds(t, p, prior) {
        IsolatedBack(p, prior, t);
      }
      RepairValidIff(p, prior);
    }
  }

  // ----- what a user steer returns

  /** Only ledger fields, stamps and the revision index differ. */
  ghost predicate SameSubstance(q: Plan, p: Plan)
  {
    && q.edges == p.edges && |q.tasks| == |p.tasks|
    && forall i :: 0 <= i < |p.tasks| ==>
         q.tasks[i].id == p.tasks[i].id && q.tasks[i].status == p.tasks[i].status &&
             q.tasks[i].supersedes == p.tasks[i].supersedes
  }

  lemma SameSubstanceLookup(q: Plan, p: Plan, id: string)
    requires SameSubstance(q, p)
    ensures Lookup(q.tasks, id).Some? <==> Lookup(p.tasks, id).Some?
    ensures Lookup(q.tasks, id).Some? ==>
              && Lookup(q.tasks, id).value.status == Lookup(p.tasks, id).value.status
              && Lookup(q.tasks, id).value.supersedes == Lookup(p.tasks, id).value.supersedes
  {
    var i := SameIdLookup(q.tasks, p.tasks, id);
  }

  lemma SameSubstanceStructure(q: Plan, p: Plan)
    requires SameSubstance(q, p) && Structural(p)
    ensures Structural(q)
  {
    SameIds(q.tasks, p.tasks);
    forall t | t in q.tasks ensures t.id != "" {
      var i :| 0 <= i < |q.tasks| && q.tasks[i] == t;
      assert p.tasks[i] in p.tasks;
    }
  }

  lemma SameSubstanceLink(q: Plan, p: Plan, prior: Plan, i: nat)
    requires SameSubstance(q, p) && i < |p.tasks| && LinkOk(p.tasks[i], p, prior)
    ensures LinkOk(q.tasks[i], q, prior)
  {
    var x, y, s := p.tasks[i], q.tasks[i], Trim(p.tasks[i].supersedes);
    SameSubstanceLookup(q, p, s);
    if Rerouted(x, s, p, prior) {
      forall e | e in prior.edges && e.src == s
        ensures Lookup(q.tasks, e.dst).Some? && !Terminal(Lookup(q.tasks, e.dst).value.status) ==>
                Edge(y.id, e.dst) in q.edges
      {
        SameSubstanceLookup(q, p, e.dst);
      }
    }
  }

  /** The validator sees nothing else. */
  lemma SameSubstanceValid(q: Plan, p: Plan, prior: Plan)
    requires SameSubstance(q, p) && ValidRevision(p, Some(prior))
    ensures ValidRevision(q, Some(prior))
  {
    SameSubstanceStructure(q, p);
    forall id ensures Lookup(q.tasks, id).Some? <==> Lookup(p.tasks, id).Some? {
      SameSubstanceLookup(q, p, id);
    }
    forall e | e in p.edges ensures Lookup(p.tasks, e.src).Some? && Lookup(p.tasks, e.dst).Some? {
      assert e.src in Ids(p.tasks) && e.dst in Ids(p.tasks);
    }
    forall id | Lookup(p.tasks, id).Some? ensures Lookup(q.tasks, id).value.status == Lookup(p.tasks, id).value.status {
      SameSubstanceLookup(q, p, id);
    }
    forall x | x in q.tasks ensures LinkOk(x, q, prior) {
      var i :| 0 <= i < |q.tasks| && q.tasks[i] == x;
      assert p.tasks[i] in p.tasks;
      SameSubstanceLink(q, p, prior, i);
    }
  }

  lemma SameSubstanceIff(q: Plan, p: Plan, prior: Plan)
    requires SameSubstance(q, p)
    ensures ValidRevision(q, Some(prior)) <==> ValidRevision(p, Some(prior))
  {
    if ValidRevision(p, Some(prior)) {
      SameSubstanceValid(q, p, prior);
    }
    if ValidRevision(q, Some(prior)) {
      SameSubstanceValid(p, q, prior);
    }
  }

  /** Nothing is missing from the minimum, so the repair puts nothing back. */
  lemma MinimalPrepared(ledger: bool, p: Plan, reason: string, d: Drift)
    ensures SameSubstance(Prepared(ledger, Minimal(p, reason), Some(p), d), Minimal(p, reason))
  {
    MinimalFolds(p, reason);
    MinimalDropsNothing(p, reason);
    NothingBack(ledger, Minimal(p, reason), p);
  }

  lemma NothingBack(ledger: bool, q: Plan, p: Plan)
    requires Back(q, p) == []
    ensures SameSubstance(LedgerRepair(ledger, q, Some(p)), q)
  {
  }

  lemma MinimalFolds(p: Plan, reason: string)
    ensures Fold(Minimal(p, reason), Some(p)) == Minimal(p, reason)
  {
    var m := Minimal(p, reason);
    var f := Fold(m, Some(p));
    assert f.tasks == m.tasks;
  }

  lemma MinimalDropsNothing(p: Plan, reason: string)
    ensures Dropped(p.tasks, Ids(Minimal(p, reason).tasks)) == []
  {
    var m := Minimal(p, reason);
    SameIds(m.tasks, p.tasks);
    forall t | t in p.tasks ensures t.id in Ids(m.tasks) {
      assert t.id in Ids(p.tasks);
    }
    DroppedNone(p.tasks, Ids(m.tasks));
  }

  /** The folded planner revision, prepared, is its own repair up to stamps. */
  lemma FoldedPrepared(ledger: bool, p: Plan, llm: Plan, d: Drift)
    ensures SameSubstance(Prepared(ledger, Fold(llm, Some(p)), Some(p), d),
            LedgerRepair(ledger, Fold(llm, Some(p)), Some(p)))
  {
    FoldIdempotent(llm, Some(p));
  }

  /** The plan a user steer returns is a valid revision exactly when: the planner's folded revision
      validates and the ledger repair, where it applies, holds; or that revision is rejected or
      missing and the links of the current plan are sound. */
  lemma SteerReturnsValidIff(ledger: bool, p: Plan, llm: Option<Plan>, d: Drift, reason: string)
    requires Structural(p)
    ensures ValidRevision(Prepared(ledger, Chosen(p, llm, reason), Some(p), d), Some(p)) <==>
            if llm.Some? && ValidRevision(Fold(llm.value, Some(p)), Some(p))
            then !(ledger && HasLedgerShape(p.tasks)) || RepairHolds(Fold(llm.value, Some(p)), p)
            else LinksSound(p)
  {
    var c := Chosen(p, llm, reason);
    var q := Prepared(ledger, c, Some(p), d);
    if llm.Some? && ValidRevision(Fold(llm.value, Some(p)), Some(p)) {
      FoldedPrepared(ledger, p, llm.value, d);
      SameSubstanceIff(q, LedgerRepair(ledger, c, Some(p)), p);
      if ledger && HasLedgerShape(p.tasks) {
        RepairValidIff(c, p);
      }
    } else {
      MinimalPrepared(ledger, p, reason, d);
      SameSubstanceIff(q, c, p);
      MinimalValidIff(p, reason);
    }
  }
}
