/** What the operations on plans do to a task, field by field. */
module PlanFields {
  import opened Options
  import opened Text
  import opened Graph
  import opened Rewire
  import opened Plans
  import opened Revisions
  import opened Install
  import opened Steer
  import opened Runs
  import opened Validity
  import opened RepairValidity

  // ----- statuses

  /** Work that may still happen. */
  predicate Unfinished(s: Status)
  {
    s.Pending? || s.Running? || s.Blocked?
  }

  /** A task can end in four ways, and every other status is open. */
  lemma OpenOrEnded(s: Status)
    ensures Unfinished(s) <==> !Terminal(s)
    ensures Terminal(s) <==> s in {Completed, Failed, Cancelled, NotNeeded}
  {
  }

  // ----- the revision rules, said of tasks

  /** Every finished task and every edge between finished tasks is still there. */
  ghost predicate HistoryKept(p: Plan, prior: Plan)
  {
    && (forall t <- prior.tasks :: !Unfinished(t.status) ==>
          exists u :: u in p.tasks && u.id == t.id && u.status == t.status)
    && (forall e <- prior.edges, a <- prior.tasks, b <- prior.tasks ::
          e == Edge(a.id, b.id) && !Unfinished(a.status) && !Unfinished(b.status) ==> e in p.edges)
  }

  /** Nothing is pending behind a task that will not complete. */
  ghost predicate NothingStranded(p: Plan)
  {
    forall e <- p.edges, a <- p.tasks, b <- p.tasks ::
      e == Edge(a.id, b.id) && b.status.Pending? ==> a.status !in {Failed, Cancelled, NotNeeded}
  }

  /** The link names another task that one of the plans has and that does not name this one in turn. */
  ghost predicate LinkNamesTask(x: Task, p: Plan, prior: Plan)
  {
    var y := Trim(x.supersedes);
    && y != x.id
    && (y in Ids(prior.tasks) || y in Ids(p.tasks))
    && forall w <- p.tasks :: w.id == y ==> Trim(w.supersedes) != x.id
  }

  /** The superseded task was open and is not finished by the revision. */
  ghost predicate StillOpen(y: string, p: Plan, prior: Plan)
  {
    && (exists o :: o in prior.tasks && o.id == y && Unfinished(o.status))
    && (forall w <- p.tasks :: w.id == y ==> Unfinished(w.status))
  }

  /** The superseded task waits on this one, or every open task that waited on it waits on this one. */
  ghost predicate TakesTheRoute(x: Task, y: string, p: Plan, prior: Plan)
  {
    || (Edge(x.id, y) in p.edges && exists w :: w in p.tasks && w.id == y && w.status.Pending?)
    || forall e <- prior.edges, z <- p.tasks ::
         e == Edge(y, z.id) && Unfinished(z.status) ==> Edge(x.id, z.id) in p.edges
  }

  lemma HistoryIff(p: Plan, prior: Plan)
    requires Structural(p) && NamedTasks(prior.tasks)
    ensures KeepsTerminals(p, prior) <==> HistoryKept(p, prior)
  {
    forall t | t in prior.tasks
      ensures (Lookup(p.tasks, t.id).Some? && Lookup(p.tasks, t.id).value.status == t.status) <==>
              exists u :: u in p.tasks && u.id == t.id && u.status == t.status
    {
      if u :| u in p.tasks && u.id == t.id && u.status == t.status {
        UniqueLookup(p.tasks, u);
      }
    }
    EdgesKeptIff(p, prior);
  }

  lemma EdgesKeptIff(p: Plan, prior: Plan)
    ensures (forall e <- prior.edges :: TerminalIn(prior.tasks, e.src) && TerminalIn(prior.tasks, e.dst) ==>
              e in p.edges) <==>
            forall e <- prior.edges, a <- prior.tasks, b <- prior.tasks ::
              e == Edge(a.id, b.id) && !Unfinished(a.status) && !Unfinished(b.status) ==> e in p.edges
  {
    forall e | e in prior.edges && TerminalIn(prior.tasks, e.src) && TerminalIn(prior.tasks, e.dst)
      ensures exists a, b :: a in prior.tasks && b in prior.tasks && e == Edge(a.id, b.id) && !Unfinished(a.status) &&
                             !Unfinished(b.status)
    {
      var a :| a in prior.tasks && a.id == e.src && Terminal(a.status);
      var b :| b in prior.tasks && b.id == e.dst && Terminal(b.status);
      assert e == Edge(a.id, b.id);
    }
  }

  lemma StrandedIff(p: Plan)
    requires Structural(p)
    ensures Executable(p) <==> NothingStranded(p)
  {
    if Executable(p) {
      forall e, a, b | e in p.edges && a in p.tasks && b in p.tasks && e == Edge(a.id, b.id) && b.status.Pending?
        ensures a.status !in {Failed, Cancelled, NotNeeded}
      {
        UniqueLookup(p.tasks, a);
        UniqueLookup(p.tasks, b);
      }
    }
    if NothingStranded(p) {
      forall e | e in p.edges && Lookup(p.tasks, e.src).Some? && Lookup(p.tasks, e.dst).Some?
        ensures !(NeverCompletes(Lookup(p.tasks, e.src).value.status) && Lookup(p.tasks, e.dst).value.status.Pending?)
      {
        var a, b := Lookup(p.tasks, e.src).value, Lookup(p.tasks, e.dst).value;
        assert a in p.tasks && b in p.tasks && e == Edge(a.id, b.id);
      }
    }
  }

  lemma SoundIff(x: Task, p: Plan, prior: Plan)
    requires Structural(p) && Trim(x.supersedes) != ""
    ensures SoundLink(x, p, prior) <==> LinkNamesTask(x, p, prior)
  {
    var y := Trim(x.supersedes);
    KnownIff(p.tasks, y);
    KnownIff(prior.tasks, y);
    forall w | w in p.tasks && w.id == y ensures Lookup(p.tasks, y) == Some(w) {
      UniqueLookup(p.tasks, w);
    }
  }

  lemma StillOpenIff(y: string, p: Plan, prior: Plan)
    requires Structural(p) && NamedTasks(prior.tasks) && UniqueIds(prior.tasks)
    ensures StillOpen(y, p, prior) <==>
            && Lookup(prior.tasks, y).Some? && !Terminal(Lookup(prior.tasks, y).value.status)
            && !(Lookup(p.tasks, y).Some? && Terminal(Lookup(p.tasks, y).value.status))
  {
    forall o | o in prior.tasks && o.id == y ensures Lookup(prior.tasks, y) == Some(o) {
      UniqueLookup(prior.tasks, o);
    }
    forall w | w in p.tasks && w.id == y ensures Lookup(p.tasks, y) == Some(w) {
      UniqueLookup(p.tasks, w);
    }
  }

  lemma RouteIff(x: Task, y: string, p: Plan, prior: Plan)
    requires Structural(p)
    ensures WaitsOn(x, y, p) || Rerouted(x, y, p, prior) <==> TakesTheRoute(x, y, p, prior)
  {
    forall w | w in p.tasks ensures Lookup(p.tasks, w.id) == Some(w) {
      UniqueLookup(p.tasks, w);
    }
    if Rerouted(x, y, p, prior) {
      forall e, z | e in prior.edges && z in p.tasks && e == Edge(y, z.id) && Unfinished(z.status)
        ensures Edge(x.id, z.id) in p.edges
      {
        assert e.src == y && Lookup(p.tasks, e.dst) == Some(z);
      }
    }
    if forall e <- prior.edges, z <- p.tasks ::
         e == Edge(y, z.id) && Unfinished(z.status) ==> Edge(x.id, z.id) in p.edges
    {
      forall e | e in prior.edges && e.src == y && Lookup(p.tasks, e.dst).Some? &&
                 !Terminal(Lookup(p.tasks, e.dst).value.status)
        ensures Edge(x.id, e.dst) in p.edges
      {
        var z := Lookup(p.tasks, e.dst).value;
        assert z in p.tasks && e == Edge(y, z.id);
      }
    }
  }

  /** The rules a revision of a named plan has to meet beside its own structure, said of the tasks. */
  lemma RevisionValidIff(p: Plan, prior: Plan)
    requires Structural(p) && NamedTasks(prior.tasks) && UniqueIds(prior.tasks)
    ensures ValidRevision(p, Some(prior)) <==>
            && NothingStranded(p) && HistoryKept(p, prior)
            && forall x <- p.tasks :: Trim(x.supersedes) != "" ==>
                 && LinkNamesTask(x, p, prior)
                 && (StillOpen(Trim(x.supersedes), p, prior) ==> TakesTheRoute(x, Trim(x.supersedes), p, prior))
  {
    HistoryIff(p, prior);
    StrandedIff(p);
    forall x | x in p.tasks
      ensures SoundLink(x, p, prior) && RoutedLink(x, p, prior) <==>
              (Trim(x.supersedes) != "" ==>
                 && LinkNamesTask(x, p, prior)
                 && (StillOpen(Trim(x.supersedes), p, prior) ==> TakesTheRoute(x, Trim(x.supersedes), p, prior)))
    {
      if Trim(x.supersedes) != "" {
        SoundIff(x, p, prior);
        StillOpenIff(Trim(x.supersedes), p, prior);
        RouteIff(x, Trim(x.supersedes), p, prior);
      }
    }
  }

  // ----- corrections

  /** The task corrects another task of the plan; a task that merely replaces one does not. */
  predicate Corrects(t: Task, p: Plan)
  {
    t.supersedesKind == Correct && Trim(t.id) != "" && Trim(t.supersedes) != Trim(t.id) &&
    Trim(t.supersedes) in Ids(p.tasks) && Trim(t.supersedes) != ""
  }

  lemma KnownIff(ts: seq<Task>, id: string)
    ensures Lookup(ts, id).Some? <==> id != "" && id in Ids(ts)
  {
  }

  /** A correcting task contributes the one correction of its trimmed ids, any other task none. */
  lemma SingleCorrection(t: Task, p: Plan)
    ensures CorrectionsIn([t], p.tasks) ==
            if Corrects(t, p) then [Correction(Trim(t.supersedes), Trim(t.id))] else []
  {
    KnownIff(p.tasks, Trim(t.supersedes));
    assert [t][1..] == [];
  }

  /** Tasks contribute each on its own and in their order. */
  lemma {:induction false} CorrectionsInOrder(a: seq<Task>, b: seq<Task>, known: seq<Task>)
    ensures CorrectionsIn(a + b, known) == CorrectionsIn(a, known) + CorrectionsIn(b, known)
    decreases |a|
  {
    if a == [] {
      assert a + b == b;
    } else {
      assert (a + b)[1..] == a[1..] + b;
      CorrectionsInOrder(a[1..], b, known);
    }
  }

  lemma {:induction false} CorrectionMembers(ts: seq<Task>, p: Plan, c: Correction)
    ensures c in CorrectionsIn(ts, p.tasks) <==>
            exists t :: t in ts && Corrects(t, p) && c == Correction(Trim(t.supersedes), Trim(t.id))
    decreases |ts|
  {
    if ts != [] {
      var x, rest := ts[0], ts[1..];
      assert ts == [x] + rest;
      CorrectionsInOrder([x], rest, p.tasks);
      SingleCorrection(x, p);
      CorrectionMembers(rest, p, c);
    }
  }

  lemma SomeCorrects(p: Plan) returns (t: Task)
    requires CorrectionsOf(p) != []
    ensures t in p.tasks && Corrects(t, p)
  {
    var c := CorrectionsOf(p)[0];
    CorrectionMembers(p.tasks, p, c);
    t :| t in p.tasks && Corrects(t, p) && c == Correction(Trim(t.supersedes), Trim(t.id));
  }

  /** A plan whose links only replace is installed with its edges as they are. */
  lemma ReplacementsRewireNothing(p: Plan)
    requires forall t <- p.tasks :: t.supersedesKind != Correct
    ensures Integrated(p) == p
  {
    if CorrectionsOf(p) != [] {
      var t := SomeCorrects(p);
    }
  }

  // ----- the deterministic minimum

  /** Finished tasks are as they were, open ones are cancelled for the given reason. */
  lemma MinimalTasks(prior: Plan, reason: string)
    ensures var m := Minimal(prior, reason);
            && m.id == prior.id && |m.tasks| == |prior.tasks|
            && forall i :: 0 <= i < |prior.tasks| ==>
                 m.tasks[i] == if Unfinished(prior.tasks[i].status)
                               then prior.tasks[i].(status := Cancelled, cancelReason := reason)
                               else prior.tasks[i]
  {
  }

  /** The fields the ledger repair does not touch. */
  ghost predicate SameBut(u: Task, t: Task)
  {
    u.id == t.id && u.title == t.title && u.status == t.status && u.cancelReason == t.cancelReason
    && u.supersedes == t.supersedes && u.supersedesKind == t.supersedesKind
  }

  lemma MinimumPrepared(ledger: bool, p: Plan, reason: string, d: Drift)
    ensures var q, m := Prepared(ledger, Minimal(p, reason), Some(p), d), Minimal(p, reason);
            |q.tasks| == |m.tasks| && forall i :: 0 <= i < |m.tasks| ==> SameBut(q.tasks[i], m.tasks[i])
  {
    MinimalFolds(p, reason);
    MinimalDropsNothing(p, reason);
  }

  lemma SteerInstallsMinimum(cfg: Config, p: Plan, llm: Option<Plan>, d: Drift, reason: string, t: Task)
    requires llm.Some? ==> !ValidRevision(Fold(llm.value, Some(p)), Some(p))
    requires d.byUser && t in p.tasks && Unfinished(t.status)
    ensures Steered(cfg, p, llm, d, reason) == Integrated(Prepared(cfg.ledger, Minimal(p, reason), Some(p), d))
  {
    var k :| 0 <= k < |p.tasks| && p.tasks[k] == t;
    MinimalTasks(p, reason);
    assert Minimal(p, reason).tasks[k].status != p.tasks[k].status;
  }

  /** A user steer without a valid planner revision cancels exactly the open tasks of the live plan,
      whether or not steering is active. */
  lemma SteerCancels(cfg: Config, p: Plan, llm: Option<Plan>, d: Drift, reason: string, i: nat)
    requires llm.Some? ==> !ValidRevision(Fold(llm.value, Some(p)), Some(p))
    requires d.byUser && (exists t :: t in p.tasks && Unfinished(t.status)) && i < |p.tasks|
    ensures var s := Steered(cfg, p, llm, d, reason);
            && |s.tasks| == |p.tasks| && s.revision > p.revision
            && s.tasks[i].id == p.tasks[i].id && s.tasks[i].title == p.tasks[i].title
            && s.tasks[i].status == (if Unfinished(p.tasks[i].status) then Cancelled else p.tasks[i].status)
            && s.tasks[i].cancelReason == (if Unfinished(p.tasks[i].status) then reason else p.tasks[i].cancelReason)
  {
    var t :| t in p.tasks && Unfinished(t.status);
    SteerInstallsMinimum(cfg, p, llm, d, reason, t);
    MinimumPrepared(cfg.ledger, p, reason, d);
    MinimalTasks(p, reason);
    assert SameBut(Prepared(cfg.ledger, Minimal(p, reason), Some(p), d).tasks[i], Minimal(p, reason).tasks[i]);
  }

  // ----- which revisions count as a change

  /** Nothing that counts as a change sets the two plans apart. */
  ghost predicate Unchanged(f: Plan, p: Plan)
  {
    && |f.tasks| == |p.tasks|
    && (forall e :: e in f.edges <==> e in p.edges)
    && forall i :: 0 <= i < |p.tasks| ==>
         f.tasks[i].id == p.tasks[i].id && f.tasks[i].assignee == p.tasks[i].assignee
         && f.tasks[i].status == p.tasks[i].status
  }

  lemma UnchangedIff(p: Plan, f: Plan)
    ensures StructurallySame(p, f) <==> Unchanged(f, p)
  {
    assert forall e :: e in f.edges <==> e in SetOf(f.edges);
    assert forall e :: e in p.edges <==> e in SetOf(p.edges);
  }

  /** A valid revision that lands is installed as soon as its ids, assignees or statuses differ in some
      place, or its edges as a set; other differences alone are dropped. */
  lemma RefinementInstalls(cfg: Config, p: Plan, candidate: Plan, d: Drift)
    requires ValidRevision(Fold(candidate, Some(p)), Some(p))
    requires cfg.active || d.byUser || d.kind == "new_work_discovered"
    ensures var f := Fold(candidate, Some(p));
            Refined(cfg, p, candidate, d) ==
            if Unchanged(f, p) then p else Integrated(Prepared(cfg.ledger, f, Some(p), d))
  {
    UnchangedIff(p, Fold(candidate, Some(p)));
  }

  /** An invalid revision, or one that does not land, changes nothing. */
  lemma RefinementRefused(cfg: Config, p: Plan, candidate: Plan, d: Drift)
    requires !ValidRevision(Fold(candidate, Some(p)), Some(p)) ||
             !(cfg.active || d.byUser || d.kind == "new_work_discovered")
    ensures Refined(cfg, p, candidate, d) == p
  {
  }

  /** A user steer installs what it selects, the planner's revision when it is valid and the minimum
      otherwise, unless that changes nothing or does not land. */
  lemma SteerInstalls(cfg: Config, p: Plan, llm: Option<Plan>, d: Drift, reason: string)
    ensures var valid := llm.Some? && ValidRevision(Fold(llm.value, Some(p)), Some(p));
            var c := if valid then Fold(llm.value, Some(p)) else Minimal(p, reason);
            Steered(cfg, p, llm, d, reason) ==
            if Unchanged(c, p) || !(cfg.active || d.byUser || d.kind == "new_work_discovered") then p
            else Integrated(Prepared(cfg.ledger, c, Some(p), d))
  {
    UnchangedIff(p, Chosen(p, llm, reason));
  }

  // ----- the repairs

  /** A recorded end comes back with its reason, unless the candidate gives one of its own. */
  lemma FoldedFields(p: Plan, prior: Plan, i: nat, w: Task)
    requires i < |p.tasks| && UniqueIds(prior.tasks) && w in prior.tasks && w.id == p.tasks[i].id && w.id != ""
    ensures var t := p.tasks[i];
            Fold(p, Some(prior)).tasks[i] ==
            if Unfinished(t.status) && !Unfinished(w.status)
            then t.(status := w.status, cancelReason := if t.cancelReason != "" then t.cancelReason else w.cancelReason)
            else t
  {
    TerminalLookup(prior.tasks, w);
  }

  lemma TerminalLookup(ts: seq<Task>, w: Task)
    requires UniqueIds(ts) && w in ts && w.id != ""
    ensures Lookup(TerminalTasks(ts), w.id) == if Unfinished(w.status) then None else Some(w)
  {
    var r := Lookup(TerminalTasks(ts), w.id);
    assert forall t <- TerminalTasks(ts) :: t in ts && (t.id == w.id ==> t == w);
    if !Unfinished(w.status) {
      assert w in TerminalTasks(ts);
      assert w.id in Ids(TerminalTasks(ts));
    }
  }

  /** A task the prior plan did not have is left alone by the fold. */
  lemma FoldLeavesNew(p: Plan, prior: Plan, i: nat)
    requires i < |p.tasks| && p.tasks[i].id !in Ids(prior.tasks)
    ensures Fold(p, Some(prior)).tasks[i] == p.tasks[i]
  {
    assert forall t <- TerminalTasks(prior.tasks) :: t in prior.tasks;
  }

  function FirstOf(a: string, b: string): (r: string)
  {
    if a == "" then b else a
  }

  /** The ledger repair, for a task the ledger knows: kind and identity come from the ledger, a
      recorded hash and contribution win, an assignee of the revision's own wins. */
  lemma RepairedFields(p: Plan, prior: Plan, i: nat, w: Task)
    requires i < |p.tasks| && UniqueIds(prior.tasks) && w in prior.tasks && w.id == p.tasks[i].id && w.id != ""
    requires w.kind != Forecast
    ensures var t, u := p.tasks[i], LedgerRepair(true, p, Some(prior)).tasks[i];
            && SameBut(u, t) && u.kind == w.kind
            && (u.discovered <==> w.discovered || t.discovered)
            && u.identityHash == FirstOf(w.identityHash, t.identityHash)
            && u.contributesTo == FirstOf(w.contributesTo, t.contributesTo)
            && u.assignee == FirstOf(t.assignee, w.assignee)
  {
    FoundUnique(prior.tasks, w);
  }

  lemma FoundUnique(ts: seq<Task>, w: Task)
    requires UniqueIds(ts) && w in ts && w.id != ""
    ensures Lookup(ts, w.id) == Some(w)
  {
    var r := Lookup(ts, w.id);
    assert w.id in Ids(ts);
  }

  /** A task new to a ledger-shaped plan becomes an outcome unless it is labelled already. */
  lemma NewTaskIsOutcome(p: Plan, prior: Plan, i: nat)
    requires i < |p.tasks| && p.tasks[i].id !in Ids(prior.tasks)
    requires exists w :: w in prior.tasks && w.kind != Forecast
    ensures var t, u := p.tasks[i], LedgerRepair(true, p, Some(prior)).tasks[i];
            u == if t.kind == Forecast then t.(kind := Outcome) else t
  {
  }

  /** Against a plan that was no ledger, and outside ledger mode, nothing is repaired. */
  lemma NothingRepaired(ledger: bool, p: Plan, prior: Plan)
    requires !ledger || forall w <- prior.tasks :: w.kind == Forecast
    ensures LedgerRepair(ledger, p, Some(prior)) == p
  {
  }

  /** A task known to the ledger as a forecast keeps what the revision says. */
  lemma ForecastStays(p: Plan, prior: Plan, i: nat, w: Task)
    requires i < |p.tasks| && UniqueIds(prior.tasks) && w in prior.tasks && w.id == p.tasks[i].id && w.id != ""
    requires w.kind == Forecast
    ensures LedgerRepair(true, p, Some(prior)).tasks[i] == p.tasks[i]
  {
    FoundUnique(prior.tasks, w);
  }

  /** Exactly the open discovered tasks that the revision drops come back, after its own tasks. */
  lemma ReturnedTasks(p: Plan, prior: Plan, t: Task)
    requires exists w :: w in prior.tasks && w.kind != Forecast
    ensures t in LedgerRepair(true, p, Some(prior)).tasks[|p.tasks|..] <==>
            && t in prior.tasks && t.id != "" && t.id !in Ids(p.tasks)
            && (t.kind == Discovery || t.discovered) && Unfinished(t.status)
  {
    var r := LedgerRepair(true, p, Some(prior)).tasks;
    assert r[|p.tasks|..] == Dropped(prior.tasks, Ids(p.tasks));
  }

  // ----- growth

  /** A growth that lands appends one pending discovered task with the given title, assignee and hash,
      adds no edge, and stamps the plan with its drift. */
  lemma GrownFields(cfg: Config, p: Plan, id: string, title: string, agent: string, hash: string, d: Drift)
    requires Grown(cfg, p, id, title, agent, hash, d) != p
    ensures var q := Grown(cfg, p, id, title, agent, hash, d);
            && |q.tasks| == |p.tasks| + 1 && q.tasks[..|p.tasks|] == p.tasks && q.edges == p.edges && q.id == p.id
            && q.revision == p.revision + 1 && q.stamp == Stamp(d.kind, d.severity, d.detail, d.trigger)
            && var t := q.tasks[|p.tasks|];
               && t.id == id && t.title == title && t.assignee == agent && t.status == Pending
               && t.discovered && t.identityHash == hash && t.kind == (if cfg.ledger then Discovery else Forecast)
               && t.supersedes == "" && t.cancelReason == "" && t.contributesTo == ""
  {
  }

  /** With a fresh id, growth lands exactly when no open discovered task has the hash, though finished
      ones may, and the current plan is a valid revision of itself. */
  lemma GrowsIff(cfg: Config, p: Plan, id: string, title: string, agent: string, hash: string, d: Drift)
    requires Unmentioned(p, id)
    ensures Grown(cfg, p, id, title, agent, hash, d) != p <==>
            && (forall t <- p.tasks :: t.discovered && t.identityHash == hash ==> !Unfinished(t.status))
            && ValidRevision(p, Some(p))
  {
    if forall t <- p.tasks :: t.discovered && t.identityHash == hash ==> !Unfinished(t.status) {
      GrowthLandsIff(cfg, p, id, title, agent, hash, d);
    } else {
      assert AlreadyGrown(p, hash);
    }
  }

  // ----- stamps

  /** What the revision says about its cause stays; the drift fills in what it leaves blank, and the
      index is its own or the next one, whichever is higher. */
  lemma StampFields(ledger: bool, p: Plan, prior: Plan, d: Drift)
    ensures var q := Prepared(ledger, p, Some(prior), d);
            && q.stamp.kind == FirstOf(p.stamp.kind, d.kind)
            && q.stamp.severity == FirstOf(p.stamp.severity, d.severity)
            && q.stamp.reason == FirstOf(p.stamp.reason, d.detail)
            && q.stamp.trigger == FirstOf(p.stamp.trigger, d.trigger)
            && q.revision == (if p.revision > prior.revision then p.revision else prior.revision + 1)
            && q.id == p.id
  {
  }

  // ----- transitions

  /** A transition gives an open task its new status, and nothing else of the plan changes. */
  lemma TransitionFields(p: Plan, id: string, status: Status, i: nat)
    requires WellNamed(p) && i < |p.tasks|
    ensures var q := Transitioned(p, id, status);
            && q == p.(tasks := q.tasks) && |q.tasks| == |p.tasks|
            && q.tasks[i] == if p.tasks[i].id == id && Unfinished(p.tasks[i].status)
                             then p.tasks[i].(status := status) else p.tasks[i]
  {
    var q := Transitioned(p, id, status);
    if q != p {
      SetStatusAt(p.tasks, id, status, i);
      var t := Lookup(p.tasks, id).value;
      assert p.tasks[i].id == id ==> p.tasks[i] == t;
    } else if p.tasks[i].id == id {
      assert p.tasks[i] in p.tasks;
      FoundUnique(p.tasks, p.tasks[i]);
      TransitionSame(p, id, status, i);
    }
  }

  lemma TransitionSame(p: Plan, id: string, status: Status, i: nat)
    requires WellNamed(p) && i < |p.tasks| && p.tasks[i].id == id && Transitioned(p, id, status) == p
    requires Lookup(p.tasks, id) == Some(p.tasks[i])
    ensures Unfinished(p.tasks[i].status) ==> p.tasks[i].status == status
  {
    if Unfinished(p.tasks[i].status) {
      SetStatusAt(p.tasks, id, status, i);
    }
  }
}
