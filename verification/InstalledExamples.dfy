/** Valid revisions whose installation breaks a rule that they kept. */
module InstalledExamples {
  import opened Options
  import opened Text
  import opened Graph
  import opened Rewire
  import opened RewireSettle
  import opened Arrivals
  import opened Plans
  import opened Revisions
  import opened Install
  import opened Steer
  import opened Runs
  import opened Validity
  import opened InstalledPlans

  /** Task ids as a planner writes them. */
  ghost predicate Named(id: string)
  {
    id != "" && Trim(id) == id
  }

  function Sketch(ts: seq<Task>, es: seq<Edge>): (r: Plan)
  {
    Plan("p", ts, es, 1, Stamp("", "", "", ""))
  }

  lemma {:induction false} PlainTasks(ts: seq<Task>, known: seq<Task>)
    requires forall t <- ts :: !t.supersedesKind.Correct?
    ensures CorrectionsIn(ts, known) == []
  {
    if ts != [] {
      assert ts[0] in ts;
      PlainTasks(ts[1..], known);
    }
  }

  lemma {:induction false} CorrectionsConcat(a: seq<Task>, b: seq<Task>, known: seq<Task>)
    ensures CorrectionsIn(a + b, known) == CorrectionsIn(a, known) + CorrectionsIn(b, known)
  {
    if a == [] {
      assert a + b == b;
    } else {
      assert (a + b)[1..] == a[1..] + b;
      CorrectionsConcat(a[1..], b, known);
    }
  }

  /** A plan of plain tasks and one correction carries just that correction. */
  lemma OneCorrection(ts: seq<Task>, n: string, o: string)
    requires (forall t <- ts :: t.supersedes == "" && !t.supersedesKind.Correct?)
    requires Named(n) && Named(o) && n != o && o in Ids(ts)
    ensures var all := ts + [Node(n, Pending, o)]; CorrectionsIn(all, all) == [Correction(o, n)]
  {
    var x := Node(n, Pending, o);
    var all := ts + [x];
    PlainTasks(ts, all);
    CorrectionsConcat(ts, [x], all);
    IdsConcat(ts, [x]);
    assert Lookup(all, o).Some?;
    assert [x][1..] == [];
    assert CorrectionsIn([x], all) == [Correction(o, n)] + CorrectionsIn([], all);
  }

  lemma PlainLinks(t: Task, p: Plan, prior: Plan)
    requires t.supersedes == ""
    ensures SoundLink(t, p, prior) && RoutedLink(t, p, prior)
  {
    assert Trim("") == "";
  }

  lemma CorrectionLinks(x: Task, o: string, p: Plan, prior: Plan)
    requires x.supersedes == o && Named(o) && x.id != o
    requires Lookup(prior.tasks, o).Some? && Terminal(Lookup(prior.tasks, o).value.status)
    requires Lookup(p.tasks, o).Some? && Lookup(p.tasks, o).value.supersedes == "" && x.id != ""
    ensures SoundLink(x, p, prior) && RoutedLink(x, p, prior)
  {
    assert Trim("") == "";
  }

  lemma CorrectionLookups(ts: seq<Task>, x: Task, id: string)
    requires UniqueIds(ts) && NamedTasks(ts) && x.id !in Ids(ts)
    ensures id in Ids(ts) ==> Lookup(ts, id).Some? && Lookup(ts + [x], id) == Lookup(ts, id)
  {
    if id in Ids(ts) {
      ExtendedLookup(ts, x, id);
      var t :| t in ts && t.id == id;
      UniqueLookup(ts, t);
    }
  }

  lemma CorrectionStructure(ts: seq<Task>, es: seq<Edge>, x: Task)
    requires UniqueIds(ts) && NamedTasks(ts) && x.id != "" && x.id !in Ids(ts) && (forall t <- ts :: Terminal(t.status))
    requires Acyclic(SetOf(es)) && forall e <- es :: e.src in Ids(ts) && e.dst in Ids(ts)
    ensures var p, prior := Sketch(ts + [x], es), Sketch(ts, es);
            Structural(p) && Executable(p) && KeepsTerminals(p, prior)
  {
    var p := Sketch(ts + [x], es);
    IdsConcat(ts, [x]);
    forall i | 0 <= i < |ts| ensures ts[i].id != x.id {
      assert ts[i] in ts && ts[i].id in Ids(ts);
    }
    assert UniqueIds(p.tasks);
    forall t | t in ts ensures Lookup(p.tasks, t.id) == Some(t) {
      assert t.id in Ids(ts);
      CorrectionLookups(ts, x, t.id);
      UniqueLookup(ts, t);
    }
    forall e | e in es ensures Lookup(p.tasks, e.dst).Some? && !Lookup(p.tasks, e.dst).value.status.Pending? {
      CorrectionLookups(ts, x, e.dst);
    }
  }

  /** Adding one pending correction of a finished task, and no edge, is a valid revision. */
  lemma CorrectionValid(ts: seq<Task>, es: seq<Edge>, n: string, o: string)
    requires UniqueIds(ts) && NamedTasks(ts) && (forall t <- ts :: t.supersedes == "" && Terminal(t.status))
    requires Named(n) && Named(o) && n !in Ids(ts) && o in Ids(ts)
    requires Acyclic(SetOf(es)) && forall e <- es :: e.src in Ids(ts) && e.dst in Ids(ts)
    ensures ValidRevision(Sketch(ts + [Node(n, Pending, o)], es), Some(Sketch(ts, es)))
  {
    var x := Node(n, Pending, o);
    var p, prior := Sketch(ts + [x], es), Sketch(ts, es);
    CorrectionStructure(ts, es, x);
    CorrectionLookups(ts, x, o);
    forall t | t in p.tasks ensures SoundLink(t, p, prior) && RoutedLink(t, p, prior) {
      if t == x {
        CorrectionLinks(x, o, p, prior);
      } else {
        PlainLinks(t, p, prior);
      }
    }
  }

  // ----- a correction that can never run

  lemma FailedCorrected(o: string, n: string) returns (prior: Plan, p: Plan)
    requires Named(o) && Named(n) && o != n
    ensures ValidRevision(p, Some(prior)) && CorrectionsOf(p) == [Correction(o, n)]
    ensures p.edges == [] && p.tasks == [Node(o, Failed, "")] + [Node(n, Pending, o)]
  {
    var ts := [Node(o, Failed, "")];
    prior, p := Sketch(ts, []), Sketch(ts + [Node(n, Pending, o)], []);
    assert ts[0] in ts && ts[0].id in Ids(ts);
    assert SetOf([]) == {};
    NoEdgesAcyclic();
    CorrectionValid(ts, [], n, o);
    OneCorrection(ts, n, o);
  }

  /** Correcting a failed task validates and its one correction is safe, yet the installed plan holds
      the correction behind the failed task for good, and refuses all growth. */
  lemma FailedTaskCorrected(o: string, n: string, cfg: Config, id: string, title: string, agent: string, hash: string,
      d: Drift)
    requires Named(o) && Named(n) && o != n
    ensures exists prior, p ::
              && ValidRevision(p, Some(prior))
              && SafeAll(SetOf(p.edges), CorrectionsOf(p))
              && !Executable(Integrated(p))
              && Grown(cfg, Integrated(p), id, title, agent, hash, d) == Integrated(p)
  {
    var prior, p := FailedCorrected(o, n);
    var c, r := Correction(o, n), Integrated(p);
    SafeOnNothing(c);
    assert SetOf(p.edges) == {};
    var x, y := p.tasks[0], p.tasks[1];
    UniqueLookup(p.tasks, x);
    UniqueLookup(p.tasks, y);
    assert Blocks(p, LinkOf(c));
    LinkRests(CorrectionsOf(p), 0);
    NoEdgesAcyclic();
    InstalledExecutableIff(p);
    GrowthRefused(cfg, r, id, title, agent, hash, d);
  }

  lemma SafeOnNothing(c: Correction)
    requires c.was != c.now
    ensures SafeAll({}, [c])
  {
    assert [c][1..] == [];
    forall p ensures !Walk({}, c.now, p, c.was) {
    }
  }

  lemma KeptLookup(p: seq<Task>, t: Task, id: string)
    requires UniqueIds(p + [t]) && Lookup(p, id).Some?
    ensures Lookup(p + [t], id) == Lookup(p, id)
  {
    var k :| 0 <= k < |p| && p[k] == Lookup(p, id).value;
    assert (p + [t])[k].id == id && (p + [t])[|p|] == t;
    ExtendedLookup(p, t, id);
  }

  lemma StillBlocks(p: Plan, q: Plan, t: Task, e: Edge)
    requires Blocks(p, e) && q.tasks == p.tasks + [t] && UniqueIds(p.tasks + [t])
    ensures Blocks(q, e)
  {
    KeptLookup(p.tasks, t, e.src);
    KeptLookup(p.tasks, t, e.dst);
  }

  lemma ExtendedBlocked(p: Plan, q: Plan, t: Task)
    requires !Executable(p) && q.tasks == p.tasks + [t] && q.edges == p.edges && UniqueIds(q.tasks)
    ensures !Executable(q)
  {
    var e :| e in p.edges && Blocks(p, e);
    StillBlocks(p, q, t, e);
    assert e in q.edges;
  }

  lemma GrowthRefused(cfg: Config, p: Plan, id: string, title: string, agent: string, hash: string, d: Drift)
    requires !Executable(p)
    ensures Grown(cfg, p, id, title, agent, hash, d) == p
  {
    var q := Extended(cfg.ledger, p, id, title, agent, hash, d);
    if UniqueIds(q.tasks) {
      ExtendedBlocked(p, q, GrownTask(cfg.ledger, id, title, agent, hash));
    }
  }

  // ----- a terminal edge that is lost

  lemma CompletedCorrected(o: string, u: string, n: string) returns (prior: Plan, p: Plan)
    requires Named(o) && Named(u) && Named(n) && o != u && o != n && u != n
    ensures ValidRevision(p, Some(prior)) && CorrectionsOf(p) == [Correction(o, n)]
    ensures prior == Sketch([Node(o, Completed, ""), Node(u, Completed, "")], [Edge(o, u)])
    ensures p == Sketch(prior.tasks + [Node(n, Pending, o)], [Edge(o, u)])
  {
    var ts, es := [Node(o, Completed, ""), Node(u, Completed, "")], [Edge(o, u)];
    prior, p := Sketch(ts, es), Sketch(ts + [Node(n, Pending, o)], es);
    assert ts[0] in ts && ts[1] in ts && ts[0].id in Ids(ts) && ts[1].id in Ids(ts);
    RankedAcyclic(SetOf(es), x => if x == o then 0 else 1);
    CorrectionValid(ts, es, n, o);
    OneCorrection(ts, n, o);
  }

  /** Two completed tasks, an edge between them, and a correction of the first: the revision is valid,
      and the user steer that installs it drops the edge. */
  lemma TerminalEdgeLost(cfg: Config, o: string, u: string, n: string, d: Drift, reason: string)
    requires Named(o) && Named(u) && Named(n) && o != u && o != n && u != n &&
            Lands(cfg.active, Some(Sketch([], [])), d)
    ensures exists prior, p ::
              && ValidRevision(p, Some(prior))
              && TerminalEdge(prior, Edge(o, u))
              && Edge(o, u) !in Steered(cfg, prior, Some(p), d, reason).edges
              && !KeepsTerminals(Steered(cfg, prior, Some(p), d, reason), prior)
  {
    var prior, p := CompletedCorrected(o, u, n);
    var e := Edge(o, u);
    var q := Prepared(cfg.ledger, p, Some(prior), d);
    CompletedSteered(cfg, prior, p, d, reason);
    assert prior.tasks[0] in prior.tasks && prior.tasks[1] in prior.tasks && prior.edges[0] == e;
    assert TerminalEdge(prior, e);
    MovedAway(q, o, u, n);
  }

  lemma CompletedSteered(cfg: Config, prior: Plan, p: Plan, d: Drift, reason: string)
    requires ValidRevision(p, Some(prior)) && |p.tasks| > |prior.tasks| && Lands(cfg.active, Some(prior), d)
    requires UniqueIds(prior.tasks) && forall t <- prior.tasks :: t in p.tasks && Terminal(t.status) && t.kind.Forecast?
    ensures var q := Prepared(cfg.ledger, p, Some(prior), d);
            && q.tasks == p.tasks && q.edges == p.edges
            && Steered(cfg, prior, Some(p), d, reason) == Integrated(q)
  {
    TerminalsFold(p, prior);
  }

  lemma MovedAway(q: Plan, o: string, u: string, n: string)
    requires CorrectionsOf(q) == [Correction(o, n)] && q.edges == [Edge(o, u)] && o != n && u != n
    ensures Edge(o, u) !in Integrated(q).edges
  {
    assert q.edges[0] == Edge(o, u);
    assert Correction(o, n) in CorrectionsOf(q);
    InstalledKeepsEdge(q, Edge(o, u));
  }

  /** Nothing to fold and nothing to repair in a forecast plan that keeps its finished tasks. */
  lemma TerminalsFold(p: Plan, prior: Plan)
    requires UniqueIds(p.tasks) && NamedTasks(p.tasks) && UniqueIds(prior.tasks)
    requires forall t <- prior.tasks :: t in p.tasks && Terminal(t.status) && t.kind.Forecast?
    ensures Fold(p, Some(prior)) == p && !HasLedgerShape(prior.tasks)
  {
    var f := Fold(p, Some(prior));
    forall i | 0 <= i < |p.tasks| ensures f.tasks[i] == p.tasks[i] {
      var was := Lookup(TerminalTasks(prior.tasks), p.tasks[i].id);
      if was.Some? {
        UniqueLookup(p.tasks, was.value);
        UniqueLookup(p.tasks, p.tasks[i]);
      }
    }
    assert f.tasks == p.tasks;
  }
}
