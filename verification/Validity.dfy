/** When growth is accepted, and when the installed plan is structurally valid. */
module Validity {
  import opened Options
  import opened Text
  import opened Graph
  import opened Rewire
  import opened RewireLoop
  import opened RewireSettle
  import opened Arrivals
  import opened Plans
  import opened Install
  import opened Steer
  import opened Runs

  // ----- growth

  /** Nothing in the plan mentions `id`. */
  ghost predicate Unmentioned(p: Plan, id: string)
  {
    && id != ""
    && id !in Ids(p.tasks)
    && (forall e <- p.edges :: e.src != id && e.dst != id)
    && (forall t <- p.tasks :: Trim(t.supersedes) != id)
  }

  lemma ExtendedLookup(p: seq<Task>, t: Task, id: string)
    requires id != t.id
    ensures Lookup(p + [t], id) == Lookup(p, id)
  {
    LookupPrefix(p, [t], id);
  }

  lemma ExtendedStructure(p: Plan, q: Plan, t: Task)
    requires Unmentioned(p, t.id) && q.edges == p.edges && q.tasks == p.tasks + [t] && t.status.Pending?
    ensures Structural(q) <==> Structural(p)
    ensures Executable(q) <==> Executable(p)
  {
    forall i | 0 <= i < |p.tasks| ensures q.tasks[i] == p.tasks[i] && p.tasks[i].id in Ids(p.tasks) &&
        p.tasks[i] in q.tasks {
    }
    assert Ids(q.tasks) == Ids(p.tasks) + {t.id};
    assert UniqueIds(q.tasks) <==> UniqueIds(p.tasks);
    forall e | e in p.edges
      ensures Lookup(q.tasks, e.src) == Lookup(p.tasks, e.src) && Lookup(q.tasks, e.dst) == Lookup(p.tasks, e.dst)
    {
      ExtendedLookup(p.tasks, t, e.src);
      ExtendedLookup(p.tasks, t, e.dst);
    }
  }

  lemma ExtendedLinks(p: Plan, q: Plan, t: Task, x: Task)
    requires Unmentioned(p, t.id) && q.edges == p.edges && q.tasks == p.tasks + [t] && x in p.tasks
    ensures SoundLink(x, q, p) <==> SoundLink(x, p, p)
    ensures RoutedLink(x, q, p) <==> RoutedLink(x, p, p)
  {
    var y := Trim(x.supersedes);
    ExtendedLookup(p.tasks, t, y);
    forall e | e in p.edges ensures Lookup(q.tasks, e.dst) == Lookup(p.tasks, e.dst) {
      ExtendedLookup(p.tasks, t, e.dst);
    }
  }

  lemma ExtendedKeeps(p: Plan, q: Plan, t: Task)
    requires Unmentioned(p, t.id) && q.edges == p.edges && q.tasks == p.tasks + [t] && NamedTasks(p.tasks)
    ensures KeepsTerminals(q, p) <==> KeepsTerminals(p, p)
  {
    forall u | u in p.tasks ensures Lookup(q.tasks, u.id) == Lookup(p.tasks, u.id) {
      assert u.id in Ids(p.tasks);
      ExtendedLookup(p.tasks, t, u.id);
    }
  }

  /** With a freshly minted id, growth is accepted exactly when the current plan would validate as
      a revision of itself. */
  lemma GrowthLandsIff(cfg: Config, p: Plan, id: string, title: string, agent: string, hash: string, d: Drift)
    requires Unmentioned(p, id) && !AlreadyGrown(p, hash)
    ensures Grown(cfg, p, id, title, agent, hash, d) != p <==> ValidRevision(p, Some(p))
  {
    var t := GrownTask(cfg.ledger, id, title, agent, hash);
    var q := Extended(cfg.ledger, p, id, title, agent, hash, d);
    assert Trim("") == "";
    ExtendedStructure(p, q, t);
    if Structural(p) {
      ExtendedKeeps(p, q, t);
    }
    forall x | x in p.tasks
      ensures SoundLink(x, q, p) <==> SoundLink(x, p, p)
      ensures RoutedLink(x, q, p) <==> RoutedLink(x, p, p)
      ensures x in q.tasks
    {
      ExtendedLinks(p, q, t, x);
    }
    assert SoundLink(t, q, p) && RoutedLink(t, q, p);
    assert q.revision != p.revision;
  }

  /** The plan left by replacing and dropping an open task admits no growth at all. */
  lemma ReplacedTaskBlocksGrowth(cfg: Config, id: string, title: string, agent: string, hash: string, d: Drift)
    requires id != "" && id != "x" && id != "y"
    ensures var p := Single(Open("x", "y")); Grown(cfg, p, id, title, agent, hash, d) == p
  {
    var p := Single(Open("x", "y"));
    assert Trim("y") == "y";
    assert p.tasks[..0] == [];
    assert Lookup(p.tasks, "y") == None;
    assert p.tasks[0] in p.tasks && !SoundLink(p.tasks[0], p, p);
    GrowthLandsIff(cfg, p, id, title, agent, hash, d);
  }

  // ----- integration

  /** Every correcting task is in the plan under its trimmed id. */
  ghost predicate CorrectorsKnown(p: Plan)
  {
    forall c <- CorrectionsOf(p) :: c.now in Ids(p.tasks)
  }

  lemma {:induction false} CorrectedKnown(ts: seq<Task>, known: seq<Task>)
    ensures forall c <- CorrectionsIn(ts, known) :: c.was in Ids(known)
  {
    if ts != [] {
      CorrectedKnown(ts[1..], known);
    }
  }

  lemma {:induction false} RewireAllKnown(E: set<Edge>, cs: seq<Correction>, ids: set<string>)
    requires forall e <- E :: e.src in ids && e.dst in ids
    requires forall c <- cs :: c.was in ids && c.now in ids
    ensures forall e <- RewireAll(E, cs) :: e.src in ids && e.dst in ids
    decreases |cs|
  {
    if cs != [] {
      assert cs[0] in cs;
      RewireAllKnown(RewireOne(E, cs[0]), cs[1..], ids);
    }
  }

  /** Whether or not a plan has corrections, its integrated edges are what the loop computes. */
  lemma IntegratedEdges(p: Plan)
    ensures SetOf(Integrated(p).edges) == SetOf(Integrate(p.edges, CorrectionsOf(p)))
  {
    DropRepeatsMeaning(p.edges);
  }

  /** The target of every link is the target of some rewired edge. */
  lemma LinkTargetArrives(E: set<Edge>, cs: seq<Correction>, c: Correction)
    requires c in cs
    ensures exists e :: e in RewireAll(E, cs) && e.dst == c.now
  {
    var i :| 0 <= i < |cs| && cs[i] == c;
    var e := Travel(LinkOf(cs[i]), cs[i + 1..]);
    assert Arrives(E, cs, e);
    RewireAllArrives(E, cs, e);
  }

  /** The installed plan is structurally valid again exactly when each correction is safe where it is
      applied and every correcting task is known. */
  lemma IntegratedStructuralIff(p: Plan)
    requires Structural(p)
    ensures Structural(Integrated(p)) <==> SafeAll(SetOf(p.edges), CorrectionsOf(p)) && CorrectorsKnown(p)
  {
    var cs, E, r := CorrectionsOf(p), SetOf(p.edges), Integrated(p);
    IntegratedEdges(p);
    IntegrateAcyclicIff(p.edges, cs);
    if SafeAll(E, cs) {
      assert forall e :: e in r.edges <==> e in SetOf(r.edges);
      if CorrectorsKnown(p) {
        CorrectedKnown(p.tasks, p.tasks);
        RewireAllKnown(E, cs, Ids(p.tasks));
      } else {
        var c :| c in cs && c.now !in Ids(p.tasks);
        LinkTargetArrives(E, cs, c);
      }
    }
  }

  function Node(id: string, status: Status, supersedes: string): (r: Task)
  {
    Task(id, id, "", status, "", supersedes, if supersedes == "" then Unspecified else Correct, false, "", Forecast, "")
  }

  function BeforePlan(): (r: Plan)
  {
    Plan("p", [Node("o", Completed, ""), Node("u", Pending, "")], [Edge("o", "u")], 1, Stamp("", "", "", ""))
  }

  /** The correction `n` of `o` is placed behind `u`, which consumes `o`. */
  function BehindPlan(): (r: Plan)
  {
    Plan("p", [Node("o", Completed, ""), Node("u", Pending, ""), Node("n", Pending, "o")],
         [Edge("o", "u"), Edge("u", "n")], 1, Stamp("", "", "", ""))
  }

  lemma BehindPlanStructural()
    ensures Structural(BehindPlan())
  {
    var p := BehindPlan();
    RankedAcyclic(SetOf(p.edges), x => if x == "o" then 0 else if x == "u" then 1 else 2);
    assert p.tasks[0] in p.tasks && p.tasks[1] in p.tasks && p.tasks[2] in p.tasks;
  }

  lemma BehindPlanLookups()
    ensures forall t <- BehindPlan().tasks :: Lookup(BehindPlan().tasks, t.id) == Some(t)
    ensures forall t <- BeforePlan().tasks :: Lookup(BeforePlan().tasks, t.id) == Some(t)
  {
    BehindPlanStructural();
    forall t | t in BehindPlan().tasks ensures Lookup(BehindPlan().tasks, t.id) == Some(t) {
      UniqueLookup(BehindPlan().tasks, t);
    }
    forall t | t in BeforePlan().tasks ensures Lookup(BeforePlan().tasks, t.id) == Some(t) {
      UniqueLookup(BeforePlan().tasks, t);
    }
  }

  lemma BehindPlanKeeps()
    ensures KeepsTerminals(BehindPlan(), BeforePlan()) && Executable(BehindPlan())
  {
    var p, q := BehindPlan().tasks, BeforePlan().tasks;
    BehindPlanLookups();
    assert p[0] in p && p[1] in p && p[2] in p;
    assert q[0] == p[0] && q[1] == p[1];
    forall e | e in BeforePlan().edges ensures e in BehindPlan().edges {
      assert BehindPlan().edges[0] == e;
    }
  }

  lemma BehindPlanLinks(t: Task)
    requires t in BehindPlan().tasks
    ensures SoundLink(t, BehindPlan(), BeforePlan()) && RoutedLink(t, BehindPlan(), BeforePlan())
  {
    var p, q := BehindPlan().tasks, BeforePlan().tasks;
    assert Trim("") == "" && Trim("o") == "o";
    if t == p[2] {
      BehindPlanLookups();
      assert p[0] in p && q[0] in q;
    } else {
      assert t.supersedes == "";
    }
  }

  lemma BehindPlanValid()
    ensures ValidRevision(BehindPlan(), Some(BeforePlan()))
  {
    BehindPlanStructural();
    BehindPlanKeeps();
    forall t | t in BehindPlan().tasks
      ensures SoundLink(t, BehindPlan(), BeforePlan()) && RoutedLink(t, BehindPlan(), BeforePlan())
    {
      BehindPlanLinks(t);
    }
  }

  lemma BehindPlanCorrections()
    ensures CorrectionsOf(BehindPlan()) == [Correction("o", "n")]
  {
    var ts := BehindPlan().tasks;
    BehindPlanLookups();
    assert ts[0] in ts;
    assert Trim("") == "" && Trim("o") == "o" && Trim("u") == "u" && Trim("n") == "n";
    assert ts[1..][1..] == [ts[2]] && [ts[2]][1..] == [];
    assert CorrectionsIn([ts[2]], ts) == [Correction("o", "n")] + CorrectionsIn([], ts);
    assert CorrectionsIn(ts[1..], ts) == CorrectionsIn([ts[2]], ts);
  }

  lemma BehindPlanUnsafe()
    ensures !SafeAll(SetOf(BehindPlan().edges), [Correction("o", "n")])
  {
    var E := SetOf(BehindPlan().edges);
    assert BehindPlan().edges[0] in E && BehindPlan().edges[1] in E;
    EdgeLeads(E, "u", "n");
    assert OtherSuccessorReaches(E, Correction("o", "n"), "n");
  }

  /** A revision that puts the correction behind a consumer of the corrected task passes the
      validator, and its installation creates a cycle. */
  lemma ValidRevisionInstallsCycle()
    ensures ValidRevision(BehindPlan(), Some(BeforePlan())) && !Structural(Integrated(BehindPlan()))
  {
    BehindPlanValid();
    BehindPlanStructural();
    BehindPlanCorrections();
    BehindPlanUnsafe();
    IntegratedStructuralIff(BehindPlan());
  }

  /** Growth that lands puts the discovered task into the plan, and no later run loses it. */
  lemma GrownStays(cfg: Config, p: Plan, id: string, title: string, agent: string, hash: string, d: Drift,
      run: seq<Step>)
    requires cfg.ledger && LedgerOk(p) && hash != "" && (forall s <- run :: PlannerStep(s))
    requires Unmentioned(p, id) && !AlreadyGrown(p, hash) && ValidRevision(p, Some(p))
    ensures Recorded(After(cfg, Grown(cfg, p, id, title, agent, hash, d), run), id, hash)
  {
    var q := Grown(cfg, p, id, title, agent, hash, d);
    GrowthLandsIff(cfg, p, id, title, agent, hash, d);
    var t := GrownTask(true, id, title, agent, hash);
    assert q.tasks[|p.tasks|] == t && t in q.tasks;
    var s := Grow(id, title, agent, hash, d);
    assert Next(cfg, p, s) == q;
    StepDiscoveries(cfg, p, s);
    DiscoveriesSurvive(cfg, q, run, id, hash);
  }
}
