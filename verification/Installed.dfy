/** The plan that ends up on the session: exactly when the validator would accept it, rule by rule. */
module InstalledPlans {
  import opened Options
  import opened Text
  import opened Graph
  import opened Rewire
  import opened RewireLoop
  import opened RewireSettle
  import opened Arrivals
  import opened Plans
  import opened Revisions
  import opened Install
  import opened Steer
  import opened Runs
  import opened Validity
  import opened RepairValidity

  /** The edge is in the installed plan because some edge or link of `p` travels there. */
  ghost predicate ArrivesIn(p: Plan, e: Edge)
  {
    Arrives(SetOf(p.edges), CorrectionsOf(p), e)
  }

  lemma InstalledEdge(p: Plan, e: Edge)
    requires Acyclic(SetOf(p.edges)) && SafeAll(SetOf(p.edges), CorrectionsOf(p))
    ensures e in Integrated(p).edges <==> ArrivesIn(p, e)
  {
    var cs := CorrectionsOf(p);
    IntegratedEdges(p);
    IntegrateAcyclicIff(p.edges, cs);
    RewireAllArrives(SetOf(p.edges), cs, e);
    assert e in Integrated(p).edges <==> e in SetOf(Integrated(p).edges);
  }

  // ----- rule 7: nothing pending behind a task that never completes

  ghost predicate Blocks(p: Plan, e: Edge)
  {
    var f, t := Lookup(p.tasks, e.src), Lookup(p.tasks, e.dst);
    f.Some? && t.Some? && NeverCompletes(f.value.status) && t.value.status.Pending?
  }

  /** No edge and no link comes to rest between a task that never completes and a pending one. */
  ghost predicate NoBlockedArrival(p: Plan)
  {
    var cs := CorrectionsOf(p);
    && (forall f <- p.edges :: !Blocks(p, Travel(f, cs)))
    && (forall i :: 0 <= i < |cs| ==> !Blocks(p, Travel(LinkOf(cs[i]), cs[i + 1..])))
  }

  lemma InstalledExecutableIff(p: Plan)
    requires Acyclic(SetOf(p.edges)) && SafeAll(SetOf(p.edges), CorrectionsOf(p))
    ensures Executable(Integrated(p)) <==> NoBlockedArrival(p)
  {
    var cs, r := CorrectionsOf(p), Integrated(p);
    forall e ensures e in r.edges <==> ArrivesIn(p, e) {
      InstalledEdge(p, e);
    }
    assert Executable(r) <==> forall e <- r.edges :: !Blocks(p, e);
    if forall e <- r.edges :: !Blocks(p, e) {
      forall f | f in p.edges ensures !Blocks(p, Travel(f, cs)) {
        assert f in SetOf(p.edges);
        assert ArrivesIn(p, Travel(f, cs));
      }
      forall i | 0 <= i < |cs| ensures !Blocks(p, Travel(LinkOf(cs[i]), cs[i + 1..])) {
        assert ArrivesIn(p, Travel(LinkOf(cs[i]), cs[i + 1..]));
      }
    }
  }

  // ----- rule 6: terminal tasks and the edges among them

  ghost predicate TerminalEdge(prior: Plan, e: Edge)
  {
    e in prior.edges && TerminalIn(prior.tasks, e.src) && TerminalIn(prior.tasks, e.dst)
  }

  ghost predicate TerminalEdgesArrive(p: Plan, prior: Plan)
  {
    forall e :: TerminalEdge(prior, e) ==> ArrivesIn(p, e)
  }

  lemma InstalledTerminalsIff(p: Plan, prior: Plan)
    requires Acyclic(SetOf(p.edges)) && SafeAll(SetOf(p.edges), CorrectionsOf(p)) && KeepsTerminals(p, prior)
    ensures KeepsTerminals(Integrated(p), prior) <==> TerminalEdgesArrive(p, prior)
  {
    forall e ensures e in Integrated(p).edges <==> ArrivesIn(p, e) {
      InstalledEdge(p, e);
    }
  }

  // ----- rule 8: routing around superseded tasks

  /** The routing rule with the edges that arrive in place of the plan's own. */
  ghost predicate RoutesArrive(x: Task, p: Plan, prior: Plan)
  {
    var y := Trim(x.supersedes);
    && (y != "" && Lookup(prior.tasks, y).Some? && !Terminal(Lookup(prior.tasks, y).value.status)
        && !(Lookup(p.tasks, y).Some? && Terminal(Lookup(p.tasks, y).value.status))
        ==>
          || (Lookup(p.tasks, y).Some? && Lookup(p.tasks, y).value.status.Pending? && ArrivesIn(p, Edge(x.id, y)))
          || (forall e <- prior.edges :: e.src == y ==>
                var z := Lookup(p.tasks, e.dst);
                z.Some? && !Terminal(z.value.status) ==> ArrivesIn(p, Edge(x.id, e.dst))))
  }

  lemma InstalledRoutesIff(p: Plan, prior: Plan, x: Task)
    requires Acyclic(SetOf(p.edges)) && SafeAll(SetOf(p.edges), CorrectionsOf(p))
    ensures RoutedLink(x, Integrated(p), prior) <==> RoutesArrive(x, p, prior)
  {
    var y, r := Trim(x.supersedes), Integrated(p);
    InstalledEdge(p, Edge(x.id, y));
    forall z: string ensures Edge(x.id, z) in r.edges <==> ArrivesIn(p, Edge(x.id, z)) {
      InstalledEdge(p, Edge(x.id, z));
    }
    assert WaitsOn(x, y, r) <==>
           Lookup(p.tasks, y).Some? && Lookup(p.tasks, y).value.status.Pending? && ArrivesIn(p, Edge(x.id, y));
    assert Rerouted(x, y, r, prior) <==>
           forall e <- prior.edges :: e.src == y ==>
             var z := Lookup(p.tasks, e.dst); z.Some? && !Terminal(z.value.status) ==> ArrivesIn(p, Edge(x.id, e.dst));
  }

  /** A superseding task that is not itself corrected keeps its routes. */
  lemma UncorrectedKeepsRoutes(p: Plan, prior: Plan, x: Task)
    requires RoutedLink(x, p, prior) && forall c <- CorrectionsOf(p) :: c.was != x.id
    ensures RoutesArrive(x, p, prior)
  {
    forall z: string | Edge(x.id, z) in p.edges ensures ArrivesIn(p, Edge(x.id, z)) {
      UnmovedTravel(Edge(x.id, z), CorrectionsOf(p));
      assert Edge(x.id, z) in SetOf(p.edges);
    }
  }

  // ----- all rules together

  /** Corrections are safe and their tasks known, no edge comes to rest where it blocks, every terminal
      edge is still there, and every link is sound and keeps its routes. */
  ghost predicate Installable(p: Plan, prior: Plan)
  {
    && SafeAll(SetOf(p.edges), CorrectionsOf(p))
    && CorrectorsKnown(p)
    && NoBlockedArrival(p)
    && TerminalEdgesArrive(p, prior)
    && forall x <- p.tasks :: SoundLink(x, p, prior) && RoutesArrive(x, p, prior)
  }

  lemma InstalledLinksIff(p: Plan, prior: Plan)
    requires Acyclic(SetOf(p.edges)) && SafeAll(SetOf(p.edges), CorrectionsOf(p))
    ensures (forall x <- p.tasks :: SoundLink(x, Integrated(p), prior) && RoutedLink(x, Integrated(p), prior)) <==>
            forall x <- p.tasks :: SoundLink(x, p, prior) && RoutesArrive(x, p, prior)
  {
    forall x | x in p.tasks
      ensures RoutedLink(x, Integrated(p), prior) <==> RoutesArrive(x, p, prior)
      ensures SoundLink(x, Integrated(p), prior) <==> SoundLink(x, p, prior)
    {
      InstalledRoutesIff(p, prior, x);
    }
  }

  /** Whether or not the plan itself passes the remaining rules, this decides whether it is a valid
      revision once installed. */
  lemma InstalledValidIff(p: Plan, prior: Plan)
    requires Structural(p) && KeepsTerminals(p, prior)
    ensures ValidRevision(Integrated(p), Some(prior)) <==> Installable(p, prior)
  {
    IntegratedStructuralIff(p);
    if SafeAll(SetOf(p.edges), CorrectionsOf(p)) {
      InstalledExecutableIff(p);
      InstalledTerminalsIff(p, prior);
      InstalledLinksIff(p, prior);
    }
  }

  // ----- the guards when no correcting task is itself corrected

  /** No correction is pending behind a task that never completes, and no consumer that moves is
      pending behind a correction that never completes. */
  ghost predicate CorrectionsCanRun(p: Plan)
  {
    forall c <- CorrectionsOf(p) ::
      && !Blocks(p, LinkOf(c))
      && forall f <- p.edges :: f.src == c.was && f.dst != c.now ==> !Blocks(p, Edge(c.now, f.dst))
  }

  lemma EdgeBlocksIff(p: Plan, cs: seq<Correction>, f: Edge)
    requires DistinctTargets(cs) && Unchained(cs) && !Blocks(p, f)
    ensures !Blocks(p, Travel(f, cs)) <==>
            forall c <- cs :: f.src == c.was && f.dst != c.now ==> !Blocks(p, Edge(c.now, f.dst))
  {
    if c :| c in cs && c.was == f.src {
      UnchainedTravel(f, cs, c);
      forall d | d in cs && d.was == f.src ensures d == c {
      }
    } else {
      UnmovedTravel(f, cs);
    }
  }

  lemma UnchainedExecutableIff(p: Plan)
    requires Executable(p) && DistinctTargets(CorrectionsOf(p)) && Unchained(CorrectionsOf(p))
    ensures NoBlockedArrival(p) <==> CorrectionsCanRun(p)
  {
    var cs := CorrectionsOf(p);
    forall f | f in p.edges
      ensures !Blocks(p, Travel(f, cs)) <==>
              forall c <- cs :: f.src == c.was && f.dst != c.now ==> !Blocks(p, Edge(c.now, f.dst))
    {
      EdgeBlocksIff(p, cs, f);
    }
    forall i | 0 <= i < |cs| ensures Travel(LinkOf(cs[i]), cs[i + 1..]) == LinkOf(cs[i]) && cs[i] in cs {
      LinkRests(cs, i);
    }
    if NoBlockedArrival(p) {
      forall c | c in cs ensures !Blocks(p, LinkOf(c)) {
        var i :| 0 <= i < |cs| && cs[i] == c;
        assert !Blocks(p, Travel(LinkOf(cs[i]), cs[i + 1..]));
      }
    }
  }

  /** The superseded task is `n` and pending, or `n` is its only live consumer. */
  ghost predicate RoutedVia(x: Task, n: string, p: Plan, prior: Plan)
  {
    var y := Trim(x.supersedes);
    Routable(x, p, prior) ==>
      || (y == n && Lookup(p.tasks, y).Some? && Lookup(p.tasks, y).value.status.Pending?)
      || forall e <- prior.edges :: e.src == y ==>
           var z := Lookup(p.tasks, e.dst); z.Some? && !Terminal(z.value.status) ==> e.dst == n
  }

  /** A corrected task keeps exactly its link. */
  lemma CorrectedArrives(p: Plan, c: Correction, e: Edge)
    requires DistinctTargets(CorrectionsOf(p)) && Unchained(CorrectionsOf(p))
    requires c in CorrectionsOf(p) && e.src == c.was
    ensures ArrivesIn(p, e) <==> e.dst == c.now
  {
    UnchainedArrivesIff(SetOf(p.edges), CorrectionsOf(p), e);
    if e in LinkSet(CorrectionsOf(p)) {
      var d :| d in CorrectionsOf(p) && e == LinkOf(d);
      assert d == c;
    }
    if e.dst == c.now {
      assert e == LinkOf(c);
    }
  }

  /** A superseding task keeps its routes exactly when it is not corrected, or its correction is all
      it has to route to. */
  lemma UnchainedRoutesIff(p: Plan, prior: Plan, x: Task)
    requires RoutedLink(x, p, prior) && DistinctTargets(CorrectionsOf(p)) && Unchained(CorrectionsOf(p))
    ensures RoutesArrive(x, p, prior) <==>
            forall c <- CorrectionsOf(p) :: c.was == x.id ==> RoutedVia(x, c.now, p, prior)
  {
    if c :| c in CorrectionsOf(p) && c.was == x.id {
      forall z: string ensures ArrivesIn(p, Edge(x.id, z)) <==> z == c.now {
        CorrectedArrives(p, c, Edge(x.id, z));
      }
      forall d | d in CorrectionsOf(p) && d.was == x.id ensures d == c {
      }
    } else {
      UncorrectedKeepsRoutes(p, prior, x);
    }
  }

  lemma UnchainedTerminalsIff(p: Plan, prior: Plan)
    requires KeepsTerminals(p, prior) && DistinctTargets(CorrectionsOf(p)) && Unchained(CorrectionsOf(p))
    ensures TerminalEdgesArrive(p, prior) <==>
            forall e, c :: TerminalEdge(prior, e) && c in CorrectionsOf(p) && c.was == e.src ==> c.now == e.dst
  {
    var cs, E := CorrectionsOf(p), SetOf(p.edges);
    assert ForwardOnly(cs);
    RewireAllSettles(E, cs);
    forall e | TerminalEdge(prior, e) ensures ArrivesIn(p, e) <==> forall c <- cs :: c.was == e.src ==> c.now == e.dst {
      RewireAllArrives(E, cs, e);
      assert e in E;
      if c :| c in cs && c.was == e.src {
        assert Settled(RewireAll(E, cs), c);
        assert ArrivesIn(p, e) <==> e == LinkOf(c);
        if e == LinkOf(c) {
          forall d | d in cs && d.was == e.src ensures d == c {
          }
        }
      } else {
        EdgeStays(E, cs, e);
      }
    }
  }

  // ----- what a refinement or a user steer installs

  lemma PreparedEdges(ledger: bool, c: Plan, p: Plan, d: Drift)
    ensures Prepared(ledger, c, Some(p), d).edges == c.edges
  {
  }

  /** An edge of the prepared plan is in the installed one exactly when something travels to it; out
      of a task that corrects nothing, exactly when no correction of that task names another one. */
  lemma InstalledKeepsEdge(q: Plan, e: Edge)
    requires e in q.edges
    ensures e in Integrated(q).edges <==> LandsOn(Book(q.edges, SetOf(q.edges)), CorrectionsOf(q), e)
    ensures DistinctTargets(CorrectionsOf(q)) && (forall c <- CorrectionsOf(q) :: c.now != e.src) ==>
              (e in Integrated(q).edges <==> forall c <- CorrectionsOf(q) :: c.was == e.src ==> c.now == e.dst)
  {
    var cs := CorrectionsOf(q);
    IntegratedEdges(q);
    IntegrateLands(q.edges, cs, e);
    assert e in Integrated(q).edges <==> e in SetOf(Integrated(q).edges);
    assert e in Integrate(q.edges, cs) <==> e in SetOf(Integrate(q.edges, cs));
    if DistinctTargets(cs) && forall c <- cs :: c.now != e.src {
      EdgeSurvivesIff(q.edges, cs, e);
    }
  }

  /** What a user steer keeps of the terminal history: every status, and an edge exactly when the
      corrections of the prepared plan leave or put it there. */
  lemma SteeredKeeps(cfg: Config, p: Plan, llm: Option<Plan>, d: Drift, reason: string, e: Edge)
    requires Structural(p) && TerminalEdge(p, e)
    ensures var s, q := Steered(cfg, p, llm, d, reason), Prepared(cfg.ledger, Chosen(p, llm, reason), Some(p), d);
            && KeepsStatuses(s, p)
            && (s == p ==> e in s.edges)
            && (s != p ==> (e in s.edges <==> LandsOn(Book(q.edges, SetOf(q.edges)), CorrectionsOf(q), e)))
            && (s != p && DistinctTargets(CorrectionsOf(q)) && (forall c <- CorrectionsOf(q) :: c.now != e.src) ==>
                  (e in s.edges <==> forall c <- CorrectionsOf(q) :: c.was == e.src ==> c.now == e.dst))
  {
    var c := Chosen(p, llm, reason);
    var q := Prepared(cfg.ledger, c, Some(p), d);
    StepKeepsStatuses(cfg, p, UserSteer(llm, d, reason));
    SteerKeepsTerminals(p, llm, reason);
    PreparedEdges(cfg.ledger, c, p, d);
    assert e in q.edges;
    InstalledKeepsEdge(q, e);
  }

  /** The same for a drift-driven refinement. */
  lemma RefinedKeeps(cfg: Config, p: Plan, candidate: Plan, d: Drift, e: Edge)
    requires Structural(p) && TerminalEdge(p, e)
    ensures var s, q := Refined(cfg, p, candidate, d), Prepared(cfg.ledger, Fold(candidate, Some(p)), Some(p), d);
            && KeepsStatuses(s, p)
            && (s == p ==> e in s.edges)
            && (s != p ==> (e in s.edges <==> LandsOn(Book(q.edges, SetOf(q.edges)), CorrectionsOf(q), e)))
            && (s != p && DistinctTargets(CorrectionsOf(q)) && (forall c <- CorrectionsOf(q) :: c.now != e.src) ==>
                  (e in s.edges <==> forall c <- CorrectionsOf(q) :: c.was == e.src ==> c.now == e.dst))
  {
    var f := Fold(candidate, Some(p));
    var s, q := Refined(cfg, p, candidate, d), Prepared(cfg.ledger, f, Some(p), d);
    StepKeepsStatuses(cfg, p, Refine(candidate, d));
    if s != p {
      PreparedEdges(cfg.ledger, f, p, d);
      assert e in q.edges;
      InstalledKeepsEdge(q, e);
    }
  }

  // ----- when a refinement or a user steer installs a valid revision

  /** The repair leaves rules 1 to 6 in place, whatever it does to the links. */
  lemma PreparedSound(ledger: bool, c: Plan, p: Plan, d: Drift)
    requires Structural(p) && Structural(c) && Executable(c) && KeepsTerminals(c, p) && Fold(c, Some(p)) == c
    ensures var q := Prepared(ledger, c, Some(p), d); Structural(q) && KeepsTerminals(q, p)
  {
    if ledger && HasLedgerShape(p.tasks) {
      RepairedStructure(Prepared(ledger, c, Some(p), d), c, p);
    }
  }

  /** What a refinement installs over a well-formed plan is a valid revision of it exactly when the
      prepared plan is installable. */
  lemma RefinedValidIff(cfg: Config, p: Plan, candidate: Plan, d: Drift)
    requires Structural(p) && Refined(cfg, p, candidate, d) != p
    ensures ValidRevision(Refined(cfg, p, candidate, d), Some(p)) <==>
            Installable(Prepared(cfg.ledger, Fold(candidate, Some(p)), Some(p), d), p)
  {
    var f := Fold(candidate, Some(p));
    FoldIdempotent(candidate, Some(p));
    PreparedSound(cfg.ledger, f, p, d);
    InstalledValidIff(Prepared(cfg.ledger, f, Some(p), d), p);
  }

  lemma ChosenSound(p: Plan, llm: Option<Plan>, reason: string)
    requires Structural(p)
    ensures var c := Chosen(p, llm, reason);
            Structural(c) && Executable(c) && KeepsTerminals(c, p) && Fold(c, Some(p)) == c
  {
    SteerKeepsTerminals(p, llm, reason);
    MinimalStructural(p, reason);
    MinimalFolds(p, reason);
    if llm.Some? {
      FoldIdempotent(llm.value, Some(p));
    }
  }

  /** The same for a user steer. */
  lemma SteeredValidIff(cfg: Config, p: Plan, llm: Option<Plan>, d: Drift, reason: string)
    requires Structural(p) && Steered(cfg, p, llm, d, reason) != p
    ensures ValidRevision(Steered(cfg, p, llm, d, reason), Some(p)) <==>
            Installable(Prepared(cfg.ledger, Chosen(p, llm, reason), Some(p), d), p)
  {
    var c := Chosen(p, llm, reason);
    ChosenSound(p, llm, reason);
    PreparedSound(cfg.ledger, c, p, d);
    InstalledValidIff(Prepared(cfg.ledger, c, Some(p), d), p);
  }

  /** A plan that leaves nothing open can block nothing and has nothing to route. */
  lemma SettledInstallable(q: Plan, p: Plan)
    requires Structural(p) && SameIdsAs(q, p) && (forall t <- q.tasks :: Terminal(t.status))
    ensures NoBlockedArrival(q) && forall x <- q.tasks :: RoutesArrive(x, q, p)
  {
    forall x | x in q.tasks ensures RoutesArrive(x, q, p) {
      var i := SameIdLookup(q.tasks, p.tasks, Trim(x.supersedes));
    }
  }

  ghost predicate SameIdsAs(q: Plan, p: Plan)
  {
    |q.tasks| == |p.tasks| && forall i :: 0 <= i < |p.tasks| ==> q.tasks[i].id == p.tasks[i].id
  }

  lemma MinimumSettled(ledger: bool, p: Plan, reason: string, d: Drift)
    ensures var q := Prepared(ledger, Minimal(p, reason), Some(p), d);
            SameIdsAs(q, p) && forall t <- q.tasks :: Terminal(t.status)
  {
    var m, q := Minimal(p, reason), Prepared(ledger, Minimal(p, reason), Some(p), d);
    MinimalPrepared(ledger, p, reason, d);
    forall t | t in q.tasks ensures Terminal(t.status) {
      var i :| 0 <= i < |q.tasks| && q.tasks[i] == t;
      assert Terminal(m.tasks[i].status);
    }
  }

  /** When the deterministic minimum is installed, its links need only be sound, its corrections safe
      and known, and every terminal edge still there. */
  lemma MinimumInstallableIff(ledger: bool, p: Plan, reason: string, d: Drift)
    requires Structural(p)
    ensures var q := Prepared(ledger, Minimal(p, reason), Some(p), d);
            Installable(q, p) <==>
            && LinksSound(p)
            && SafeAll(SetOf(q.edges), CorrectionsOf(q)) && CorrectorsKnown(q) && TerminalEdgesArrive(q, p)
  {
    var m, q := Minimal(p, reason), Prepared(ledger, Minimal(p, reason), Some(p), d);
    MinimumSettled(ledger, p, reason, d);
    SettledInstallable(q, p);
    MinimalLinksIff(ledger, p, reason, d);
  }

  lemma MinimalLinksIff(ledger: bool, p: Plan, reason: string, d: Drift)
    requires Structural(p)
    ensures var q := Prepared(ledger, Minimal(p, reason), Some(p), d);
            (forall x <- q.tasks :: SoundLink(x, q, p)) <==> LinksSound(p)
  {
    var m, q := Minimal(p, reason), Prepared(ledger, Minimal(p, reason), Some(p), d);
    MinimalPrepared(ledger, p, reason, d);
    forall i | 0 <= i < |p.tasks| ensures SoundLink(q.tasks[i], q, p) <==> SoundLink(p.tasks[i], p, p) {
      SameSubstanceLookup(q, m, Trim(m.tasks[i].supersedes));
      MinimalLinks(p, reason, i);
    }
    if LinksSound(p) {
      forall x | x in q.tasks ensures SoundLink(x, q, p) {
        var i :| 0 <= i < |q.tasks| && q.tasks[i] == x;
        assert p.tasks[i] in p.tasks;
      }
    }
    if forall x <- q.tasks :: SoundLink(x, q, p) {
      forall x | x in p.tasks ensures SoundLink(x, p, p) {
        var i :| 0 <= i < |p.tasks| && p.tasks[i] == x;
        assert q.tasks[i] in q.tasks;
      }
    }
  }
}
