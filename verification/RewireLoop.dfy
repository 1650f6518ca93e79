/** The rewiring loop with its set of known edges, for any list of corrections. */
module RewireLoop {
  import opened Graph
  import opened Rewire

  /** The link is believed to be present although an earlier correction moved it away, so the loop
      does not add it. */
  ghost predicate Misled(b: Book, c: Correction)
  {
    Edge(c.was, c.now) in b.known && Edge(c.was, c.now) !in b.edges
  }

  /** One correction without its link. */
  function RedirectSet(E: set<Edge>, c: Correction): (r: set<Edge>)
  {
    set e | e in E :: Redirect(e, c)
  }

  /** Every known edge is a path, or its target lies on or behind a cycle. */
  ghost predicate Covered(E: set<Edge>, known: set<Edge>)
  {
    forall k <- known :: Reach(E, k.src, k.dst) || BehindCycle(E, k.dst)
  }

  // ----- a misled step

  lemma RedirectSetMembers(E: set<Edge>, c: Correction, e: Edge)
    requires c.was != c.now && Edge(c.was, c.now) !in E
    ensures e in RedirectSet(E, c) <==> (e in E && e.src != c.was) || (e.src == c.now && Edge(c.was, e.dst) in E)
  {
    if e in E && e.src != c.was {
      assert e == Redirect(e, c);
    }
    if e.src == c.now && Edge(c.was, e.dst) in E {
      assert e == Redirect(Edge(c.was, e.dst), c);
    }
  }

  /** A walk either survives the step or its end is reached from the correction. */
  lemma {:induction false} SplitWalk(E: set<Edge>, c: Correction, a: string, p: seq<string>, b: string)
    requires c.was != c.now && Edge(c.was, c.now) !in E && Walk(E, a, p, b)
    ensures Reach(RedirectSet(E, c), a, b) || Leads(RedirectSet(E, c), c.now, b)
    decreases |p|
  {
    var R := RedirectSet(E, c);
    if p == [] {
      ReachRefl(R, a);
    } else {
      SplitWalk(E, c, p[0], p[1..], b);
      if Reach(R, p[0], b) {
        var s := if a == c.was then c.now else a;
        RedirectSetMembers(E, c, Edge(s, p[0]));
        StepReach(R, s, p[0], b);
      }
    }
  }

  /** A walk to a place the corrected task does not reach is untouched. */
  lemma {:induction false} AvoidingWalk(E: set<Edge>, c: Correction, a: string, p: seq<string>, b: string)
    requires c.was != c.now && Edge(c.was, c.now) !in E && Walk(E, a, p, b) && !Reach(E, c.was, b)
    ensures Walk(RedirectSet(E, c), a, p, b)
    decreases |p|
  {
    if p != [] {
      RedirectSetMembers(E, c, Edge(a, p[0]));
      AvoidingWalk(E, c, p[0], p[1..], b);
    }
  }

  lemma NothingLeaves(E: set<Edge>, c: Correction, b: string)
    requires c.was != c.now && Edge(c.was, c.now) !in E
    ensures Reach(RedirectSet(E, c), c.was, b) ==> b == c.was
  {
    forall p | Walk(RedirectSet(E, c), c.was, p, b) && p != [] ensures false {
      RedirectSetMembers(E, c, Edge(c.was, p[0]));
    }
  }

  /** After a misled step the correction itself lies on or behind a cycle. */
  lemma MisledCycle(E: set<Edge>, known: set<Edge>, c: Correction)
    requires c.was != c.now && Covered(E, known) && Edge(c.was, c.now) in known && Edge(c.was, c.now) !in E
    ensures BehindCycle(RedirectSet(E, c), c.now)
  {
    var R := RedirectSet(E, c);
    if Reach(E, c.was, c.now) {
      var p :| Walk(E, c.was, p, c.now);
      SplitWalk(E, c, c.was, p, c.now);
      NothingLeaves(E, c, c.now);
      ReachRefl(R, c.now);
    } else {
      assert BehindCycle(E, Edge(c.was, c.now).dst);
      var d :| Leads(E, d, d) && Reach(E, d, c.now);
      if Reach(E, c.was, d) {
        ReachTrans(E, c.was, d, c.now);
      }
      var p :| p != [] && Walk(E, d, p, d);
      AvoidingWalk(E, c, d, p, d);
      var q :| Walk(E, d, q, c.now);
      AvoidingWalk(E, c, d, q, c.now);
      assert Leads(R, d, d) && Reach(R, d, c.now);
    }
  }

  lemma BehindThrough(E: set<Edge>, x: string, y: string)
    requires BehindCycle(E, x) && Reach(E, x, y)
    ensures BehindCycle(E, y)
  {
    var d :| Leads(E, d, d) && Reach(E, d, x);
    ReachTrans(E, d, x, y);
  }

  lemma ReachesSplit(E: set<Edge>, c: Correction, a: string, b: string)
    requires c.was != c.now && Edge(c.was, c.now) !in E && BehindCycle(RedirectSet(E, c), c.now) && Reach(E, a, b)
    ensures Reach(RedirectSet(E, c), a, b) || BehindCycle(RedirectSet(E, c), b)
  {
    var R := RedirectSet(E, c);
    var p :| Walk(E, a, p, b);
    SplitWalk(E, c, a, p, b);
    if Leads(R, c.now, b) {
      LeadsReach(R, c.now, b);
      BehindThrough(R, c.now, b);
    }
  }

  lemma BehindStays(E: set<Edge>, c: Correction, b: string)
    requires c.was != c.now && Edge(c.was, c.now) !in E && BehindCycle(RedirectSet(E, c), c.now) && BehindCycle(E, b)
    ensures BehindCycle(RedirectSet(E, c), b)
  {
    var R := RedirectSet(E, c);
    var d :| Leads(E, d, d) && Reach(E, d, b);
    ReachesSplit(E, c, d, b);
    if !BehindCycle(R, b) {
      var p :| p != [] && Walk(E, d, p, d);
      assert Walk(E, p[0], p[1..], d);
      ReachesSplit(E, c, p[0], d);
      if BehindCycle(R, d) {
        BehindThrough(R, d, b);
      } else if d == c.was {
        RedirectSetMembers(E, c, Edge(c.now, p[0]));
        StepReach(R, c.now, p[0], d);
        BehindThrough(R, c.now, d);
      } else {
        RedirectSetMembers(E, c, Edge(d, p[0]));
        StepReach(R, d, p[0], d);
      }
    }
  }

  lemma MisledCovers(E: set<Edge>, known: set<Edge>, c: Correction)
    requires c.was != c.now && Covered(E, known) && Edge(c.was, c.now) in known && Edge(c.was, c.now) !in E
    ensures Covered(RedirectSet(E, c), known) && !Acyclic(RedirectSet(E, c))
  {
    var R := RedirectSet(E, c);
    MisledCycle(E, known, c);
    forall k | k in known ensures Reach(R, k.src, k.dst) || BehindCycle(R, k.dst) {
      if Reach(E, k.src, k.dst) {
        ReachesSplit(E, c, k.src, k.dst);
      } else {
        BehindStays(E, c, k.dst);
      }
    }
  }

  /** A misled step only happens where the correction is unsafe. */
  lemma MisledUnsafe(E: set<Edge>, known: set<Edge>, c: Correction)
    requires c.was != c.now && Covered(E, known) && Edge(c.was, c.now) in known && Edge(c.was, c.now) !in E
    ensures !(Acyclic(E) && SafeCorrection(E, c))
  {
    var link := Edge(c.was, c.now);
    if Acyclic(E) {
      assert Reach(E, link.src, link.dst);
      var p :| Walk(E, c.was, p, c.now);
      assert Walk(E, p[0], p[1..], c.now);
      assert OtherSuccessorReaches(E, c, c.now);
    }
  }

  // ----- a sound step

  lemma SoundCovers(E: set<Edge>, known: set<Edge>, c: Correction)
    requires Covered(E, known)
    ensures Covered(RewireOne(E, c), known)
  {
    var R := RewireOne(E, c);
    RewireOnePaths(E, c);
    SimulatedPaths(E, R);
    forall k | k in known ensures Reach(R, k.src, k.dst) || BehindCycle(R, k.dst) {
      if Reach(E, k.src, k.dst) {
        ReachSurvives(E, R, k.src, k.dst);
      } else {
        var d :| Leads(E, d, d) && Reach(E, d, k.dst);
        ReachSurvives(E, R, d, k.dst);
      }
    }
  }

  lemma ReachSurvives(E: set<Edge>, R: set<Edge>, a: string, b: string)
    requires Reach(E, a, b) && (Leads(E, a, b) ==> Leads(R, a, b))
    ensures Reach(R, a, b)
  {
    LeadsReach(E, a, b);
    LeadsReach(R, a, b);
    ReachRefl(R, a);
  }

  // ----- the loop

  /** The two variables after one correction. */
  function StepBook(b: Book, c: Correction): (r: Book)
  {
    Scan(AddLink(b, c), c, 0)
  }

  lemma {:induction false} ScanKnown(b: Book, c: Correction, i: nat)
    requires i <= |b.edges|
    ensures Scan(b, c, i).known <= b.known + RedirectSet(SetOf(b.edges[i..]), c)
    decreases |b.edges| - i
  {
    if i < |b.edges| {
      var n := ScanOne(b, c, i);
      ScanKnown(n, c, i + 1);
      assert n.edges[i + 1..] == b.edges[i + 1..];
      assert b.edges[i] in b.edges[i..];
      forall e | e in RedirectSet(SetOf(b.edges[i + 1..]), c) ensures e in RedirectSet(SetOf(b.edges[i..]), c) {
        var f :| f in b.edges[i + 1..] && e == Redirect(f, c);
        assert b.edges[i..][1..] == b.edges[i + 1..];
        assert f in b.edges[i..];
      }
      forall e | e in n.known ensures e in b.known + RedirectSet(SetOf(b.edges[i..]), c) {
        if e !in b.known {
          assert e == Redirect(b.edges[i], c);
        }
      }
    }
  }

  lemma RedirectAllSet(es: seq<Edge>, c: Correction)
    ensures SetOf(RedirectAll(es, c)) == RedirectSet(SetOf(es), c)
  {
    var r := RedirectAll(es, c);
    forall e ensures e in r <==> e in RedirectSet(SetOf(es), c) {
      if e in r {
        var i :| 0 <= i < |r| && r[i] == e;
        assert es[i] in SetOf(es);
      }
      if e in RedirectSet(SetOf(es), c) {
        var f :| f in es && e == Redirect(f, c);
        var i :| 0 <= i < |es| && es[i] == f;
        assert r[i] == e;
      }
    }
  }

  lemma RewireOneIsRedirect(E: set<Edge>, c: Correction)
    ensures RewireOne(E, c) == RedirectSet(E + {Edge(c.was, c.now)}, c)
  {
    var link := Edge(c.was, c.now);
    forall e ensures e in RewireOne(E, c) <==> e in RedirectSet(E + {link}, c) {
      if e in RewireOne(E, c) && e != link {
        var f :| f in E && e == Redirect(f, c);
        assert f in E + {link};
      }
      if e == link {
        assert e == Redirect(link, c) && link in E + {link};
      }
    }
  }

  /** What one correction does to the edges and what it may add to the known ones. */
  lemma StepMeaning(b: Book, c: Correction)
    ensures var E, r := SetOf(b.edges), StepBook(b, c);
            && SetOf(r.edges) == (if Misled(b, c) then RedirectSet(E, c) else RewireOne(E, c))
            && r.known <= b.known + SetOf(r.edges)
  {
    var E, link, a, r := SetOf(b.edges), Edge(c.was, c.now), AddLink(b, c), StepBook(b, c);
    ScanEdges(a, c, 0);
    assert a.edges[0..] == a.edges && a.edges[..0] == [];
    assert r.edges == RedirectAll(a.edges, c);
    RedirectAllSet(a.edges, c);
    ScanKnown(a, c, 0);
    RewireOneIsRedirect(E, c);
    assert SetOf(a.edges) == if link in b.known then E else E + {link};
    if link in E {
      assert E + {link} == E;
    }
    assert link !in b.known ==> link in RewireOne(E, c);
  }

  lemma CoveredMore(E: set<Edge>, known: set<Edge>, more: set<Edge>)
    requires Covered(E, known) && more <= known + E
    ensures Covered(E, more)
  {
    forall k | k in more ensures Reach(E, k.src, k.dst) || BehindCycle(E, k.dst) {
      if k !in known {
        EdgeLeads(E, k.src, k.dst);
      }
    }
  }

  lemma StepCovered(b: Book, c: Correction)
    requires c.was != c.now && Covered(SetOf(b.edges), b.known)
    ensures Covered(SetOf(StepBook(b, c).edges), StepBook(b, c).known)
    ensures Misled(b, c) ==> !Acyclic(SetOf(StepBook(b, c).edges))
    ensures Misled(b, c) ==> !(Acyclic(SetOf(b.edges)) && SafeCorrection(SetOf(b.edges), c))
  {
    var E, r := SetOf(b.edges), StepBook(b, c);
    StepMeaning(b, c);
    if Misled(b, c) {
      MisledCovers(E, b.known, c);
      MisledUnsafe(E, b.known, c);
    } else {
      SoundCovers(E, b.known, c);
    }
    CoveredMore(SetOf(r.edges), b.known, r.known);
  }

  /** Misled or not, the loop ends acyclic exactly when the input is acyclic and each correction is
      safe in the graph it should meet; and then it computes the rewired edge set. */
  lemma {:induction false} ProcessAcyclicIff(b: Book, cs: seq<Correction>)
    requires Proper(cs) && Covered(SetOf(b.edges), b.known)
    ensures Acyclic(SetOf(Process(b, cs).edges)) <==> Acyclic(SetOf(b.edges)) && SafeAll(SetOf(b.edges), cs)
    ensures Acyclic(SetOf(b.edges)) && SafeAll(SetOf(b.edges), cs) ==>
            SetOf(Process(b, cs).edges) == RewireAll(SetOf(b.edges), cs)
    decreases |cs|
  {
    if cs != [] {
      var c, E, r := cs[0], SetOf(b.edges), StepBook(b, cs[0]);
      assert c in cs && forall d <- cs[1..] :: d in cs;
      StepCovered(b, c);
      StepMeaning(b, c);
      ProcessAcyclicIff(r, cs[1..]);
      if !Misled(b, c) {
        OneStepAcyclicIff(E, c);
      }
    }
  }

  lemma OneStepAcyclicIff(E: set<Edge>, c: Correction)
    requires c.was != c.now
    ensures Acyclic(RewireOne(E, c)) <==> Acyclic(E) && SafeCorrection(E, c)
  {
    if Acyclic(E) {
      RewireAcyclicIff(E, c);
    } else {
      RewireOnePaths(E, c);
      SimulatedPaths(E, RewireOne(E, c));
    }
  }

  lemma EdgesCovered(E: set<Edge>)
    ensures Covered(E, E)
  {
    forall k | k in E ensures Reach(E, k.src, k.dst) {
      EdgeLeads(E, k.src, k.dst);
    }
  }

  /** The integrated edges of any plan are acyclic exactly when its own edges are and every
      correction is safe where it is applied; then they are the step-by-step rewired edges. */
  lemma IntegrateAcyclicIff(es: seq<Edge>, cs: seq<Correction>)
    requires Proper(cs)
    ensures Acyclic(SetOf(Integrate(es, cs))) <==> Acyclic(SetOf(es)) && SafeAll(SetOf(es), cs)
    ensures Acyclic(SetOf(es)) && SafeAll(SetOf(es), cs) ==> SetOf(Integrate(es, cs)) == RewireAll(SetOf(es), cs)
  {
    var b := Book(es, SetOf(es));
    EdgesCovered(SetOf(es));
    ProcessAcyclicIff(b, cs);
    DropRepeatsMeaning(Process(b, cs).edges);
  }

  /** Every dependency path survives the loop when no two tasks correct the same one, and also
      whenever the integrated edges are acyclic. */
  lemma IntegrateKeepsPaths(es: seq<Edge>, cs: seq<Correction>, a: string, b: string)
    requires DistinctTargets(cs) || (Proper(cs) && Acyclic(SetOf(Integrate(es, cs))))
    ensures Leads(SetOf(es), a, b) ==> Leads(SetOf(Integrate(es, cs)), a, b)
  {
    if DistinctTargets(cs) {
      BookkeepingSound(es, cs);
      RewireListMeaning(es, cs);
      DropRepeatsMeaning(RewireList(es, cs));
    } else {
      IntegrateAcyclicIff(es, cs);
    }
    PathsSurvive(SetOf(es), cs);
  }

  /** With two corrections of one task the loop can lose a path: `o` is left without successors. */
  lemma SharedTargetLosesPath()
    ensures var es, cs := [Edge("o", "b"), Edge("a", "b")], [Correction("o", "a"), Correction("o", "b")];
            Leads(SetOf(es), "o", "b") && !Leads(SetOf(Integrate(es, cs)), "o", "b")
  {
    var es, r := [Edge("o", "b"), Edge("a", "b")], [Edge("a", "b"), Edge("b", "a")];
    MisledIntegration();
    assert es[0] in SetOf(es);
    EdgeLeads(SetOf(es), "o", "b");
    NoSuccessors(SetOf(r), "o", "b");
  }

  lemma NoSuccessors(E: set<Edge>, a: string, b: string)
    requires forall e <- E :: e.src != a
    ensures !Leads(E, a, b)
  {
    forall p | p != [] ensures !Walk(E, a, p, b) {
      assert Edge(a, p[0]).src == a;
    }
  }
}
