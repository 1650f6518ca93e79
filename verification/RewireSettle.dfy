/** When a second run of the rewiring changes nothing. */
module RewireSettle {
  import opened Graph
  import opened Rewire
  import opened RewireLoop

  // ----- where an edge ends up

  /** The edge after all the corrections: each one moves it at most one step along. */
  function Travel(e: Edge, cs: seq<Correction>): (r: Edge)
    ensures r.dst == e.dst
    decreases |cs|
  {
    if cs == [] then e else Travel(Redirect(e, cs[0]), cs[1..])
  }

  function LinkOf(c: Correction): (r: Edge)
  {
    Edge(c.was, c.now)
  }

  function LinkSet(cs: seq<Correction>): (r: set<Edge>)
  {
    set c | c in cs :: LinkOf(c)
  }

  /** An edge moves along the correction links. */
  lemma {:induction false} TravelFollowsLinks(e: Edge, cs: seq<Correction>, L: set<Edge>)
    requires forall c <- cs :: LinkOf(c) in L
    ensures Reach(L, e.src, Travel(e, cs).src)
    ensures (exists c :: c in cs && Redirect(e, c) != e) ==> Leads(L, e.src, Travel(e, cs).src)
    decreases |cs|
  {
    ReachRefl(L, e.src);
    if cs != [] {
      var c, f, rest := cs[0], Redirect(e, cs[0]), cs[1..];
      assert c in cs && forall d <- rest :: d in cs;
      TravelFollowsLinks(f, rest, L);
      if f != e {
        assert LinkOf(c) in L;
        StepReach(L, c.was, c.now, Travel(f, rest).src);
      } else if exists d :: d in cs && Redirect(e, d) != e {
        var d :| d in cs && Redirect(e, d) != e;
        assert d in rest;
      }
    }
  }

  lemma {:induction false} UnmovedTravel(e: Edge, cs: seq<Correction>)
    requires forall c <- cs :: Redirect(e, c) == e
    ensures Travel(e, cs) == e
    decreases |cs|
  {
    if cs != [] {
      assert cs[0] in cs && forall d <- cs[1..] :: d in cs;
      UnmovedTravel(e, cs[1..]);
    }
  }

  /** Without a circular chain an edge ends where it began exactly when no correction moves it. */
  lemma TravelFixedIff(e: Edge, cs: seq<Correction>)
    requires Acyclic(LinkSet(cs))
    ensures Travel(e, cs) == e <==> forall c <- cs :: Redirect(e, c) == e
  {
    TravelFollowsLinks(e, cs, LinkSet(cs));
    if forall c <- cs :: Redirect(e, c) == e {
      UnmovedTravel(e, cs);
    }
  }

  // ----- links stay

  lemma {:induction false} EdgeStays(E: set<Edge>, cs: seq<Correction>, e: Edge)
    requires e in E && forall d <- cs :: d.was != e.src
    ensures e in RewireAll(E, cs)
    decreases |cs|
  {
    if cs != [] {
      assert cs[0] in cs && forall d <- cs[1..] :: d in cs;
      RewireOneMembers(E, cs[0], e);
      EdgeStays(RewireOne(E, cs[0]), cs[1..], e);
    }
  }

  lemma {:induction false} LinksStay(E: set<Edge>, cs: seq<Correction>)
    requires DistinctTargets(cs)
    ensures LinkSet(cs) <= RewireAll(E, cs)
    decreases |cs|
  {
    if cs != [] {
      var c, rest := cs[0], cs[1..];
      assert cs == [c] + rest;
      RewireOneMembers(E, c, LinkOf(c));
      EdgeStays(RewireOne(E, c), rest, LinkOf(c));
      LinksStay(RewireOne(E, c), rest);
    }
  }

  // ----- a run over a list that already holds its links

  lemma {:induction false} LinkedRun(es: seq<Edge>, cs: seq<Correction>)
    requires DistinctTargets(cs) && LinkSet(cs) <= SetOf(es)
    ensures |RewireList(es, cs)| == |es|
    ensures forall k :: 0 <= k < |es| ==> RewireList(es, cs)[k] == Travel(es[k], cs)
    decreases |cs|
  {
    if cs != [] {
      var c, rest := cs[0], cs[1..];
      assert c in cs && forall d <- rest :: d in cs;
      assert LinkOf(c) in LinkSet(cs);
      var next := RedirectAll(es, c);
      forall l | l in LinkSet(rest) ensures l in SetOf(next) {
        var d :| d in rest && l == LinkOf(d);
        assert l in LinkSet(cs);
        var i :| 0 <= i < |es| && es[i] == l;
        assert next[i] == l;
      }
      LinkedRun(next, rest);
    }
  }

  lemma {:induction false} DropRepeatsLength(es: seq<Edge>)
    ensures |DropRepeats(es)| <= |es|
    ensures |DropRepeats(es)| == |es| ==> DropRepeats(es) == es
  {
    if es != [] {
      DropRepeatsLength(es[..|es| - 1]);
      assert es == es[..|es| - 1] + [es[|es| - 1]];
    }
  }

  /** For distinct targets a second run changes nothing exactly when every edge stays in place. */
  lemma SecondRunIff(r: seq<Edge>, cs: seq<Correction>)
    requires DistinctTargets(cs) && LinkSet(cs) <= SetOf(r) && NoRepeats(r)
    ensures Integrate(r, cs) == r <==> forall e <- r :: Travel(e, cs) == e
  {
    var m := RewireList(r, cs);
    BookkeepingSound(r, cs);
    LinkedRun(r, cs);
    DropRepeatsLength(m);
    if forall e <- r :: Travel(e, cs) == e {
      assert m == r;
      DropRepeatsMeaning(r);
    }
    if Integrate(r, cs) == r {
      assert m == r;
      forall e | e in r ensures Travel(e, cs) == e {
        var k :| 0 <= k < |r| && r[k] == e;
      }
    }
  }

  // ----- refilling a corrected task

  /** No remaining correction hands the settled task of `c` a further successor. */
  ghost predicate StaysSettled(E: set<Edge>, c: Correction, cs: seq<Correction>)
    decreases |cs|
  {
    cs == [] ||
    (&& (cs[0].now == c.was ==> forall e <- E :: e.src == cs[0].was ==> e.dst == cs[0].now || e.dst == c.now)
     && StaysSettled(RewireOne(E, cs[0]), c, cs[1..]))
  }

  /** Whenever a later correction is made by an already corrected task, the task it corrects has, in
      the graph that step meets, no successors but the two corrections. */
  ghost predicate NoRefill(E: set<Edge>, cs: seq<Correction>)
    decreases |cs|
  {
    cs == [] || (StaysSettled(RewireOne(E, cs[0]), cs[0], cs[1..]) && NoRefill(RewireOne(E, cs[0]), cs[1..]))
  }

  lemma SettledStepIff(E: set<Edge>, c: Correction, d: Correction)
    requires Settled(E, c) && d.was != c.was
    ensures Settled(RewireOne(E, d), c) <==>
            (d.now == c.was ==> forall e <- E :: e.src == d.was ==> e.dst == d.now || e.dst == c.now)
  {
    var R := RewireOne(E, d);
    forall e: Edge | e.src == c.was
      ensures e in R <==> e == LinkOf(c) || (d.now == c.was && e.dst != d.now && Edge(d.was, e.dst) in E)
    {
      RewireOneMembers(E, d, e);
    }
    if d.now == c.was && Settled(R, c) {
      forall e | e in E && e.src == d.was ensures e.dst == d.now || e.dst == c.now {
        assert e == Edge(d.was, e.dst);
        assert Edge(c.was, e.dst) in R <==> Edge(c.was, e.dst) == LinkOf(c) || e.dst != d.now;
      }
    }
  }

  lemma {:induction false} StaysSettledIff(E: set<Edge>, c: Correction, cs: seq<Correction>)
    requires Settled(E, c) && forall d <- cs :: d.was != c.was
    ensures Settled(RewireAll(E, cs), c) <==> StaysSettled(E, c, cs)
    decreases |cs|
  {
    if cs != [] {
      var d, rest, R := cs[0], cs[1..], RewireOne(E, cs[0]);
      assert d in cs && forall x <- rest :: x in cs;
      SettledStepIff(E, c, d);
      RewireOneMembers(E, d, LinkOf(c));
      if Settled(R, c) {
        StaysSettledIff(R, c, rest);
      } else {
        var e: Edge :| e.src == c.was && !(e in R <==> e == LinkOf(c));
        assert LinkOf(c) in E;
        EdgeStays(R, rest, e);
      }
    }
  }

  lemma {:induction false} AllSettledIff(E: set<Edge>, cs: seq<Correction>)
    requires Proper(cs) && DistinctTargets(cs)
    ensures (forall c <- cs :: Settled(RewireAll(E, cs), c)) <==> NoRefill(E, cs)
    decreases |cs|
  {
    if cs != [] {
      var c, rest, R := cs[0], cs[1..], RewireOne(E, cs[0]);
      assert cs == [c] + rest && c in cs;
      RewireOneSettles(E, c);
      StaysSettledIff(R, c, rest);
      AllSettledIff(R, rest);
      assert forall d <- rest :: d in cs;
    }
  }

  lemma FixedIffSettled(R: set<Edge>, cs: seq<Correction>)
    requires Proper(cs) && LinkSet(cs) <= R && Acyclic(LinkSet(cs))
    ensures (forall e <- R :: Travel(e, cs) == e) <==> forall c <- cs :: Settled(R, c)
  {
    forall e ensures Travel(e, cs) == e <==> forall c <- cs :: Redirect(e, c) == e {
      TravelFixedIff(e, cs);
    }
    forall c | c in cs ensures LinkOf(c) in R {
      assert LinkOf(c) in LinkSet(cs);
    }
    if forall e <- R :: Travel(e, cs) == e {
      forall c | c in cs ensures Settled(R, c) {
        forall e: Edge | e.src == c.was ensures e in R <==> e == LinkOf(c) {
          assert e in R ==> Redirect(e, c) == e;
        }
      }
    }
    if forall c <- cs :: Settled(R, c) {
      forall e, c | e in R && c in cs ensures Redirect(e, c) == e {
        assert Settled(R, c);
      }
    }
  }

  /** With distinct targets and no circular chain, a second run changes nothing, edge order included,
      exactly when no corrected task is refilled. */
  lemma IntegrateIdempotentIff(es: seq<Edge>, cs: seq<Correction>)
    requires Proper(cs) && DistinctTargets(cs) && Acyclic(LinkSet(cs))
    ensures Integrate(Integrate(es, cs), cs) == Integrate(es, cs) <==> NoRefill(SetOf(es), cs)
  {
    var r := Integrate(es, cs);
    BookkeepingSound(es, cs);
    RewireListMeaning(es, cs);
    DropRepeatsMeaning(RewireList(es, cs));
    LinksStay(SetOf(es), cs);
    SecondRunIff(r, cs);
    FixedIffSettled(SetOf(r), cs);
    AllSettledIff(SetOf(es), cs);
    assert (forall e <- r :: Travel(e, cs) == e) <==> forall e <- SetOf(r) :: Travel(e, cs) == e;
  }

  // ----- two corrections of one task

  lemma {:induction false} RewireAllConcat(E: set<Edge>, cs: seq<Correction>, ds: seq<Correction>)
    ensures RewireAll(E, cs + ds) == RewireAll(RewireAll(E, cs), ds)
    ensures SafeAll(E, cs + ds) <==> SafeAll(E, cs) && SafeAll(RewireAll(E, cs), ds)
    decreases |cs|
  {
    if cs == [] {
      assert cs + ds == ds;
    } else {
      assert (cs + ds)[1..] == cs[1..] + ds;
      RewireAllConcat(RewireOne(E, cs[0]), cs[1..], ds);
    }
  }

  /** The graph that step `i` meets, and what follows it. */
  lemma AtStep(E: set<Edge>, cs: seq<Correction>, i: nat)
    requires i < |cs|
    ensures var M := RewireAll(E, cs[..i]);
            && RewireAll(E, cs) == RewireAll(RewireOne(M, cs[i]), cs[i + 1..])
            && (SafeAll(E, cs) ==> SafeAll(E, cs[..i]) && SafeCorrection(M, cs[i]))
  {
    assert cs == cs[..i] + cs[i..];
    RewireAllConcat(E, cs[..i], cs[i..]);
    assert cs[i..][0] == cs[i] && cs[i..][1..] == cs[i + 1..];
  }

  lemma LeadsOn(E: set<Edge>, cs: seq<Correction>, a: string, b: string)
    requires Leads(E, a, b)
    ensures Leads(RewireAll(E, cs), a, b)
  {
    PathsSurvive(E, cs);
  }

  /** What the corrected task reached before, its new correction reaches after. */
  lemma CorrectionTakesOver(E: set<Edge>, c: Correction, a: string)
    requires Leads(E, c.was, a) && a != c.now
    ensures Leads(RewireOne(E, c), c.now, a)
  {
    var R := RewireOne(E, c);
    var p :| p != [] && Walk(E, c.was, p, a);
    RewireOnePaths(E, c);
    SimulatedPaths(E, R);
    assert Walk(E, p[0], p[1..], a);
    LeadsReach(E, p[0], a);
    ReachRefl(R, a);
    LeadsReach(R, p[0], a);
    if p[0] != c.now {
      RewireOneMembers(E, c, Edge(c.now, p[0]));
      StepReach(R, c.now, p[0], a);
    }
  }

  /** A later correction of the same task leads to the earlier one. */
  lemma LaterLeadsToEarlier(E: set<Edge>, cs: seq<Correction>, i: nat, j: nat)
    requires i < j < |cs| && cs[i].was == cs[j].was && cs[i].now != cs[j].now
    ensures Leads(RewireAll(E, cs), cs[j].was, cs[j].now) && Leads(RewireAll(E, cs), cs[j].now, cs[i].now)
  {
    var c, d := cs[i], cs[j];
    var M := RewireAll(E, cs[..i]);
    RewireOneMembers(M, c, LinkOf(c));
    EdgeLeads(RewireOne(M, c), c.was, c.now);
    AtStep(E, cs[..j], i);
    assert cs[..j][..i] == cs[..i] && cs[..j][i] == c;
    LeadsOn(RewireOne(M, c), cs[..j][i + 1..], c.was, c.now);
    var N := RewireAll(E, cs[..j]);
    CorrectionTakesOver(N, d, c.now);
    RewireOneMembers(N, d, LinkOf(d));
    EdgeLeads(RewireOne(N, d), d.was, d.now);
    AtStep(E, cs, j);
    LeadsOn(RewireOne(N, d), cs[j + 1..], d.was, d.now);
    LeadsOn(RewireOne(N, d), cs[j + 1..], d.now, c.now);
  }

  /** In such a graph the earlier correction is no longer safe. */
  lemma EarlierUnsafe(E: set<Edge>, cs: seq<Correction>, i: nat, b: string)
    requires Proper(cs) && i < |cs| && b != cs[i].now
    requires Leads(E, cs[i].was, b) && Leads(E, b, cs[i].now)
    ensures !(Acyclic(E) && SafeAll(E, cs))
  {
    if Acyclic(E) && SafeAll(E, cs) {
      var c, M := cs[i], RewireAll(E, cs[..i]);
      AtStep(E, cs, i);
      assert forall d <- cs[..i] :: d in cs;
      RewireAllAcyclicIff(E, cs[..i]);
      LeadsOn(E, cs[..i], c.was, b);
      LeadsOn(E, cs[..i], b, c.now);
      UnsafeAt(M, c, b);
    }
  }

  lemma UnsafeAt(M: set<Edge>, c: Correction, b: string)
    requires Acyclic(M) && Leads(M, c.was, b) && Leads(M, b, c.now)
    ensures !SafeCorrection(M, c)
  {
    var p :| p != [] && Walk(M, c.was, p, b);
    assert Walk(M, p[0], p[1..], b);
    LeadsReach(M, b, c.now);
    ReachTrans(M, p[0], b, c.now);
    assert p[0] != c.now;
  }

  /** Two different corrections of one task never settle: if the first run ends acyclic, the second
      one ends with a cycle. */
  lemma SharedTargetNeverSettles(es: seq<Edge>, cs: seq<Correction>, i: nat, j: nat)
    requires Proper(cs) && i < j < |cs| && cs[i].was == cs[j].was && cs[i].now != cs[j].now
    requires Acyclic(SetOf(Integrate(es, cs)))
    ensures !Acyclic(SetOf(Integrate(Integrate(es, cs), cs)))
  {
    var r := Integrate(es, cs);
    IntegrateAcyclicIff(es, cs);
    LaterLeadsToEarlier(SetOf(es), cs, i, j);
    EarlierUnsafe(SetOf(r), cs, i, cs[j].now);
    IntegrateAcyclicIff(r, cs);
  }

  /** Each correcting task makes one correction. */
  ghost predicate DistinctCorrections(cs: seq<Correction>)
  {
    forall i, j :: 0 <= i < j < |cs| ==> cs[i].now != cs[j].now
  }

  lemma {:induction false} ScanSkips(b: Book, c: Correction, i: nat, k: nat)
    requires i <= |b.edges| && k < |b.edges| && c.was != c.now
    requires forall j :: i <= j < |b.edges| && j != k ==> Redirect(b.edges[j], c) == b.edges[j]
    ensures Scan(b, c, i) == if i <= k then ScanOne(b, c, k) else b
    decreases |b.edges| - i
  {
    if i < |b.edges| {
      ScanSkips(ScanOne(b, c, i), c, i + 1, k);
    }
  }

  lemma DropLast(es: seq<Edge>, e: Edge)
    ensures DropRepeats(es + [e]) == if e in es then DropRepeats(es) else DropRepeats(es) + [e]
  {
    assert (es + [e])[..|es|] == es;
  }

  /** After the first two corrections the link of the third is not known any more. */
  lemma SharedSteps(a: string, n: string, z: string, m: string, r: seq<Edge>) returns (b: Book)
    requires a != n && a != z && a != m && n != z && n != m && z != m
    requires r == [Edge(z, m), Edge(n, z), Edge(m, n), Edge(a, m)]
    ensures b == StepBook(StepBook(Book(r, SetOf(r)), Correction(a, n)), Correction(n, z))
    ensures b.edges == [Edge(z, m), Edge(n, z), Edge(m, n), Edge(z, m), Edge(a, n)]
    ensures Edge(a, m) !in b.known && Edge(m, n) in b.known
  {
    var b0, c, d := Book(r, SetOf(r)), Correction(a, n), Correction(n, z);
    assert r[0] in b0.known && r[1] in b0.known && r[2] in b0.known && r[3] in b0.known;
    assert forall e <- b0.known :: e == r[0] || e == r[1] || e == r[2] || e == r[3];
    ScanSkips(AddLink(b0, c), c, 0, 3);
    var b1 := StepBook(b0, c);
    assert b1.edges == [Edge(z, m), Edge(n, z), Edge(m, n), Edge(n, m), Edge(a, n)];
    ScanSkips(AddLink(b1, d), d, 0, 3);
    b := StepBook(b1, d);
  }

  lemma SharedLastStep(a: string, n: string, z: string, m: string, b: Book, c: Correction)
    requires a != n && a != z && a != m && n != z && n != m && z != m && c == Correction(a, m)
    requires b.edges == [Edge(z, m), Edge(n, z), Edge(m, n), Edge(z, m), Edge(a, n)]
    requires Edge(a, m) !in b.known && Edge(m, n) in b.known
    ensures StepBook(b, c).edges == [Edge(z, m), Edge(n, z), Edge(m, n), Edge(z, m), Edge(m, n), Edge(a, m)]
  {
    ScanSkips(AddLink(b, c), c, 0, 4);
  }

  lemma TwoRepeats(r: seq<Edge>, x: Edge, y: Edge, z: Edge)
    requires NoRepeats(r) && x in r && y in r && z !in r && z != x && z != y
    ensures DropRepeats(r + [x] + [y] + [z]) == r + [z]
  {
    DropRepeatsMeaning(r);
    DropLast(r, x);
    DropLast(r + [x], y);
    DropLast(r + [x] + [y], z);
  }

  lemma ThreeCycle(E: set<Edge>, x: string, y: string, z: string)
    requires Edge(x, y) in E && Edge(y, z) in E && Edge(z, x) in E
    ensures !Acyclic(E)
  {
    EdgeLeads(E, z, x);
    StepReach(E, y, z, x);
    StepReach(E, x, y, x);
  }

  lemma ThreeCorrections(b: Book, c: Correction, d: Correction, e: Correction)
    ensures Process(b, [c, d, e]) == StepBook(StepBook(StepBook(b, c), d), e)
  {
    assert [c, d, e][1..] == [d, e] && [d, e][1..] == [e] && [e][1..] == [];
    assert Process(b, [c, d, e]) == Process(StepBook(b, c), [d, e]) == Process(StepBook(StepBook(b, c), d), [e]);
  }

  /** Where the edges are cyclic, two corrections of one task may settle. */
  lemma SharedTargetMaySettle(a: string, n: string, z: string, m: string, r: seq<Edge>, cs: seq<Correction>)
    requires a != n && a != z && a != m && n != z && n != m && z != m
    requires r == [Edge(z, m), Edge(n, z), Edge(m, n), Edge(a, m)]
    requires cs == [Correction(a, n), Correction(n, z), Correction(a, m)]
    ensures Proper(cs) && DistinctCorrections(cs) && !DistinctTargets(cs) && !Acyclic(SetOf(r))
    ensures Integrate(r, cs) == r
  {
    var b := SharedSteps(a, n, z, m, r);
    SharedLastStep(a, n, z, m, b, cs[2]);
    ThreeCorrections(Book(r, SetOf(r)), cs[0], cs[1], cs[2]);
    TwoRepeats(r[..3], r[0], r[2], r[3]);
    assert r[..3] + [r[0]] + [r[2]] + [r[3]] == [r[0], r[1], r[2], r[0], r[2], r[3]];
    assert r[0] in SetOf(r) && r[1] in SetOf(r) && r[2] in SetOf(r);
    ThreeCycle(SetOf(r), z, m, n);
    assert cs[0].was == cs[2].was;
  }

  /** Where the integrated edges are acyclic, a second run changes nothing exactly when no task is
      corrected twice and no corrected task is refilled. */
  lemma SettlesIff(es: seq<Edge>, cs: seq<Correction>)
    requires Proper(cs) && DistinctCorrections(cs) && Acyclic(SetOf(Integrate(es, cs)))
    ensures Integrate(Integrate(es, cs), cs) == Integrate(es, cs) <==> DistinctTargets(cs) && NoRefill(SetOf(es), cs)
  {
    var r := Integrate(es, cs);
    if DistinctTargets(cs) {
      IntegrateAcyclicIff(es, cs);
      LinksStay(SetOf(es), cs);
      SubgraphAcyclic(LinkSet(cs), SetOf(r));
      IntegrateIdempotentIff(es, cs);
    } else {
      var i, j :| 0 <= i < j < |cs| && cs[i].was == cs[j].was;
      SharedTargetNeverSettles(es, cs, i, j);
    }
  }
}
