/** Where the edges of a plan are after the rewiring loop, edge by edge. */
module Arrivals {
  import opened Graph
  import opened Rewire
  import opened RewireLoop
  import opened RewireSettle

  /** Some edge, or the link of some correction, ends up as `e`. */
  ghost predicate Arrives(E: set<Edge>, cs: seq<Correction>, e: Edge)
  {
    || (exists f :: f in E && Travel(f, cs) == e)
    || (exists i :: 0 <= i < |cs| && Travel(LinkOf(cs[i]), cs[i + 1..]) == e)
  }

  /** The same for the loop, where a misled step adds no link. */
  ghost predicate LandsOn(b: Book, cs: seq<Correction>, e: Edge)
  {
    || (exists f :: f in b.edges && Travel(f, cs) == e)
    || (exists i :: 0 <= i < |cs| && !Misled(Process(b, cs[..i]), cs[i]) && Travel(LinkOf(cs[i]), cs[i + 1..]) == e)
  }

  lemma LinkOrEdge(E: set<Edge>, c: Correction, f: Edge)
    ensures f in RewireOne(E, c) <==> f == LinkOf(c) || exists g :: g in E && f == Redirect(g, c)
  {
    if f in RewireOne(E, c) && f != LinkOf(c) {
      var g :| g in E && f == Redirect(g, c);
    }
  }

  /** Each edge travels alone: the rewired set is what its edges and its links become. */
  lemma {:induction false} RewireAllArrives(E: set<Edge>, cs: seq<Correction>, e: Edge)
    ensures e in RewireAll(E, cs) <==> Arrives(E, cs, e)
    decreases |cs|
  {
    if cs != [] {
      var c, rest, R := cs[0], cs[1..], RewireOne(E, cs[0]);
      RewireAllArrives(R, rest, e);
      if Arrives(R, rest, e) {
        if f :| f in R && Travel(f, rest) == e {
          LinkOrEdge(E, c, f);
          if f == LinkOf(c) {
            assert Travel(LinkOf(cs[0]), cs[0 + 1..]) == e;
          } else {
            var g :| g in E && f == Redirect(g, c);
            assert Travel(g, cs) == e;
          }
        } else {
          var i :| 0 <= i < |rest| && Travel(LinkOf(rest[i]), rest[i + 1..]) == e;
          assert cs[i + 1] == rest[i] && cs[i + 1 + 1..] == rest[i + 1..];
        }
      }
      if Arrives(E, cs, e) {
        ArrivesStep(E, cs, e);
      }
    }
  }

  lemma ArrivesStep(E: set<Edge>, cs: seq<Correction>, e: Edge)
    requires cs != [] && Arrives(E, cs, e)
    ensures Arrives(RewireOne(E, cs[0]), cs[1..], e)
  {
    var c, rest, R := cs[0], cs[1..], RewireOne(E, cs[0]);
    if f :| f in E && Travel(f, cs) == e {
      LinkOrEdge(E, c, Redirect(f, c));
      assert Redirect(f, c) in R && Travel(Redirect(f, c), rest) == e;
    } else {
      var i :| 0 <= i < |cs| && Travel(LinkOf(cs[i]), cs[i + 1..]) == e;
      if i == 0 {
        assert LinkOf(c) in R && Travel(LinkOf(c), rest) == e;
      } else {
        assert cs[i] == rest[i - 1] && cs[i + 1..] == rest[i - 1 + 1..];
      }
    }
  }

  lemma ProcessTail(b: Book, cs: seq<Correction>, i: nat)
    requires cs != [] && i < |cs|
    ensures i > 0 ==> Process(b, cs[..i]) == Process(StepBook(b, cs[0]), cs[1..][..i - 1])
    ensures i == 0 ==> Process(b, cs[..i]) == b
  {
    if i > 0 {
      assert cs[..i][0] == cs[0] && cs[..i][1..] == cs[1..][..i - 1];
    }
  }

  lemma StepEdges(b: Book, c: Correction, f: Edge)
    ensures f in StepBook(b, c).edges <==>
            (f == LinkOf(c) && !Misled(b, c)) || exists g :: g in b.edges && f == Redirect(g, c)
  {
    StepMeaning(b, c);
    var E, r := SetOf(b.edges), StepBook(b, c);
    assert f in r.edges <==> f in SetOf(r.edges);
    LinkOrEdge(E, c, f);
    if Misled(b, c) && f in RedirectSet(E, c) {
      var g :| g in E && f == Redirect(g, c);
      assert g in b.edges;
    }
    if g :| g in b.edges && f == Redirect(g, c) {
      assert g in E;
    }
  }

  lemma {:induction false} ProcessLands(b: Book, cs: seq<Correction>, e: Edge)
    ensures e in Process(b, cs).edges <==> LandsOn(b, cs, e)
    decreases |cs|
  {
    if cs != [] {
      ProcessLands(StepBook(b, cs[0]), cs[1..], e);
      if LandsOn(StepBook(b, cs[0]), cs[1..], e) {
        LandsForward(b, cs, e);
      }
      if LandsOn(b, cs, e) {
        LandsBack(b, cs, e);
      }
    }
  }

  lemma LandsForward(b: Book, cs: seq<Correction>, e: Edge)
    requires cs != [] && LandsOn(StepBook(b, cs[0]), cs[1..], e)
    ensures LandsOn(b, cs, e)
  {
    var c, rest, r := cs[0], cs[1..], StepBook(b, cs[0]);
    if f :| f in r.edges && Travel(f, rest) == e {
      StepEdges(b, c, f);
      if g :| g in b.edges && f == Redirect(g, c) {
        assert Travel(g, cs) == e;
      } else {
        ProcessTail(b, cs, 0);
        assert !Misled(Process(b, cs[..0]), cs[0]) && Travel(LinkOf(cs[0]), cs[0 + 1..]) == e;
      }
    } else {
      var i :| 0 <= i < |rest| && !Misled(Process(r, rest[..i]), rest[i]) &&
          Travel(LinkOf(rest[i]), rest[i + 1..]) == e;
      ProcessTail(b, cs, i + 1);
      assert cs[i + 1] == rest[i] && cs[i + 1 + 1..] == rest[i + 1..];
    }
  }

  lemma LandsBack(b: Book, cs: seq<Correction>, e: Edge)
    requires cs != [] && LandsOn(b, cs, e)
    ensures LandsOn(StepBook(b, cs[0]), cs[1..], e)
  {
    var c, rest, r := cs[0], cs[1..], StepBook(b, cs[0]);
    if g :| g in b.edges && Travel(g, cs) == e {
      StepEdges(b, c, Redirect(g, c));
      assert Redirect(g, c) in r.edges && Travel(Redirect(g, c), rest) == e;
    } else {
      var i :| 0 <= i < |cs| && !Misled(Process(b, cs[..i]), cs[i]) && Travel(LinkOf(cs[i]), cs[i + 1..]) == e;
      ProcessTail(b, cs, i);
      if i == 0 {
        StepEdges(b, c, LinkOf(c));
        assert LinkOf(c) in r.edges && Travel(LinkOf(c), rest) == e;
      } else {
        assert rest[i - 1] == cs[i] && rest[i - 1 + 1..] == cs[i + 1..];
      }
    }
  }

  /** The integrated edges of any list of corrections, edge by edge. */
  lemma IntegrateLands(es: seq<Edge>, cs: seq<Correction>, e: Edge)
    ensures e in Integrate(es, cs) <==> LandsOn(Book(es, SetOf(es)), cs, e)
  {
    var b := Book(es, SetOf(es));
    ProcessLands(b, cs, e);
    DropRepeatsMeaning(Process(b, cs).edges);
    assert e in Integrate(es, cs) <==> e in SetOf(Process(b, cs).edges);
  }

  // ----- an edge that stays in place

  lemma {:induction false} TravelLeaves(e: Edge, cs: seq<Correction>, x: string)
    requires forall c <- cs :: c.now != x
    ensures e.src != x ==> Travel(e, cs).src != x
    ensures (exists c :: c in cs && Redirect(e, c) != e) ==> Travel(e, cs).src != x || e.src != x
    decreases |cs|
  {
    if cs != [] {
      var c, f, rest := cs[0], Redirect(e, cs[0]), cs[1..];
      assert c in cs && forall d <- rest :: d in cs;
      TravelLeaves(f, rest, x);
      if d :| d in cs && Redirect(e, d) != e {
        if f == e {
          assert d in rest;
        }
      }
    }
  }

  /** An edge out of a task that corrects nothing survives the loop exactly when no correction of that
      task names another successor. */
  lemma EdgeSurvivesIff(es: seq<Edge>, cs: seq<Correction>, e: Edge)
    requires e in es && DistinctTargets(cs) && forall c <- cs :: c.now != e.src
    ensures e in Integrate(es, cs) <==> forall c <- cs :: c.was == e.src ==> c.now == e.dst
  {
    var b := Book(es, SetOf(es));
    IntegrateLands(es, cs, e);
    if forall c <- cs :: c.was == e.src ==> c.now == e.dst {
      UnmovedTravel(e, cs);
      assert e in b.edges;
    } else {
      var c :| c in cs && c.was == e.src && c.now != e.dst;
      assert Redirect(e, c) != e;
      forall f | f in b.edges ensures Travel(f, cs) != e {
        TravelLeaves(f, cs, e.src);
      }
      forall i | 0 <= i < |cs| ensures Travel(LinkOf(cs[i]), cs[i + 1..]) != e {
        assert forall d <- cs[i + 1..] :: d in cs;
        TravelLeaves(LinkOf(cs[i]), cs[i + 1..], e.src);
        assert cs[i] in cs;
      }
    }
  }

  // ----- when a second run changes nothing, circular chains included

  lemma LinkRests(cs: seq<Correction>, i: nat)
    requires DistinctTargets(cs) && i < |cs|
    ensures Travel(LinkOf(cs[i]), cs[i + 1..]) == LinkOf(cs[i])
  {
    var rest := cs[i + 1..];
    forall d | d in rest ensures Redirect(LinkOf(cs[i]), d) == LinkOf(cs[i]) {
      var j :| 0 <= j < |rest| && rest[j] == d;
      assert d == cs[i + 1 + j];
    }
    UnmovedTravel(LinkOf(cs[i]), rest);
  }

  lemma LinkFixed(cs: seq<Correction>, c: Correction)
    requires DistinctTargets(cs) && c in cs
    ensures Travel(LinkOf(c), cs) == LinkOf(c)
  {
    forall d | d in cs ensures Redirect(LinkOf(c), d) == LinkOf(c) {
      var i, j :| 0 <= i < |cs| && 0 <= j < |cs| && cs[i] == c && cs[j] == d;
    }
    UnmovedTravel(LinkOf(c), cs);
  }

  /** For distinct targets the integrated edges are the links and where the edges end up. */
  lemma DistinctLands(es: seq<Edge>, cs: seq<Correction>, e: Edge)
    requires DistinctTargets(cs)
    ensures e in Integrate(es, cs) <==> e in LinkSet(cs) || exists f :: f in es && Travel(f, cs) == e
  {
    BookkeepingSound(es, cs);
    RewireListMeaning(es, cs);
    DropRepeatsMeaning(RewireList(es, cs));
    assert e in Integrate(es, cs) <==> e in SetOf(Integrate(es, cs));
    RewireAllArrives(SetOf(es), cs, e);
    forall i | 0 <= i < |cs| ensures Travel(LinkOf(cs[i]), cs[i + 1..]) == LinkOf(cs[i]) {
      LinkRests(cs, i);
    }
    if e in LinkSet(cs) {
      var c :| c in cs && e == LinkOf(c);
      var i :| 0 <= i < |cs| && cs[i] == c;
    }
    if f :| f in es && Travel(f, cs) == e {
      assert f in SetOf(es);
    }
  }

  /** For distinct targets a second run changes nothing exactly when no edge moves on from where the
      first run took it. */
  lemma DistinctSettlesIff(es: seq<Edge>, cs: seq<Correction>)
    requires DistinctTargets(cs)
    ensures Integrate(Integrate(es, cs), cs) == Integrate(es, cs) <==>
            forall f <- es :: Travel(Travel(f, cs), cs) == Travel(f, cs)
  {
    var r := Integrate(es, cs);
    forall e ensures e in r <==> e in LinkSet(cs) || exists f :: f in es && Travel(f, cs) == e {
      DistinctLands(es, cs, e);
    }
    DropRepeatsMeaning(Process(Book(es, SetOf(es)), cs).edges);
    forall l | l in LinkSet(cs) ensures l in SetOf(r) && Travel(l, cs) == l {
      var c :| c in cs && l == LinkOf(c);
      LinkFixed(cs, c);
      assert l in r;
    }
    SecondRunIff(r, cs);
    if forall e <- r :: Travel(e, cs) == e {
      forall f | f in es ensures Travel(Travel(f, cs), cs) == Travel(f, cs) {
        assert Travel(f, cs) in r;
      }
    }
  }

  // ----- when no correcting task is itself corrected

  ghost predicate Unchained(cs: seq<Correction>)
  {
    forall c <- cs, d <- cs :: c.now != d.was
  }

  lemma {:induction false} UnchainedTravel(f: Edge, cs: seq<Correction>, c: Correction)
    requires DistinctTargets(cs) && Unchained(cs) && c in cs && c.was == f.src
    ensures Travel(f, cs) == Redirect(f, c)
    decreases |cs|
  {
    var rest := cs[1..];
    assert cs == [cs[0]] + rest;
    forall d | d in rest ensures d in cs && d.was != cs[0].was {
      var i :| 0 <= i < |rest| && rest[i] == d;
      assert cs[i + 1] == d;
    }
    if cs[0] == c {
      UnmovedTravel(Redirect(f, c), rest);
    } else {
      assert c in rest && Redirect(f, cs[0]) == f;
      UnchainedTravel(f, rest, c);
    }
  }

  /** The edge was there and its task is not corrected, or it comes from a task that is. */
  ghost predicate Carried(E: set<Edge>, cs: seq<Correction>, e: Edge)
  {
    || (e in E && forall c <- cs :: c.was != e.src)
    || (exists c :: c in cs && c.now == e.src && c.now != e.dst && Edge(c.was, e.dst) in E)
  }

  lemma CarriedArrives(E: set<Edge>, cs: seq<Correction>, e: Edge)
    requires DistinctTargets(cs) && Unchained(cs) && Carried(E, cs, e)
    ensures Arrives(E, cs, e)
  {
    if e in E && forall c <- cs :: c.was != e.src {
      UnmovedTravel(e, cs);
    } else {
      var c :| c in cs && c.now == e.src && c.now != e.dst && Edge(c.was, e.dst) in E;
      UnchainedTravel(Edge(c.was, e.dst), cs, c);
    }
  }

  lemma ArrivedCarried(E: set<Edge>, cs: seq<Correction>, f: Edge)
    requires DistinctTargets(cs) && Unchained(cs) && f in E
    ensures Travel(f, cs) in LinkSet(cs) || Carried(E, cs, Travel(f, cs))
  {
    if c :| c in cs && c.was == f.src {
      UnchainedTravel(f, cs, c);
      assert f == Edge(c.was, f.dst);
      if f.dst == c.now {
        assert f == LinkOf(c);
      }
    } else {
      UnmovedTravel(f, cs);
    }
  }

  /** The edges that arrive: the links, the edges out of tasks that are not corrected, and the edges of
      corrected tasks, moved to their corrections. */
  lemma UnchainedArrivesIff(E: set<Edge>, cs: seq<Correction>, e: Edge)
    requires DistinctTargets(cs) && Unchained(cs)
    ensures Arrives(E, cs, e) <==> e in LinkSet(cs) || Carried(E, cs, e)
  {
    forall i | 0 <= i < |cs| ensures Travel(LinkOf(cs[i]), cs[i + 1..]) == LinkOf(cs[i]) {
      LinkRests(cs, i);
    }
    if e in LinkSet(cs) {
      var c :| c in cs && e == LinkOf(c);
      var i :| 0 <= i < |cs| && cs[i] == c;
      assert Travel(LinkOf(cs[i]), cs[i + 1..]) == e;
    } else if Carried(E, cs, e) {
      CarriedArrives(E, cs, e);
    } else {
      forall f | f in E ensures Travel(f, cs) != e {
        ArrivedCarried(E, cs, f);
      }
    }
  }
}
