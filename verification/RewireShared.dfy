/** Two corrections of one task, whatever the edges: when no correcting task is itself corrected, a run
    never leaves the edges as they are. */
module RewireShared {
  import opened Graph
  import opened Rewire
  import opened RewireLoop
  import opened RewireSettle
  import opened RewireFixed
  import opened Arrivals

  // ----- the known edges out of a task that corrects nothing

  lemma {:induction false} ScanKnowsNothingNew(b: Book, c: Correction, i: nat, e: Edge)
    requires i <= |b.edges| && e.src != c.now && e !in b.known
    ensures e !in Scan(b, c, i).known
    decreases |b.edges| - i
  {
    if i < |b.edges| {
      ScanKnowsNothingNew(ScanOne(b, c, i), c, i + 1, e);
    }
  }

  /** A known edge stays known when it is not moved, or is moved onto a known one. */
  lemma {:induction false} ScanStillKnows(b: Book, c: Correction, i: nat, e: Edge)
    requires i <= |b.edges| && e in b.known && c.was != c.now
    requires e in b.edges[i..] && Redirect(e, c) != e ==> Redirect(e, c) in b.known
    ensures e in Scan(b, c, i).known
    decreases |b.edges| - i
  {
    if i < |b.edges| {
      var n, f := ScanOne(b, c, i), Redirect(e, c);
      assert b.edges[i] in b.edges[i..] && b.edges[i..] == [b.edges[i]] + b.edges[i + 1..];
      assert n.edges[i + 1..] == b.edges[i + 1..];
      ScanStillKnows(n, c, i + 1, e);
    }
  }

  // ----- a link that is not known is appended

  lemma {:induction false} UnknownIsAppended(b: Book, cs: seq<Correction>, j: nat)
    requires j < |cs| && LinkOf(cs[j]) !in b.known && forall c <- cs :: c.now != cs[j].was
    requires forall i :: 0 <= i < |cs| && i != j ==> cs[i].now != cs[j].now
    requires forall i :: j < i < |cs| ==> cs[i].was != cs[j].was
    ensures LinkOf(cs[j]) in Appended(b, cs)
    decreases |cs|
  {
    var c, rest, g := cs[0], cs[1..], LinkOf(cs[j]);
    if j == 0 {
      forall d | d in rest ensures Redirect(g, d) == g {
        var i :| 0 <= i < |rest| && rest[i] == d;
        assert cs[i + 1] == d;
      }
      UnmovedTravel(g, rest);
    } else {
      assert c in cs && g != LinkOf(c) && forall d <- rest :: d in cs;
      ScanKnowsNothingNew(AddLink(b, c), c, 0, g);
      UnknownIsAppended(StepBook(b, c), rest, j - 1);
    }
  }

  // ----- a known one that moved away is not

  lemma LinkLandsElsewhere(c: Correction, rest: seq<Correction>, g: Edge)
    requires LinkOf(c) != g && forall d <- rest :: d.now != g.src
    ensures Travel(LinkOf(c), rest) != g
  {
    TravelLeaves(LinkOf(c), rest, g.src);
  }

  lemma {:induction false} StaleIsNotAppended(b: Book, cs: seq<Correction>, g: Edge)
    requires Proper(cs) && g in b.known && g !in b.edges && forall c <- cs :: c.now != g.src
    ensures g !in Appended(b, cs)
    decreases |cs|
  {
    if cs != [] {
      var c, rest, a := cs[0], cs[1..], AddLink(b, cs[0]);
      assert c in cs && forall d <- rest :: d in cs;
      if LinkOf(c) !in b.known {
        LinkLandsElsewhere(c, rest, g);
      }
      assert g !in a.edges;
      ScanStillKnows(a, c, 0, g);
      StepEdges(b, c, g);
      StaleIsNotAppended(StepBook(b, c), rest, g);
    }
  }

  /** The first correction moves the link of the last one onto a known edge. */
  lemma FirstMakesStale(b: Book, c: Correction, g: Edge)
    requires c.was != c.now && g.src == c.was && g.dst != c.now && g in b.known && Edge(c.now, g.dst) in b.known
    ensures g in StepBook(b, c).known && g !in StepBook(b, c).edges
  {
    ScanStillKnows(AddLink(b, c), c, 0, g);
    StepEdges(b, c, g);
  }

  lemma {:induction false} MovedIsNotAppended(b: Book, cs: seq<Correction>, i: nat, g: Edge)
    requires Proper(cs) && i < |cs| && cs[i].was == g.src && cs[i].now != g.dst
    requires g in b.known && Edge(cs[i].now, g.dst) in b.known
    requires forall c <- cs :: c.now != g.src && c.was != cs[i].now
    requires forall l :: 0 <= l < i ==> cs[l].was != g.src
    ensures g !in Appended(b, cs)
    decreases |cs|
  {
    var c, rest, h := cs[0], cs[1..], Edge(cs[i].now, g.dst);
    assert c in cs && forall d <- rest :: d in cs;
    LinkLandsElsewhere(c, rest, g);
    if i == 0 {
      FirstMakesStale(b, c, g);
      StaleIsNotAppended(StepBook(b, c), rest, g);
    } else {
      ScanStillKnows(AddLink(b, c), c, 0, g);
      ScanStillKnows(AddLink(b, c), c, 0, h);
      MovedIsNotAppended(StepBook(b, c), rest, i - 1, g);
    }
  }

  // ----- two corrections of one task

  /** `i` is the first and `j` the last correction of a task that corrects nothing, and the first
      correcting task is not corrected. */
  ghost predicate SharedRoot(cs: seq<Correction>, i: nat, j: nat)
  {
    && i < j < |cs| && cs[i].was == cs[j].was
    && (forall l :: 0 <= l < i || j < l < |cs| ==> cs[l].was != cs[j].was)
    && (forall c <- cs :: c.now != cs[j].was && c.was != cs[i].now)
  }

  /** The link of the last correction is not among the edges, or moves away and is not put back. */
  lemma SharedRootUnsettled(r: seq<Edge>, cs: seq<Correction>, i: nat, j: nat)
    requires Proper(cs) && DistinctCorrections(cs) && SharedRoot(cs, i, j)
    ensures SetOf(Integrate(r, cs)) != SetOf(r)
  {
    var b, g := Book(r, SetOf(r)), LinkOf(cs[j]);
    SameEdgesIff(r, cs);
    if SetOf(Integrate(r, cs)) == SetOf(r) {
      if g in r {
        RootEdgeTravels(cs, i, g);
        assert Travel(g, cs) in r;
        MovedIsNotAppended(b, cs, i, g);
        assert cs[i] in cs && Redirect(g, cs[i]) != g;
        var f :| f in r && Travel(f, cs) == g;
        TravelLeaves(f, cs, g.src);
        assert false;
      } else {
        UnknownIsAppended(b, cs, j);
        assert false;
      }
    }
  }

  /** An edge out of the task moves to its first correction and no further. */
  lemma {:induction false} RootEdgeTravels(cs: seq<Correction>, i: nat, g: Edge)
    requires i < |cs| && cs[i].was == g.src && cs[i].now != g.dst
    requires forall c <- cs :: c.was != cs[i].now
    requires forall l :: 0 <= l < i ==> cs[l].was != g.src
    ensures Travel(g, cs) == Edge(cs[i].now, g.dst)
    decreases |cs|
  {
    var c, rest := cs[0], cs[1..];
    assert c in cs && forall d <- rest :: d in cs;
    if i == 0 {
      UnmovedTravel(Edge(c.now, g.dst), rest);
    } else {
      RootEdgeTravels(rest, i - 1, g);
    }
  }

  lemma {:induction false} FirstOf(cs: seq<Correction>, x: string, k: nat) returns (i: nat)
    requires k < |cs| && cs[k].was == x
    ensures i <= k && cs[i].was == x && forall l :: 0 <= l < i ==> cs[l].was != x
    decreases k
  {
    i := k;
    if l :| 0 <= l < k && cs[l].was == x {
      i := FirstOf(cs, x, l);
    }
  }

  lemma {:induction false} LastOf(cs: seq<Correction>, x: string, k: nat) returns (j: nat)
    requires k < |cs| && cs[k].was == x
    ensures k <= j < |cs| && cs[j].was == x && forall l :: j < l < |cs| ==> cs[l].was != x
    decreases |cs| - k
  {
    j := k;
    if l :| k < l < |cs| && cs[l].was == x {
      j := LastOf(cs, x, l);
    }
  }

  /** When no correcting task is itself corrected, a second run changes nothing exactly when no task is
      corrected twice, whatever the edges. */
  lemma UnchainedSettlesIff(es: seq<Edge>, cs: seq<Correction>)
    requires Proper(cs) && DistinctCorrections(cs) && Unchained(cs)
    ensures Integrate(Integrate(es, cs), cs) == Integrate(es, cs) <==> DistinctTargets(cs)
  {
    if DistinctTargets(cs) {
      IntegrateIdempotent(es, cs);
    } else {
      var k, l :| 0 <= k < l < |cs| && cs[k].was == cs[l].was;
      var i := FirstOf(cs, cs[k].was, k);
      var j := LastOf(cs, cs[l].was, l);
      assert forall c <- cs :: c.now != cs[j].was && c.was != cs[i].now;
      SharedRootUnsettled(Integrate(es, cs), cs, i, j);
    }
  }
}
