/** Dependency graphs as sets of edges between task ids: walks, reachability and acyclicity. */
module Graph {

  datatype Edge = Edge(src: string, dst: string)

  /** `p` lists the nodes a walk from `a` visits after `a`; the walk ends in `b`. */
  ghost predicate Walk(E: set<Edge>, a: string, p: seq<string>, b: string)
    decreases |p|
  {
    if p == [] then a == b
    else Edge(a, p[0]) in E && Walk(E, p[0], p[1..], b)
  }

  /** `b` is reachable from `a` in zero or more steps. */
  ghost predicate Reach(E: set<Edge>, a: string, b: string)
  {
    exists p :: Walk(E, a, p, b)
  }

  /** `b` is reachable from `a` in one or more steps. */
  ghost predicate Leads(E: set<Edge>, a: string, b: string)
  {
    exists p :: p != [] && Walk(E, a, p, b)
  }

  ghost predicate Acyclic(E: set<Edge>)
  {
    forall a :: !Leads(E, a, a)
  }

  /** `x` lies on a cycle or some cycle leads to it. */
  ghost predicate BehindCycle(E: set<Edge>, x: string)
  {
    exists c :: Leads(E, c, c) && Reach(E, c, x)
  }

  lemma ReachRefl(E: set<Edge>, a: string)
    ensures Reach(E, a, a)
  {
    assert Walk(E, a, [], a);
  }

  lemma {:induction false} WalkConcat(E: set<Edge>, a: string, p: seq<string>, b: string, q: seq<string>, c: string)
    requires Walk(E, a, p, b) && Walk(E, b, q, c)
    ensures Walk(E, a, p + q, c)
    decreases |p|
  {
    if p == [] {
      assert p + q == q;
    } else {
      WalkConcat(E, p[0], p[1..], b, q, c);
      assert (p + q)[1..] == p[1..] + q;
    }
  }

  lemma ReachTrans(E: set<Edge>, a: string, b: string, c: string)
    requires Reach(E, a, b) && Reach(E, b, c)
    ensures Reach(E, a, c)
    ensures Leads(E, a, b) || Leads(E, b, c) ==> Leads(E, a, c)
  {
    var p :| Walk(E, a, p, b) && (Leads(E, a, b) ==> p != []);
    var q :| Walk(E, b, q, c) && (Leads(E, b, c) ==> q != []);
    WalkConcat(E, a, p, b, q, c);
  }

  lemma EdgeLeads(E: set<Edge>, a: string, b: string)
    requires Edge(a, b) in E
    ensures Leads(E, a, b) && Reach(E, a, b)
  {
    assert Walk(E, b, [b][1..], b);
    assert Walk(E, a, [b], b);
  }

  lemma StepReach(E: set<Edge>, a: string, b: string, c: string)
    requires Edge(a, b) in E && Reach(E, b, c)
    ensures Leads(E, a, c) && Reach(E, a, c)
  {
    EdgeLeads(E, a, b);
    ReachTrans(E, a, b, c);
  }

  lemma LeadsReach(E: set<Edge>, a: string, b: string)
    ensures Leads(E, a, b) ==> Reach(E, a, b)
    ensures Reach(E, a, b) && a != b ==> Leads(E, a, b)
  {
  }

  lemma {:induction false} WalkMono(E: set<Edge>, F: set<Edge>, a: string, p: seq<string>, b: string)
    requires E <= F && Walk(E, a, p, b)
    ensures Walk(F, a, p, b)
    decreases |p|
  {
    if p != [] {
      WalkMono(E, F, p[0], p[1..], b);
    }
  }

  /** Removing edges cannot create a cycle. */
  lemma SubgraphAcyclic(E: set<Edge>, F: set<Edge>)
    requires E <= F && Acyclic(F)
    ensures Acyclic(E)
  {
    forall a ensures !Leads(E, a, a) {
      if Leads(E, a, a) {
        var p :| p != [] && Walk(E, a, p, a);
        WalkMono(E, F, a, p, a);
        assert Leads(F, a, a);
      }
    }
  }

  /** If every edge of `E` is a non-empty path of `F`, so is every non-empty path of `E`. */
  lemma {:induction false} SimulatedWalk(E: set<Edge>, F: set<Edge>, a: string, p: seq<string>, b: string)
    requires forall e :: e in E ==> Leads(F, e.src, e.dst)
    requires p != [] && Walk(E, a, p, b)
    ensures Leads(F, a, b)
    decreases |p|
  {
    assert Leads(F, Edge(a, p[0]).src, Edge(a, p[0]).dst);
    if p[1..] != [] {
      SimulatedWalk(E, F, p[0], p[1..], b);
      LeadsReach(F, a, p[0]);
      LeadsReach(F, p[0], b);
      ReachTrans(F, a, p[0], b);
    }
  }

  lemma SimulatedPaths(E: set<Edge>, F: set<Edge>)
    requires forall e :: e in E ==> Leads(F, e.src, e.dst)
    ensures forall a, b :: Leads(E, a, b) ==> Leads(F, a, b)
    ensures Acyclic(F) ==> Acyclic(E)
  {
    forall a, b | Leads(E, a, b) ensures Leads(F, a, b) {
      var p :| p != [] && Walk(E, a, p, b);
      SimulatedWalk(E, F, a, p, b);
    }
  }

  lemma {:induction false} RankedWalk(E: set<Edge>, rank: string -> int, a: string, p: seq<string>, b: string)
    requires forall e <- E :: rank(e.src) < rank(e.dst)
    requires p != [] && Walk(E, a, p, b)
    ensures rank(a) < rank(b)
    decreases |p|
  {
    assert Edge(a, p[0]) in E;
    if p[1..] != [] {
      RankedWalk(E, rank, p[0], p[1..], b);
    }
  }

  /** A graph whose edges all climb in some ranking has no cycle. */
  lemma RankedAcyclic(E: set<Edge>, rank: string -> int)
    requires forall e <- E :: rank(e.src) < rank(e.dst)
    ensures Acyclic(E)
  {
    forall a, p | p != [] && Walk(E, a, p, a) ensures false {
      RankedWalk(E, rank, a, p, a);
    }
  }
}
