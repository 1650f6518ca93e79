/** Which lists of edges a run of the rewiring leaves as they are, whatever the corrections. */
module RewireFixed {
  import opened Graph
  import opened Rewire
  import opened RewireLoop
  import opened RewireSettle

  // ----- where everything comes to rest, in list order

  function Trips(es: seq<Edge>, cs: seq<Correction>): (r: seq<Edge>)
    ensures |r| == |es| && forall i :: 0 <= i < |es| ==> r[i] == Travel(es[i], cs)
  {
    seq(|es|, i requires 0 <= i < |es| => Travel(es[i], cs))
  }

  /** Where the links come to rest that the loop appends, because it does not know them when it gets
      to their corrections. */
  function Appended(b: Book, cs: seq<Correction>): (r: seq<Edge>)
    decreases |cs|
  {
    if cs == [] then []
    else (if LinkOf(cs[0]) in b.known then [] else [Travel(LinkOf(cs[0]), cs[1..])]) +
         Appended(StepBook(b, cs[0]), cs[1..])
  }

  function Landings(es: seq<Edge>, cs: seq<Correction>): (r: seq<Edge>)
  {
    Trips(es, cs) + Appended(Book(es, SetOf(es)), cs)
  }

  lemma StepList(b: Book, c: Correction)
    ensures StepBook(b, c).edges == RedirectAll(b.edges, c) + if LinkOf(c) in b.known then [] else [LinkOf(c)]
  {
    var a := AddLink(b, c);
    ScanEdges(a, c, 0);
    assert a.edges[..0] == [] && a.edges[0..] == a.edges;
  }

  lemma {:induction false} RunTrips(b: Book, cs: seq<Correction>)
    ensures Process(b, cs).edges == Trips(b.edges, cs) + Appended(b, cs)
    decreases |cs|
  {
    if cs == [] {
      assert Trips(b.edges, cs) == b.edges;
    } else {
      var c, rest, n := cs[0], cs[1..], StepBook(b, cs[0]);
      StepList(b, c);
      RunTrips(n, rest);
      assert Trips(RedirectAll(b.edges, c), rest) == Trips(b.edges, cs);
      if LinkOf(c) in b.known {
        assert n.edges == RedirectAll(b.edges, c);
      } else {
        assert Trips(n.edges, rest) == Trips(b.edges, cs) + [Travel(LinkOf(c), rest)];
      }
    }
  }

  // ----- removing repeats

  /** The edge is in `r`, and everything before it in `r` has come already. */
  ghost predicate InTurn(e: Edge, r: seq<Edge>, before: seq<Edge>)
  {
    exists k :: 0 <= k < |r| && r[k] == e && forall l :: 0 <= l < k ==> r[l] in before
  }

  /** Each edge comes in its turn, and all of `r` does. */
  ghost predicate FillsInOrder(m: seq<Edge>, r: seq<Edge>)
  {
    (forall j :: 0 <= j < |m| ==> InTurn(m[j], r, m[..j])) && forall e <- r :: e in m
  }

  lemma {:induction false} DroppedFills(m: seq<Edge>)
    ensures FillsInOrder(m, DropRepeats(m))
    decreases |m|
  {
    if m != [] {
      var front, e, d, r := m[..|m| - 1], m[|m| - 1], DropRepeats(m[..|m| - 1]), DropRepeats(m);
      assert m == front + [e];
      DroppedFills(front);
      forall j | 0 <= j < |m| ensures InTurn(m[j], r, m[..j]) {
        if j < |front| {
          assert front[j] == m[j] && front[..j] == m[..j];
          assert InTurn(front[j], d, front[..j]);
          var k :| 0 <= k < |d| && d[k] == m[j] && forall l :: 0 <= l < k ==> d[l] in m[..j];
          assert r[k] == d[k] && forall l :: 0 <= l < k ==> r[l] == d[l];
        } else {
          assert m[..j] == front;
          LastInTurn(front, e, d, r);
        }
      }
    }
  }

  lemma LastInTurn(front: seq<Edge>, e: Edge, d: seq<Edge>, r: seq<Edge>)
    requires FillsInOrder(front, d) && r == if e in front then d else d + [e]
    ensures InTurn(e, r, front)
  {
    forall k | 0 <= k < |d| ensures d[k] in front {
      assert d[k] in d;
    }
    if e in front {
      var j :| 0 <= j < |front| && front[j] == e;
      assert InTurn(front[j], d, front[..j]);
      var k :| 0 <= k < |d| && d[k] == e && forall l :: 0 <= l < k ==> d[l] in front[..j];
    } else {
      assert r[|d|] == e;
    }
  }

  /** What has a successor in `r` came before the end. */
  lemma EarlierCame(m: seq<Edge>, r: seq<Edge>, k: nat)
    requires NoRepeats(r) && FillsInOrder(m, r) && k + 1 < |r|
    ensures m != [] && r[k] in m[..|m| - 1]
  {
    var x := r[k + 1];
    assert x in r;
    var j :| 0 <= j < |m| && m[j] == x;
    assert InTurn(m[j], r, m[..j]);
    var i :| 0 <= i < |r| && r[i] == x && forall l :: 0 <= l < i ==> r[l] in m[..j];
    assert i == k + 1;
    assert forall y <- m[..j] :: y in m[..|m| - 1];
  }

  lemma RepeatedFills(m: seq<Edge>, r: seq<Edge>, front: seq<Edge>, e: Edge)
    requires m == front + [e] && FillsInOrder(m, r) && e in front
    ensures FillsInOrder(front, r)
  {
    forall j | 0 <= j < |front| ensures InTurn(front[j], r, front[..j]) {
      assert front[j] == m[j] && front[..j] == m[..j];
    }
  }

  lemma TurnOf(m: seq<Edge>, r: seq<Edge>, j: nat) returns (k: nat)
    requires FillsInOrder(m, r) && j < |m|
    ensures k < |r| && r[k] == m[j] && forall x <- r[..k] :: x in m[..j]
  {
    assert InTurn(m[j], r, m[..j]);
    k :| 0 <= k < |r| && r[k] == m[j] && forall l :: 0 <= l < k ==> r[l] in m[..j];
  }

  lemma NewIsLast(m: seq<Edge>, r: seq<Edge>, front: seq<Edge>, e: Edge)
    requires m == front + [e] && NoRepeats(r) && FillsInOrder(m, r) && e !in front
    ensures r != [] && r[|r| - 1] == e && forall x <- r[..|r| - 1] :: x in front
  {
    assert m[|front|] == e && m[..|front|] == front;
    var k := TurnOf(m, r, |front|);
    if k + 1 < |r| {
      EarlierCame(m, r, k);
      assert false;
    }
  }

  lemma NewFills(m: seq<Edge>, r: seq<Edge>, front: seq<Edge>, e: Edge, s: seq<Edge>)
    requires m == front + [e] && r == s + [e] && NoRepeats(r) && FillsInOrder(m, r) && e !in front
    requires forall x <- s :: x in front
    ensures FillsInOrder(front, s)
  {
    forall j | 0 <= j < |front| ensures InTurn(front[j], s, front[..j]) {
      assert front[j] == m[j] && front[..j] == m[..j] && front[j] in front;
      assert InTurn(m[j], r, m[..j]);
      var i :| 0 <= i < |r| && r[i] == m[j] && forall l :: 0 <= l < i ==> r[l] in m[..j];
      assert i < |s| && s[i] == front[j] && forall l :: 0 <= l < i ==> s[l] == r[l];
    }
  }

  lemma FillsNew(m: seq<Edge>, r: seq<Edge>, front: seq<Edge>, e: Edge, s: seq<Edge>)
    requires m == front + [e] && r != [] && r[|r| - 1] == e && s == r[..|r| - 1] && NoRepeats(r)
    requires FillsInOrder(m, r) && e !in front && forall x <- s :: x in front
    ensures NoRepeats(s) && FillsInOrder(front, s) && r == s + [e]
  {
    assert forall i :: 0 <= i < |s| ==> s[i] == r[i];
    NewFills(m, r, front, e, s);
  }

  lemma WithoutLast(m: seq<Edge>, r: seq<Edge>) returns (front: seq<Edge>, e: Edge, s: seq<Edge>)
    requires NoRepeats(r) && FillsInOrder(m, r) && m != []
    ensures m == front + [e] && NoRepeats(s) && FillsInOrder(front, s) && r == if e in front then s else s + [e]
  {
    front, e, s := m[..|m| - 1], m[|m| - 1], r;
    assert m == front + [e];
    if e in front {
      RepeatedFills(m, r, front, e);
    } else {
      NewIsLast(m, r, front, e);
      s := r[..|r| - 1];
      FillsNew(m, r, front, e, s);
    }
  }

  lemma SomeUnfilled(r: seq<Edge>)
    requires r != []
    ensures !FillsInOrder([], r)
  {
    assert r[0] in r;
  }

  lemma {:induction false} FillsDrops(m: seq<Edge>, r: seq<Edge>)
    requires NoRepeats(r) && FillsInOrder(m, r)
    ensures DropRepeats(m) == r
    decreases |m|
  {
    if m == [] {
      if r != [] {
        SomeUnfilled(r);
      }
    } else {
      var front, e, s := WithoutLast(m, r);
      FillsDrops(front, s);
      DropLast(front, e);
    }
  }

  /** Removing repeats gives `r` exactly when its edges come in order. */
  lemma DropRepeatsIff(m: seq<Edge>, r: seq<Edge>)
    requires NoRepeats(r)
    ensures DropRepeats(m) == r <==> FillsInOrder(m, r)
  {
    DroppedFills(m);
    if FillsInOrder(m, r) {
      FillsDrops(m, r);
    }
  }

  // ----- the fixed points

  /** For every list of corrections, a run leaves a repeat-free list as it is exactly when its edges
      and the appended links come to rest on it in order. */
  lemma FixedIff(r: seq<Edge>, cs: seq<Correction>)
    requires NoRepeats(r)
    ensures Integrate(r, cs) == r <==> FillsInOrder(Landings(r, cs), r)
  {
    RunTrips(Book(r, SetOf(r)), cs);
    DropRepeatsIff(Landings(r, cs), r);
  }

  /** So a second run changes nothing exactly when the edges of the first one do. */
  lemma SecondRunFixedIff(es: seq<Edge>, cs: seq<Correction>)
    ensures var r := Integrate(es, cs);
            Integrate(r, cs) == r <==> FillsInOrder(Landings(r, cs), r)
  {
    DropRepeatsMeaning(Process(Book(es, SetOf(es)), cs).edges);
    FixedIff(Integrate(es, cs), cs);
  }

  /** Leaving the order aside: a run keeps the set of edges exactly when every edge moves to one of
      them, every appended link lands on one, and an edge that moves away is replaced. */
  lemma SameEdgesIff(r: seq<Edge>, cs: seq<Correction>)
    ensures SetOf(Integrate(r, cs)) == SetOf(r) <==>
            && (forall f <- r :: Travel(f, cs) in r)
            && (forall l <- Appended(Book(r, SetOf(r)), cs) :: l in r)
            && (forall e <- r :: Travel(e, cs) != e ==>
                  e in Appended(Book(r, SetOf(r)), cs) || exists f :: f in r && Travel(f, cs) == e)
  {
    var E, a := SetOf(Integrate(r, cs)), Appended(Book(r, SetOf(r)), cs);
    forall e ensures e in E <==> e in a || exists f :: f in r && Travel(f, cs) == e {
      LandingsMembers(r, cs, e);
    }
    if E == SetOf(r) {
      forall f | f in r ensures Travel(f, cs) in r {
        assert Travel(f, cs) in E;
      }
      forall l | l in a ensures l in r {
        assert l in E;
      }
      forall e | e in r ensures e in a || exists f :: f in r && Travel(f, cs) == e {
        assert e in E;
      }
    } else {
      var e :| (e in E) != (e in SetOf(r));
      if e in r {
        assert Travel(e, cs) != e;
      }
    }
  }

  lemma LandingsMembers(r: seq<Edge>, cs: seq<Correction>, e: Edge)
    ensures e in SetOf(Integrate(r, cs)) <==>
            e in Appended(Book(r, SetOf(r)), cs) || exists f :: f in r && Travel(f, cs) == e
  {
    RunTrips(Book(r, SetOf(r)), cs);
    DropRepeatsMeaning(Landings(r, cs));
    TripsMembers(r, cs, e);
    assert e in SetOf(Integrate(r, cs)) <==> e in SetOf(Landings(r, cs));
  }

  lemma TripsMembers(r: seq<Edge>, cs: seq<Correction>, e: Edge)
    ensures e in Trips(r, cs) <==> exists f :: f in r && Travel(f, cs) == e
  {
    var t := Trips(r, cs);
    if e in t {
      var i :| 0 <= i < |t| && t[i] == e;
      assert r[i] in r;
    }
    if f :| f in r && Travel(f, cs) == e {
      var i :| 0 <= i < |r| && r[i] == f;
      assert t[i] == e;
    }
  }
}
