/** Edge rewiring for CORRECT-kind supersessions. */
module Rewire {
  import opened Graph

  /** One supersession: `now` corrects `was`. */
  datatype Correction = Correction(was: string, now: string)

  /** The set-level meaning of one correction: `was` keeps only `now` as successor,
      and whatever used to follow `was` follows `now`. */
  function RewireOne(E: set<Edge>, c: Correction): (r: set<Edge>)
  {
    (set e | e in E :: if e.src == c.was && e.dst != c.now then Edge(c.now, e.dst) else e) + {Edge(c.was, c.now)}
  }

  lemma RewireOneMembers(E: set<Edge>, c: Correction, e: Edge)
    ensures e in RewireOne(E, c) <==>
            || e == Edge(c.was, c.now)
            || (e in E && e.src != c.was)
            || (e.src == c.now && e.dst != c.now && Edge(c.was, e.dst) in E)
  {
    if e.src == c.now && e.dst != c.now && Edge(c.was, e.dst) in E {
      var f := Edge(c.was, e.dst);
      assert f in E && e == (if f.src == c.was && f.dst != c.now then Edge(c.now, f.dst) else f);
    }
    if e in E && e.src != c.was {
      assert e == (if e.src == c.was && e.dst != c.now then Edge(c.now, e.dst) else e);
    }
  }

  /** Some successor of `was` other than `now` reaches `v`. */
  ghost predicate OtherSuccessorReaches(E: set<Edge>, c: Correction, v: string)
  {
    exists x :: x != c.now && Edge(c.was, x) in E && Reach(E, x, v)
  }

  /** The caller-checkable condition under which one correction keeps the graph acyclic. */
  ghost predicate SafeCorrection(E: set<Edge>, c: Correction)
  {
    !Reach(E, c.now, c.was) && !OtherSuccessorReaches(E, c, c.now)
  }

  ghost predicate RewiredReach(E: set<Edge>, c: Correction, u: string, v: string)
  {
    || Leads(E, u, v)
    || (Reach(E, u, c.was) && (Reach(E, c.now, v) || OtherSuccessorReaches(E, c, v)))
    || (Reach(E, u, c.now) && OtherSuccessorReaches(E, c, v))
  }

  lemma RewiredReachStep(E: set<Edge>, c: Correction, u: string, w: string, v: string)
    requires Acyclic(E) && c.was != c.now
    requires Edge(u, w) in RewireOne(E, c)
    requires w == v || RewiredReach(E, c, w, v)
    ensures RewiredReach(E, c, u, v)
  {
    RewireOneMembers(E, c, Edge(u, w));
    ReachRefl(E, u);
    ReachRefl(E, w);
    if Edge(u, w) in E && u != c.was {
      if w == v {
        EdgeLeads(E, u, v);
      } else if Leads(E, w, v) {
        LeadsReach(E, w, v);
        StepReach(E, u, w, v);
      } else if Reach(E, w, c.was) && (Reach(E, c.now, v) || OtherSuccessorReaches(E, c, v)) {
        StepReach(E, u, w, c.was);
      } else {
        StepReach(E, u, w, c.now);
      }
    } else if Edge(u, w) == Edge(c.was, c.now) {
      LeadsReach(E, w, v);
    } else {
      if Reach(E, w, c.was) {
        StepReach(E, c.was, w, c.was);
      }
      LeadsReach(E, w, v);
    }
  }

  lemma {:induction false} RewiredWalk(E: set<Edge>, c: Correction, u: string, p: seq<string>, v: string)
    requires Acyclic(E) && c.was != c.now
    requires p != [] && Walk(RewireOne(E, c), u, p, v)
    ensures RewiredReach(E, c, u, v)
    decreases |p|
  {
    if p[1..] != [] {
      RewiredWalk(E, c, p[0], p[1..], v);
    }
    RewiredReachStep(E, c, u, p[0], v);
  }

  lemma NoRewiredCycle(E: set<Edge>, c: Correction, u: string)
    requires Acyclic(E) && SafeCorrection(E, c)
    ensures !RewiredReach(E, c, u, u)
  {
    if RewiredReach(E, c, u, u) && !Leads(E, u, u) {
      if Reach(E, u, c.was) && Reach(E, c.now, u) {
        ReachTrans(E, c.now, u, c.was);
      } else {
        var x :| x != c.now && Edge(c.was, x) in E && Reach(E, x, u);
        if Reach(E, u, c.was) {
          ReachTrans(E, x, u, c.was);
          StepReach(E, c.was, x, c.was);
        } else {
          ReachTrans(E, x, u, c.now);
        }
      }
    }
  }

  /** A walk that never has to leave `was` survives the rewiring. */
  lemma {:induction false} SurvivingWalk(E: set<Edge>, c: Correction, a: string, p: seq<string>, b: string)
    requires Walk(E, a, p, b)
    requires a != c.was && (b == c.was || !Reach(E, a, c.was))
    ensures Reach(RewireOne(E, c), a, b)
    decreases |p|
  {
    var R := RewireOne(E, c);
    if p == [] {
      ReachRefl(R, a);
    } else {
      RewireOneMembers(E, c, Edge(a, p[0]));
      if p[0] == c.was {
        ReachRefl(E, p[0]);
        StepReach(E, a, p[0], c.was);
        ReachRefl(R, b);
      } else {
        if Reach(E, p[0], c.was) {
          StepReach(E, a, p[0], c.was);
        }
        SurvivingWalk(E, c, p[0], p[1..], b);
      }
      StepReach(R, a, p[0], b);
    }
  }

  lemma UnsafeCorrectionCycles(E: set<Edge>, c: Correction)
    requires Acyclic(E) && c.was != c.now && !SafeCorrection(E, c)
    ensures !Acyclic(RewireOne(E, c))
  {
    var R := RewireOne(E, c);
    RewireOneMembers(E, c, Edge(c.was, c.now));
    if Reach(E, c.now, c.was) {
      var p :| Walk(E, c.now, p, c.was);
      SurvivingWalk(E, c, c.now, p, c.was);
      StepReach(R, c.was, c.now, c.was);
    } else {
      var x :| x != c.now && Edge(c.was, x) in E && Reach(E, x, c.now);
      var p :| Walk(E, x, p, c.now);
      if Reach(E, x, c.was) {
        StepReach(E, c.was, x, c.was);
      }
      if x == c.was {
        ReachRefl(E, x);
      }
      SurvivingWalk(E, c, x, p, c.now);
      RewireOneMembers(E, c, Edge(c.now, x));
      StepReach(R, c.now, x, c.now);
    }
  }

  /** One correction keeps an acyclic graph acyclic exactly when the correction task does not
      already precede the corrected one, and nothing else that follows the corrected task
      precedes the correction. */
  lemma RewireAcyclicIff(E: set<Edge>, c: Correction)
    requires Acyclic(E) && c.was != c.now
    ensures Acyclic(RewireOne(E, c)) <==> SafeCorrection(E, c)
  {
    if SafeCorrection(E, c) {
      forall u ensures !Leads(RewireOne(E, c), u, u) {
        if Leads(RewireOne(E, c), u, u) {
          var p :| p != [] && Walk(RewireOne(E, c), u, p, u);
          RewiredWalk(E, c, u, p, u);
          NoRewiredCycle(E, c, u);
        }
      }
    } else {
      UnsafeCorrectionCycles(E, c);
    }
  }

  // ----- a list of corrections, on edge sets

  function RewireAll(E: set<Edge>, cs: seq<Correction>): (r: set<Edge>)
    decreases |cs|
  {
    if cs == [] then E else RewireAll(RewireOne(E, cs[0]), cs[1..])
  }

  /** Each correction is safe in the graph it meets. */
  ghost predicate SafeAll(E: set<Edge>, cs: seq<Correction>)
    decreases |cs|
  {
    cs == [] || (SafeCorrection(E, cs[0]) && SafeAll(RewireOne(E, cs[0]), cs[1..]))
  }

  ghost predicate Proper(cs: seq<Correction>)
  {
    forall c <- cs :: c.was != c.now
  }

  /** No two corrections target the same task. */
  ghost predicate DistinctTargets(cs: seq<Correction>)
  {
    forall i, j :: 0 <= i < j < |cs| ==> cs[i].was != cs[j].was
  }

  /** No correction makes an already corrected task the correction of another one. */
  ghost predicate ForwardOnly(cs: seq<Correction>)
  {
    forall i, j :: 0 <= i < j < |cs| ==> cs[j].now != cs[i].was
  }

  lemma RewireOnePaths(E: set<Edge>, c: Correction)
    ensures forall e :: e in E ==> Leads(RewireOne(E, c), e.src, e.dst)
  {
    var R := RewireOne(E, c);
    forall e | e in E ensures Leads(R, e.src, e.dst) {
      RewireOneMembers(E, c, e);
      if e in R {
        EdgeLeads(R, e.src, e.dst);
      } else {
        RewireOneMembers(E, c, Edge(c.was, c.now));
        RewireOneMembers(E, c, Edge(c.now, e.dst));
        EdgeLeads(R, c.now, e.dst);
        StepReach(R, c.was, c.now, e.dst);
      }
    }
  }

  /** The step-by-step rewiring keeps every dependency path, for any list of corrections. The loop
      does so only where it is not misled by its set of known edges. */
  lemma {:induction false} PathsSurvive(E: set<Edge>, cs: seq<Correction>)
    ensures forall a, b :: Leads(E, a, b) ==> Leads(RewireAll(E, cs), a, b)
    decreases |cs|
  {
    if cs != [] {
      RewireOnePaths(E, cs[0]);
      SimulatedPaths(E, RewireOne(E, cs[0]));
      PathsSurvive(RewireOne(E, cs[0]), cs[1..]);
    }
  }

  /** The step-by-step rewiring ends acyclic exactly when the input is acyclic and each correction is
      safe where it is applied: a cycle, once made, is never undone. */
  lemma {:induction false} RewireAllAcyclicIff(E: set<Edge>, cs: seq<Correction>)
    requires Proper(cs)
    ensures Acyclic(RewireAll(E, cs)) <==> Acyclic(E) && SafeAll(E, cs)
    decreases |cs|
  {
    if cs != [] {
      RewireAllAcyclicIff(RewireOne(E, cs[0]), cs[1..]);
      if Acyclic(E) {
        RewireAcyclicIff(E, cs[0]);
      } else {
        RewireOnePaths(E, cs[0]);
        SimulatedPaths(E, RewireOne(E, cs[0]));
      }
    }
  }

  /** `c.now` is the one successor of `c.was`. */
  ghost predicate Settled(E: set<Edge>, c: Correction)
  {
    forall e: Edge :: e.src == c.was ==> (e in E <==> e == Edge(c.was, c.now))
  }

  lemma RewireOneSettles(E: set<Edge>, c: Correction)
    requires c.was != c.now
    ensures Settled(RewireOne(E, c), c)
  {
    forall e: Edge | e.src == c.was ensures e in RewireOne(E, c) <==> e == Edge(c.was, c.now) {
      RewireOneMembers(E, c, e);
    }
  }

  lemma RewireOneKeepsSettled(E: set<Edge>, c: Correction, d: Correction)
    requires Settled(E, c) && d.was != c.was && d.now != c.was
    ensures Settled(RewireOne(E, d), c)
  {
    forall e: Edge | e.src == c.was ensures e in RewireOne(E, d) <==> e == Edge(c.was, c.now) {
      RewireOneMembers(E, d, e);
    }
  }

  lemma {:induction false} RewireAllKeepsSettled(E: set<Edge>, c: Correction, cs: seq<Correction>)
    requires Settled(E, c) && forall d <- cs :: d.was != c.was && d.now != c.was
    ensures Settled(RewireAll(E, cs), c)
    decreases |cs|
  {
    if cs != [] {
      RewireOneKeepsSettled(E, c, cs[0]);
      RewireAllKeepsSettled(RewireOne(E, cs[0]), c, cs[1..]);
    }
  }

  /** With distinct targets applied in chain order, every corrected task ends with its
      correction as its only successor. */
  lemma {:induction false} RewireAllSettles(E: set<Edge>, cs: seq<Correction>)
    requires Proper(cs) && DistinctTargets(cs) && ForwardOnly(cs)
    ensures forall c <- cs :: Settled(RewireAll(E, cs), c)
    decreases |cs|
  {
    if cs != [] {
      RewireOneSettles(E, cs[0]);
      RewireAllKeepsSettled(RewireOne(E, cs[0]), cs[0], cs[1..]);
      RewireAllSettles(RewireOne(E, cs[0]), cs[1..]);
      forall c | c in cs ensures Settled(RewireAll(E, cs), c) {
        assert c == cs[0] || c in cs[1..];
      }
    }
  }

  // ----- the same on edge lists, without bookkeeping

  function SetOf(es: seq<Edge>): (r: set<Edge>)
  {
    set e | e in es
  }

  function Redirect(e: Edge, c: Correction): (r: Edge)
  {
    if e.src == c.was && e.dst != c.now then Edge(c.now, e.dst) else e
  }

  function RedirectAll(es: seq<Edge>, c: Correction): (r: seq<Edge>)
    ensures |r| == |es|
    ensures forall i :: 0 <= i < |es| ==> r[i] == Redirect(es[i], c)
  {
    seq(|es|, i requires 0 <= i < |es| => Redirect(es[i], c))
  }

  function WithLink(es: seq<Edge>, c: Correction): (r: seq<Edge>)
  {
    if Edge(c.was, c.now) in es then es else es + [Edge(c.was, c.now)]
  }

  function RewireList(es: seq<Edge>, cs: seq<Correction>): (r: seq<Edge>)
    decreases |cs|
  {
    if cs == [] then es else RewireList(RedirectAll(WithLink(es, cs[0]), cs[0]), cs[1..])
  }

  function DropRepeats(es: seq<Edge>): (r: seq<Edge>)
  {
    if es == [] then []
    else
      var front := DropRepeats(es[..|es| - 1]);
      if es[|es| - 1] in es[..|es| - 1] then front else front + [es[|es| - 1]]
  }

  ghost predicate NoRepeats(es: seq<Edge>)
  {
    forall i, j :: 0 <= i < j < |es| ==> es[i] != es[j]
  }

  lemma RedirectOnce(es: seq<Edge>, c: Correction)
    ensures SetOf(RedirectAll(WithLink(es, c), c)) == RewireOne(SetOf(es), c)
  {
    var ws := WithLink(es, c);
    var rs := RedirectAll(ws, c);
    forall e ensures e in SetOf(rs) <==> e in RewireOne(SetOf(es), c) {
      if e in rs {
        var i :| 0 <= i < |rs| && rs[i] == e;
        assert ws[i] in es || ws[i] == Edge(c.was, c.now);
        assert e == Redirect(ws[i], c);
      }
      if e in RewireOne(SetOf(es), c) {
        if e == Edge(c.was, c.now) {
          var i :| 0 <= i < |ws| && ws[i] == e;
          assert rs[i] == e;
        } else {
          var f :| f in es && e == Redirect(f, c);
          assert f in ws;
          var i :| 0 <= i < |ws| && ws[i] == f;
          assert rs[i] == e;
        }
      }
    }
  }

  lemma {:induction false} RewireListMeaning(es: seq<Edge>, cs: seq<Correction>)
    ensures SetOf(RewireList(es, cs)) == RewireAll(SetOf(es), cs)
    decreases |cs|
  {
    if cs != [] {
      RedirectOnce(es, cs[0]);
      RewireListMeaning(RedirectAll(WithLink(es, cs[0]), cs[0]), cs[1..]);
    }
  }

  lemma {:induction false} DropRepeatsMeaning(es: seq<Edge>)
    ensures SetOf(DropRepeats(es)) == SetOf(es)
    ensures NoRepeats(DropRepeats(es))
    ensures NoRepeats(es) ==> DropRepeats(es) == es
  {
    if es != [] {
      var front, last := es[..|es| - 1], es[|es| - 1];
      DropRepeatsMeaning(front);
      assert es == front + [last];
      forall e ensures e in DropRepeats(es) <==> e in es {
        assert e in SetOf(DropRepeats(front)) <==> e in SetOf(front);
      }
      if last !in front {
        assert last !in SetOf(front);
        assert last !in DropRepeats(front);
      }
    }
  }

  lemma {:induction false} SettledListUnchanged(es: seq<Edge>, cs: seq<Correction>)
    requires forall c <- cs :: Settled(SetOf(es), c)
    ensures RewireList(es, cs) == es
    decreases |cs|
  {
    if cs != [] {
      var c := cs[0];
      assert Settled(SetOf(es), c);
      assert Edge(c.was, c.now) in SetOf(es);
      forall i | 0 <= i < |es| ensures Redirect(es[i], c) == es[i] {
        assert es[i] in SetOf(es);
      }
      assert RedirectAll(es, c) == es;
      SettledListUnchanged(es, cs[1..]);
    }
  }

  // ----- the loop itself, with its set of known edges

  /** The loop's two variables: the edge list and the set of edges believed to be in it. */
  datatype Book = Book(edges: seq<Edge>, known: set<Edge>)

  function AddLink(b: Book, c: Correction): (r: Book)
  {
    var link := Edge(c.was, c.now);
    if link in b.known then b else Book(b.edges + [link], b.known + {link})
  }

  /** One iteration of the inner loop. A redirected edge that is already known leaves its old
      form behind in `known`. */
  function ScanOne(b: Book, c: Correction, i: nat): (r: Book)
    requires i < |b.edges|
    ensures r.edges == b.edges[i := Redirect(b.edges[i], c)]
  {
    var e := b.edges[i];
    if e.src != c.was || e.dst == c.now then b
    else
      var moved := Edge(c.now, e.dst);
      if moved in b.known then Book(b.edges[i := moved], b.known)
      else Book(b.edges[i := moved], b.known - {e} + {moved})
  }

  function Scan(b: Book, c: Correction, i: nat): (r: Book)
    requires i <= |b.edges|
    decreases |b.edges| - i
  {
    if i == |b.edges| then b else Scan(ScanOne(b, c, i), c, i + 1)
  }

  function Process(b: Book, cs: seq<Correction>): (r: Book)
    decreases |cs|
  {
    if cs == [] then b else Process(Scan(AddLink(b, cs[0]), cs[0], 0), cs[1..])
  }

  function Integrate(es: seq<Edge>, cs: seq<Correction>): (r: seq<Edge>)
  {
    DropRepeats(Process(Book(es, SetOf(es)), cs).edges)
  }

  /** The inner loop: every edge leaving `c.was`, except the link itself, is rewritten in place. */
  method RedirectInPlace(es: seq<Edge>, ks: set<Edge>, c: Correction) returns (edges: seq<Edge>, known: set<Edge>)
    ensures Book(edges, known) == Scan(Book(es, ks), c, 0)
  {
    edges, known := es, ks;
    var i := 0;
    while i < |edges|
      invariant i <= |edges| == |es|
      invariant Scan(Book(edges, known), c, i) == Scan(Book(es, ks), c, 0)
    {
      ghost var before := Book(edges, known);
      var e := edges[i];
      if e.src == c.was && e.dst != c.now {
        var moved := Edge(c.now, e.dst);
        if moved !in known {
          known := known - {e} + {moved};
        }
        edges := edges[i := moved];
      }
      assert Book(edges, known) == ScanOne(before, c, i);
      i := i + 1;
    }
  }

  /** The final pass that keeps the first occurrence of each edge. */
  method KeepFirst(edges: seq<Edge>) returns (r: seq<Edge>)
    ensures r == DropRepeats(edges)
  {
    r := [];
    var seen := {};
    for i := 0 to |edges|
      invariant forall e :: e in seen <==> e in edges[..i]
      invariant r == DropRepeats(edges[..i])
    {
      assert edges[..i + 1][..i] == edges[..i];
      if edges[i] !in seen {
        seen := seen + {edges[i]};
        r := r + [edges[i]];
      }
    }
    assert edges[..|edges|] == edges;
  }

  /** The source's loop over corrections, edges rewritten in place, then the final dedup. */
  method IntegrateCorrections(es: seq<Edge>, cs: seq<Correction>) returns (r: seq<Edge>)
    ensures r == Integrate(es, cs)
    ensures NoRepeats(r)
    ensures DistinctTargets(cs) ==> SetOf(r) == RewireAll(SetOf(es), cs)
  {
    var edges, known := es, SetOf(es);
    for k := 0 to |cs|
      invariant Process(Book(edges, known), cs[k..]) == Process(Book(es, SetOf(es)), cs)
    {
      var c := cs[k];
      assert cs[k..][0] == c && cs[k..][1..] == cs[k + 1..];
      ghost var before := Book(edges, known);
      if Edge(c.was, c.now) !in known {
        edges := edges + [Edge(c.was, c.now)];
        known := known + {Edge(c.was, c.now)};
      }
      assert Book(edges, known) == AddLink(before, c);
      edges, known := RedirectInPlace(edges, known, c);
    }
    assert cs[|cs|..] == [];
    r := KeepFirst(edges);
    DropRepeatsMeaning(edges);
    if DistinctTargets(cs) {
      BookkeepingSound(es, cs);
      RewireListMeaning(es, cs);
      DropRepeatsMeaning(RewireList(es, cs));
    }
  }

  lemma {:induction false} ScanEdges(b: Book, c: Correction, i: nat)
    requires i <= |b.edges|
    ensures Scan(b, c, i).edges == b.edges[..i] + RedirectAll(b.edges[i..], c)
    decreases |b.edges| - i
  {
    if i < |b.edges| {
      ScanEdges(ScanOne(b, c, i), c, i + 1);
    }
  }

  /** Outside the sources in `done`, the book knows exactly the edges in the list. */
  ghost predicate Tracks(b: Book, done: set<string>)
  {
    forall e: Edge :: e.src !in done ==> (e in b.known <==> e in b.edges)
  }

  lemma ScanOneTracks(b: Book, c: Correction, i: nat, done: set<string>)
    requires i < |b.edges| && c.was in done && Tracks(b, done)
    ensures Tracks(ScanOne(b, c, i), done)
  {
    var r := ScanOne(b, c, i);
    forall e: Edge | e.src !in done ensures e in r.known <==> e in r.edges {
      if e in r.edges {
        var j :| 0 <= j < |r.edges| && r.edges[j] == e;
        assert j != i ==> b.edges[j] == e;
      }
      if e in b.edges {
        var j :| 0 <= j < |b.edges| && b.edges[j] == e;
        assert r.edges[j] == e;
      }
      if r != b {
        assert r.edges[i] == Edge(c.now, b.edges[i].dst);
      }
    }
  }

  lemma {:induction false} ScanTracks(b: Book, c: Correction, i: nat, done: set<string>)
    requires i <= |b.edges| && c.was in done && Tracks(b, done)
    ensures Tracks(Scan(b, c, i), done)
    decreases |b.edges| - i
  {
    if i < |b.edges| {
      ScanOneTracks(b, c, i, done);
      ScanTracks(ScanOne(b, c, i), c, i + 1, done);
    }
  }

  lemma {:induction false} ProcessMatchesList(b: Book, cs: seq<Correction>, done: set<string>)
    requires DistinctTargets(cs) && Tracks(b, done)
    requires forall c <- cs :: c.was !in done
    ensures Process(b, cs).edges == RewireList(b.edges, cs)
    decreases |cs|
  {
    if cs != [] {
      var c := cs[0];
      var linked := AddLink(b, c);
      assert linked.edges == WithLink(b.edges, c);
      assert Tracks(linked, done + {c.was});
      ScanEdges(linked, c, 0);
      assert linked.edges[0..] == linked.edges;
      assert Scan(linked, c, 0).edges == RedirectAll(linked.edges, c);
      ScanTracks(linked, c, 0, done + {c.was});
      ProcessMatchesList(Scan(linked, c, 0), cs[1..], done + {c.was});
    }
  }

  /** With distinct targets the set of known edges never misleads the loop. */
  lemma BookkeepingSound(es: seq<Edge>, cs: seq<Correction>)
    requires DistinctTargets(cs)
    ensures Integrate(es, cs) == DropRepeats(RewireList(es, cs))
  {
    ProcessMatchesList(Book(es, SetOf(es)), cs, {});
  }

  /** Running the integration on its own output changes nothing, edge order included. */
  lemma IntegrateIdempotent(es: seq<Edge>, cs: seq<Correction>)
    requires Proper(cs) && DistinctTargets(cs) && ForwardOnly(cs)
    ensures Integrate(Integrate(es, cs), cs) == Integrate(es, cs)
  {
    var r := Integrate(es, cs);
    BookkeepingSound(es, cs);
    BookkeepingSound(r, cs);
    DropRepeatsMeaning(RewireList(es, cs));
    RewireListMeaning(es, cs);
    RewireAllSettles(SetOf(es), cs);
    SettledListUnchanged(r, cs);
    DropRepeatsMeaning(r);
  }

  // ----- where the side conditions are needed

  lemma MisledFirst(ob: Edge, ab: Edge, oa: Edge, b: Book)
    requires ob == Edge("o", "b") && ab == Edge("a", "b") && oa == Edge("o", "a")
    requires b == Book([ob, ab], {ob, ab})
    ensures Scan(AddLink(b, Correction("o", "a")), Correction("o", "a"), 0) == Book([ab, ab, oa], {ob, ab, oa})
  {
    var c := Correction("o", "a");
    var b1, b2 := AddLink(b, c), Book([ab, ab, oa], {ob, ab, oa});
    assert b1 == Book([ob, ab, oa], {ob, ab, oa});
    assert ScanOne(b1, c, 0) == b2;
    assert ScanOne(b2, c, 1) == b2 && ScanOne(b2, c, 2) == b2;
    assert Scan(b2, c, 3) == b2;
    assert Scan(b2, c, 2) == b2;
  }

  lemma MisledSecond(ob: Edge, ab: Edge, oa: Edge, ba: Edge, b: Book)
    requires ob == Edge("o", "b") && ab == Edge("a", "b") && oa == Edge("o", "a") && ba == Edge("b", "a")
    requires b == Book([ab, ab, oa], {ob, ab, oa})
    ensures Scan(AddLink(b, Correction("o", "b")), Correction("o", "b"), 0).edges == [ab, ab, ba]
  {
    var c := Correction("o", "b");
    assert AddLink(b, c) == b;
    ScanEdges(b, c, 0);
    var r := RedirectAll(b.edges[0..], c);
    assert b.edges[0..] == b.edges;
    assert r[0] == ab && r[1] == ab && r[2] == ba;
  }

  lemma MisledProcess(ob: Edge, ab: Edge, oa: Edge, ba: Edge, b: Book)
    requires ob == Edge("o", "b") && ab == Edge("a", "b") && oa == Edge("o", "a") && ba == Edge("b", "a")
    requires b == Book([ob, ab], {ob, ab})
    ensures Process(b, [Correction("o", "a"), Correction("o", "b")]).edges == [ab, ab, ba]
  {
    var c, d := Correction("o", "a"), Correction("o", "b");
    var b2 := Book([ab, ab, oa], {ob, ab, oa});
    MisledFirst(ob, ab, oa, b);
    MisledSecond(ob, ab, oa, ba, b2);
    assert [c, d][1..] == [d] && [d][1..] == [];
    assert Process(b, [c, d]) == Process(b2, [d]);
  }

  lemma RepeatDropped(x: Edge, y: Edge)
    requires x != y
    ensures DropRepeats([x, x, y]) == [x, y]
  {
    assert [x, x, y][..2] == [x, x] && [x, x][..1] == [x] && [x][..0] == [];
    assert DropRepeats([x]) == [x];
    assert DropRepeats([x, x]) == [x];
  }

  lemma MisledIntegration()
    ensures Integrate([Edge("o", "b"), Edge("a", "b")], [Correction("o", "a"), Correction("o", "b")])
            == [Edge("a", "b"), Edge("b", "a")]
  {
    var ob, ab, oa, ba := Edge("o", "b"), Edge("a", "b"), Edge("o", "a"), Edge("b", "a");
    assert SetOf([ob, ab]) == {ob, ab};
    MisledProcess(ob, ab, oa, ba, Book([ob, ab], {ob, ab}));
    RepeatDropped(ab, ba);
  }

  /** Two corrections of one task: the stale entry left by the first hides that the second
      still needs its link, and an acyclic plan becomes cyclic. */
  lemma SharedTargetMisleads()
    ensures var es := [Edge("o", "b"), Edge("a", "b")];
            var cs := [Correction("o", "a"), Correction("o", "b")];
            && Acyclic(SetOf(es))
            && Edge("o", "b") in RewireAll(SetOf(es), cs)
            && Edge("o", "b") !in Integrate(es, cs)
            && !Acyclic(SetOf(Integrate(es, cs)))
  {
    var es := [Edge("o", "b"), Edge("a", "b")];
    var c, d := Correction("o", "a"), Correction("o", "b");
    RankedAcyclic(SetOf(es), x => if x == "b" then 1 else 0);
    MisledIntegration();
    var E := RewireOne(SetOf(es), c);
    assert [c, d][1..] == [d] && [d][1..] == [];
    assert RewireAll(SetOf(es), [c, d]) == RewireAll(E, [d]) == RewireOne(E, d);
    RewireOneMembers(E, d, Edge("o", "b"));
    var r := [Edge("a", "b"), Edge("b", "a")];
    assert r[0] in SetOf(r) && r[1] in SetOf(r);
    EdgeLeads(SetOf(r), "b", "a");
    StepReach(SetOf(r), "a", "b", "a");
  }

  /** For distinct targets the loop computes the rewired edge set. */
  lemma IntegrateSet(es: seq<Edge>, cs: seq<Correction>)
    requires DistinctTargets(cs)
    ensures SetOf(Integrate(es, cs)) == RewireAll(SetOf(es), cs)
  {
    BookkeepingSound(es, cs);
    RewireListMeaning(es, cs);
    DropRepeatsMeaning(RewireList(es, cs));
  }

  lemma TwoSteps(E: set<Edge>, c: Correction, d: Correction)
    ensures RewireAll(E, [c, d]) == RewireOne(RewireOne(E, c), d)
  {
    assert [c, d][1..] == [d] && [d][1..] == [];
    assert RewireAll(E, [c, d]) == RewireAll(RewireOne(E, c), [d]);
  }

  lemma BackwardMoves(E: set<Edge>, c: Correction, d: Correction, ax: Edge, bx: Edge)
    requires c == Correction("b", "c") && d == Correction("a", "b") && ax == Edge("a", "x") && bx == Edge("b", "x")
    requires E == {ax}
    ensures var R := RewireAll(E, [c, d]); bx in R && bx !in RewireAll(R, [c, d])
  {
    TwoSteps(E, c, d);
    var E1 := RewireOne(E, c);
    var R := RewireOne(E1, d);
    RewireOneMembers(E, c, ax);
    RewireOneMembers(E1, d, bx);
    RewireOneMembers(E1, d, ax);
    TwoSteps(R, c, d);
    var F1 := RewireOne(R, c);
    RewireOneMembers(R, c, bx);
    RewireOneMembers(R, c, ax);
    RewireOneMembers(F1, d, bx);
  }

  /** A chain listed backwards: the second run of the loop still moves an edge. */
  lemma BackwardChainNotIdempotent()
    ensures var es := [Edge("a", "x")];
            var cs := [Correction("b", "c"), Correction("a", "b")];
            && DistinctTargets(cs)
            && Edge("b", "x") in Integrate(es, cs)
            && Edge("b", "x") !in Integrate(Integrate(es, cs), cs)
  {
    var es, c, d := [Edge("a", "x")], Correction("b", "c"), Correction("a", "b");
    var cs, bx := [c, d], Edge("b", "x");
    assert SetOf(es) == {Edge("a", "x")};
    BackwardMoves(SetOf(es), c, d, Edge("a", "x"), bx);
    assert DistinctTargets(cs);
    IntegrateSet(es, cs);
    IntegrateSet(Integrate(es, cs), cs);
    assert bx in SetOf(Integrate(es, cs)) && bx !in SetOf(Integrate(Integrate(es, cs), cs));
  }
}
