/** The validator's structural rules: named unique tasks, known endpoints, and Kahn's cycle check. */
module Validator {
  import opened Graph
  import opened Rewire
  import opened Plans

  // ----- counting

  /** How many edges still hold `x` back: those from a source that is not placed. */
  function Waiting(es: seq<Edge>, x: string, placed: set<string>): (r: nat)
  {
    if es == [] then 0
    else Waiting(es[..|es| - 1], x, placed) + if es[|es| - 1].dst == x && es[|es| - 1].src !in placed then 1 else 0
  }

  /** The targets of the edges leaving `x`, in edge order and with repetitions. */
  function Children(es: seq<Edge>, x: string): (r: seq<string>)
  {
    if es == [] then []
    else if es[|es| - 1].src == x then Children(es[..|es| - 1], x) + [es[|es| - 1].dst]
    else Children(es[..|es| - 1], x)
  }

  function Times(xs: seq<string>, x: string): (r: nat)
  {
    if xs == [] then 0 else (if xs[0] == x then 1 else 0) + Times(xs[1..], x)
  }

  lemma {:induction false} TimesSnoc(xs: seq<string>, y: string, x: string)
    ensures Times(xs + [y], x) == Times(xs, x) + if y == x then 1 else 0
  {
    if xs != [] {
      assert (xs + [y])[1..] == xs[1..] + [y];
      TimesSnoc(xs[1..], y, x);
    }
  }

  /** Placing a task frees each target once per edge. */
  lemma {:induction false} PlacingFrees(es: seq<Edge>, x: string, placed: set<string>, t: string)
    requires t !in placed
    ensures Waiting(es, x, placed) == Waiting(es, x, placed + {t}) + Times(Children(es, t), x)
  {
    if es != [] {
      var front, e := es[..|es| - 1], es[|es| - 1];
      PlacingFrees(front, x, placed, t);
      TimesSnoc(Children(front, t), e.dst, x);
    }
  }

  lemma {:induction false} WaitingZero(es: seq<Edge>, x: string, placed: set<string>)
    ensures Waiting(es, x, placed) == 0 <==> forall e <- es :: e.dst == x ==> e.src in placed
  {
    if es != [] {
      assert es == es[..|es| - 1] + [es[|es| - 1]];
      WaitingZero(es[..|es| - 1], x, placed);
    }
  }

  lemma {:induction false} ChildrenKnown(es: seq<Edge>, x: string, ids: set<string>)
    requires forall e <- es :: e.dst in ids
    ensures forall c <- Children(es, x) :: c in ids
  {
    if es != [] {
      assert es[|es| - 1] in es;
      ChildrenKnown(es[..|es| - 1], x, ids);
    }
  }

  // ----- what is left over

  /** Predecessors of placed tasks are placed earlier. */
  ghost predicate Layered(es: seq<Edge>, rank: map<string, int>)
  {
    forall e <- es :: e.dst in rank ==> e.src in rank && rank[e.src] < rank[e.dst]
  }

  lemma {:induction false} LayeredWalk(es: seq<Edge>, rank: map<string, int>, a: string, p: seq<string>, b: string)
    requires Layered(es, rank) && Walk(SetOf(es), a, p, b) && b in rank
    ensures a in rank && (if p == [] then a == b else rank[a] < rank[b])
    decreases |p|
  {
    if p != [] {
      LayeredWalk(es, rank, p[0], p[1..], b);
      assert Edge(a, p[0]) in es;
    }
  }

  lemma PlacedIsFree(es: seq<Edge>, rank: map<string, int>, x: string)
    requires Layered(es, rank) && x in rank
    ensures !BehindCycle(SetOf(es), x)
  {
    forall c | Reach(SetOf(es), c, x) ensures !Leads(SetOf(es), c, c) {
      var p :| Walk(SetOf(es), c, p, x);
      LayeredWalk(es, rank, c, p, x);
      forall q | q != [] && Walk(SetOf(es), c, q, c) ensures false {
        LayeredWalk(es, rank, c, q, c);
      }
    }
  }

  ghost predicate Fed(E: set<Edge>, left: set<string>, x: string)
  {
    exists z :: z in left && Edge(z, x) in E
  }

  /** Every task of `left` has a predecessor in `left`. */
  ghost predicate Stuck(E: set<Edge>, left: set<string>)
  {
    forall x {:trigger Fed(E, left, x)} :: x in left ==> Fed(E, left, x)
  }

  /** Walking backwards inside a stuck finite set must come round to a cycle. */
  lemma {:induction false} BackToCycle(E: set<Edge>, left: set<string>, seen: set<string>, y: string, x: string)
    requires Stuck(E, left) && seen <= left && y in seen && x in seen
    requires forall s <- seen :: Reach(E, y, s)
    ensures BehindCycle(E, x)
    decreases |left - seen|
  {
    assert Fed(E, left, y);
    var z :| z in left && Edge(z, y) in E;
    StepReach(E, z, y, x);
    if z in seen {
      StepReach(E, z, y, z);
    } else {
      assert left - (seen + {z}) == left - seen - {z};
      ReachRefl(E, z);
      forall s | s in seen + {z} ensures Reach(E, z, s) {
        if s in seen {
          StepReach(E, z, y, s);
        }
      }
      BackToCycle(E, left, seen + {z}, z, x);
    }
  }

  lemma StuckIsBehindCycle(E: set<Edge>, left: set<string>, x: string)
    requires Stuck(E, left) && x in left
    ensures BehindCycle(E, x)
  {
    ReachRefl(E, x);
    BackToCycle(E, left, {x}, x, x);
  }

  // ----- the loops

  /** The loop's degree table is exact. */
  ghost predicate Degrees(ids: set<string>, es: seq<Edge>, placed: set<string>, pending: seq<string>,
      indeg: map<string, int>)
  {
    indeg.Keys == ids && forall x <- ids :: indeg[x] == Waiting(es, x, placed) + Times(pending, x)
  }

  /** The ready list holds free tasks, and every free task is ready or placed. */
  ghost predicate ReadyOk(ids: set<string>, placed: set<string>, indeg: map<string, int>, ready: seq<string>)
    requires indeg.Keys == ids
  {
    && (forall x <- ready :: x in ids && indeg[x] == 0)
    && (forall x <- ids :: indeg[x] == 0 ==> x in placed || x in ready)
  }

  method CountEdges(ids: seq<string>, es: seq<Edge>)
    returns (indeg: map<string, int>, children: map<string, seq<string>>)
    requires forall e <- es :: e.src in ids && e.dst in ids
    ensures Degrees((set x | x in ids), es, {}, [], indeg)
    ensures ChildTable((set x | x in ids), es, children)
  {
    indeg, children := map x | x in ids :: 0, map x | x in ids :: [];
    for i := 0 to |es|
      invariant indeg.Keys == children.Keys == set x | x in ids
      invariant forall x <- ids :: indeg[x] == Waiting(es[..i], x, {})
      invariant forall x <- ids :: children[x] == Children(es[..i], x)
    {
      var e := es[i];
      assert e in es && es[..i + 1][..i] == es[..i];
      children := children[e.src := children[e.src] + [e.dst]];
      indeg := indeg[e.dst := indeg[e.dst] + 1];
    }
    assert es[..|es|] == es;
  }

  /** Releases the children of a placed task, one edge at a time. */
  method Release(ghost ids: set<string>, ghost es: seq<Edge>, ghost placed: set<string>, children: seq<string>,
                 degrees: map<string, int>, queue: seq<string>)
    returns (indeg: map<string, int>, ready: seq<string>)
    requires Degrees(ids, es, placed, children, degrees) && ReadyOk(ids, placed, degrees, queue)
    requires forall c <- children :: c in ids
    ensures Degrees(ids, es, placed, [], indeg) && ReadyOk(ids, placed, indeg, ready)
  {
    indeg, ready := degrees, queue;
    for k := 0 to |children|
      invariant Degrees(ids, es, placed, children[k..], indeg)
      invariant ReadyOk(ids, placed, indeg, ready)
    {
      var c := children[k];
      assert c in children;
      assert children[k..][0] == c && children[k..][1..] == children[k + 1..];
      indeg := indeg[c := indeg[c] - 1];
      if indeg[c] == 0 {
        ready := ready + [c];
      }
    }
    assert children[|children|..] == [];
  }

  lemma PlaceStep(ids: set<string>, es: seq<Edge>, placed: set<string>, t: string, indeg: map<string, int>)
    requires Degrees(ids, es, placed, [], indeg) && t !in placed
    ensures Degrees(ids, es, placed + {t}, Children(es, t), indeg)
  {
    forall x | x in ids ensures indeg[x] == Waiting(es, x, placed + {t}) + Times(Children(es, t), x) {
      PlacingFrees(es, x, placed, t);
    }
  }

  lemma RankStep(ids: set<string>, es: seq<Edge>, rank: map<string, int>, t: string, indeg: map<string, int>)
    requires Degrees(ids, es, rank.Keys, [], indeg) && Layered(es, rank) && t in ids && t !in rank && indeg[t] == 0
    requires forall x <- rank :: rank[x] < |rank|
    ensures Layered(es, rank[t := |rank|])
  {
    WaitingZero(es, t, rank.Keys);
  }

  lemma LeftIsStuck(ids: set<string>, es: seq<Edge>, placed: set<string>, indeg: map<string, int>)
    requires Degrees(ids, es, placed, [], indeg) && ReadyOk(ids, placed, indeg, [])
    requires forall e <- es :: e.src in ids
    ensures Stuck(SetOf(es), ids - placed)
  {
    forall x | x in ids - placed ensures Fed(SetOf(es), ids - placed, x) {
      WaitingZero(es, x, placed);
      assert indeg[x] != 0;
      var e :| e in es && e.dst == x && e.src !in placed;
      assert e == Edge(e.src, x);
    }
  }

  lemma LeftSpec(ids: seq<string>, es: seq<Edge>, rank: map<string, int>, left: set<string>)
    requires Layered(es, rank) && Stuck(SetOf(es), left) && left == (set x | x in ids) - rank.Keys
    ensures forall x :: x in left <==> x in ids && BehindCycle(SetOf(es), x)
  {
    forall x ensures x in left <==> x in ids && BehindCycle(SetOf(es), x) {
      if x in left {
        StuckIsBehindCycle(SetOf(es), left, x);
      } else if x in rank {
        PlacedIsFree(es, rank, x);
      }
    }
  }

  method FirstReady(ids: seq<string>, indeg: map<string, int>) returns (ready: seq<string>)
    requires indeg.Keys == set x | x in ids
    ensures ReadyOk(indeg.Keys, {}, indeg, ready)
  {
    ready := [];
    for i := 0 to |ids|
      invariant forall x :: x in ready <==> x in ids[..i] && indeg[x] == 0
    {
      if indeg[ids[i]] == 0 {
        ready := ready + [ids[i]];
      }
    }
    assert ids[..|ids|] == ids;
  }

  /** Every placed task has a rank above those of its predecessors. */
  ghost predicate Ranked(es: seq<Edge>, placed: set<string>, rank: map<string, int>)
  {
    rank.Keys == placed && Layered(es, rank) && forall x <- rank :: rank[x] < |rank|
  }

  lemma Popped(ids: set<string>, placed: set<string>, indeg: map<string, int>, ready: seq<string>)
    requires indeg.Keys == ids && ready != [] && ReadyOk(ids, placed, indeg, ready)
    ensures var t := ready[|ready| - 1];
            && t in ids && indeg[t] == 0
            && ReadyOk(ids, placed + {t}, indeg, ready[..|ready| - 1])
            && (t in placed ==> ReadyOk(ids, placed, indeg, ready[..|ready| - 1]))
  {
    var t := ready[|ready| - 1];
    assert t in ready;
    assert ready == ready[..|ready| - 1] + [t];
  }

  /** Places one free task: afterwards its children are still to be released. */
  lemma Placing(ids: set<string>, es: seq<Edge>, placed: set<string>, rank: map<string, int>, t: string,
      indeg: map<string, int>)
    requires Degrees(ids, es, placed, [], indeg) && Ranked(es, placed, rank)
    requires t in ids && t !in placed && indeg[t] == 0
    ensures Degrees(ids, es, placed + {t}, Children(es, t), indeg) && Ranked(es, placed + {t}, rank[t := |rank|])
    ensures |ids - (placed + {t})| < |ids - placed|
  {
    PlaceStep(ids, es, placed, t, indeg);
    RankStep(ids, es, rank, t, indeg);
    assert ids - (placed + {t}) == ids - placed - {t};
  }

  ghost predicate ChildTable(ids: set<string>, es: seq<Edge>, children: map<string, seq<string>>)
  {
    children.Keys == ids && forall x <- ids :: children[x] == Children(es, x)
  }

  /** Places a popped task that is new, and releases its children. */
  method PlaceOne(ghost ids: set<string>, ghost es: seq<Edge>, ghost placed: set<string>,
                  ghost rank: map<string, int>, t: string, children: seq<string>, degrees: map<string, int>,
                  queue: seq<string>)
    returns (indeg: map<string, int>, ready: seq<string>)
    requires forall e <- es :: e.dst in ids
    requires Degrees(ids, es, placed, [], degrees) && Ranked(es, placed, rank) &&
            ReadyOk(ids, placed + {t}, degrees, queue)
    requires t in ids && t !in placed && degrees[t] == 0 && children == Children(es, t)
    ensures Degrees(ids, es, placed + {t}, [], indeg) && ReadyOk(ids, placed + {t}, indeg, ready)
    ensures Ranked(es, placed + {t}, rank[t := |rank|]) && |ids - (placed + {t})| < |ids - placed|
  {
    Placing(ids, es, placed, rank, t, degrees);
    ChildrenKnown(es, t, ids);
    indeg, ready := Release(ids, es, placed + {t}, children, degrees, queue);
  }

  method PlaceAll(ghost ids: set<string>, ghost es: seq<Edge>, degrees: map<string, int>,
                  children: map<string, seq<string>>, first: seq<string>)
    returns (placed: set<string>, ghost rank: map<string, int>)
    requires forall e <- es :: e.src in ids && e.dst in ids
    requires Degrees(ids, es, {}, [], degrees) && ReadyOk(ids, {}, degrees, first)
    requires ChildTable(ids, es, children)
    ensures Ranked(es, placed, rank) && Stuck(SetOf(es), ids - placed)
  {
    var indeg, ready := degrees, first;
    placed, rank := {}, map[];
    while ready != []
      invariant Ranked(es, placed, rank)
      invariant Degrees(ids, es, placed, [], indeg) && ReadyOk(ids, placed, indeg, ready)
      decreases |ids - placed|, |ready|
    {
      var t := ready[|ready| - 1];
      Popped(ids, placed, indeg, ready);
      ready := ready[..|ready| - 1];
      if t !in placed {
        indeg, ready := PlaceOne(ids, es, placed, rank, t, children[t], indeg, ready);
        rank := rank[t := |rank|];
        placed := placed + {t};
      }
    }
    LeftIsStuck(ids, es, placed, indeg);
  }

  /** The tasks Kahn's algorithm cannot place are exactly those that lie on or behind a cycle. */
  method Unplaced(ids: seq<string>, es: seq<Edge>) returns (left: set<string>)
    requires forall e <- es :: e.src in ids && e.dst in ids
    ensures forall x :: x in left <==> x in ids && BehindCycle(SetOf(es), x)
    ensures left == {} <==> Acyclic(SetOf(es))
  {
    var all := set x | x in ids;
    var indeg, children := CountEdges(ids, es);
    var ready := FirstReady(ids, indeg);
    ghost var rank;
    var placed;
    placed, rank := PlaceAll(all, es, indeg, children, ready);
    left := all - placed;
    LeftSpec(ids, es, rank, left);
    NothingLeftIff(ids, es, left);
  }

  lemma NothingLeftIff(ids: seq<string>, es: seq<Edge>, left: set<string>)
    requires forall e <- es :: e.src in ids && e.dst in ids
    requires forall x :: x in left <==> x in ids && BehindCycle(SetOf(es), x)
    ensures left == {} <==> Acyclic(SetOf(es))
  {
    var E := SetOf(es);
    forall a | Leads(E, a, a) ensures a in left {
      ReachRefl(E, a);
      var p :| p != [] && Walk(E, a, p, a);
      assert Edge(a, p[0]) in es;
    }
    if x :| x in left {
      assert BehindCycle(E, x);
    }
  }

  /** A reported task need not be on a cycle itself. */
  lemma ReportedBystander(a: string, b: string)
    requires a != b
    ensures var E := {Edge(a, a), Edge(a, b)}; BehindCycle(E, b) && !Leads(E, b, b)
  {
    var E := {Edge(a, a), Edge(a, b)};
    EdgeLeads(E, a, a);
    EdgeLeads(E, a, b);
    forall p | p != [] ensures !Walk(E, b, p, b) {
      assert Edge(b, p[0]) !in E;
    }
  }

  /** The verdict on rules 1 to 4, in the order they are tested. */
  datatype Verdict = Sound | EmptyId | DuplicateId(id: string) | UnknownSource(id: string) |
      UnknownTarget(id: string) | Cycle(left: set<string>)

  method CheckIds(ts: seq<Task>) returns (v: Verdict, ids: seq<string>)
    ensures v.Sound? <==> NamedTasks(ts) && UniqueIds(ts)
    ensures v.Sound? ==> forall x :: x in ids <==> x in Ids(ts)
    ensures v.Sound? || v.EmptyId? || v.DuplicateId?
  {
    v, ids := Sound, [];
    for i := 0 to |ts|
      invariant |ids| == i && forall k :: 0 <= k < i ==> ids[k] == ts[k].id && ts[k].id != ""
      invariant forall j, k :: 0 <= j < k < i ==> ts[j].id != ts[k].id
    {
      if ts[i].id == "" {
        assert ts[i] in ts;
        return EmptyId, ids;
      }
      if ts[i].id in ids {
        return DuplicateId(ts[i].id), ids;
      }
      ids := ids + [ts[i].id];
    }
    forall x ensures x in ids <==> x in Ids(ts) {
      if x in ids {
        var k :| 0 <= k < |ids| && ids[k] == x;
        assert ts[k] in ts;
      }
    }
  }

  /** The structural verdict is sound and complete, and a reported cycle names exactly the tasks that
      lie on or behind one. */
  method CheckStructure(p: Plan) returns (v: Verdict)
    ensures v.Sound? <==> Structural(p)
    ensures v.Cycle? ==> v.left != {} && forall x :: x in v.left <==>
            x in Ids(p.tasks) && BehindCycle(SetOf(p.edges), x)
  {
    var ids;
    v, ids := CheckIds(p.tasks);
    if !v.Sound? {
      return;
    }
    for i := 0 to |p.edges|
      invariant forall k :: 0 <= k < i ==> p.edges[k].src in ids && p.edges[k].dst in ids
    {
      assert p.edges[i] in p.edges;
      if p.edges[i].src !in ids {
        return UnknownSource(p.edges[i].src);
      }
      if p.edges[i].dst !in ids {
        return UnknownTarget(p.edges[i].dst);
      }
    }
    var left := Unplaced(ids, p.edges);
    v := if left == {} then Sound else Cycle(left);
  }
}
