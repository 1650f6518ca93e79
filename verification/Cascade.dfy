/** The cancellation cascade: a breadth-first walk over a snapshot of the plan that cancels every open
    task it meets and does not walk past a terminal one. */
module Cascade {
  import opened Graph
  import opened Plans
  import opened Steer
  import opened Runs
  import opened Validator

  predicate OpenIn(p: Plan, id: string)
  {
    Lookup(p.tasks, id).Some? && !Terminal(Lookup(p.tasks, id).value.status)
  }

  function Unseen(xs: seq<string>, visited: set<string>): (r: seq<string>)
    ensures forall x :: x in r <==> x in xs && x !in visited
  {
    if xs == [] then []
    else
      assert xs == [xs[0]] + xs[1..];
      (if xs[0] in visited then [] else [xs[0]]) + Unseen(xs[1..], visited)
  }

  /** The walk between two of its steps. */
  datatype Sweep = Sweep(snapshot: Plan, queue: seq<string>, visited: set<string>)

  function Begin(p: Plan, id: string): (r: Sweep)
  {
    Sweep(p, Children(p.edges, id), {})
  }

  /** The next step cancels the task at the head of the queue. */
  predicate Writes(s: Sweep)
  {
    s.queue != [] && s.queue[0] !in s.visited && OpenIn(s.snapshot, s.queue[0])
  }

  function Pop(s: Sweep): (r: Sweep)
    requires s.queue != []
    ensures r.snapshot == s.snapshot
  {
    var x, rest, visited := s.queue[0], s.queue[1..], s.visited + {s.queue[0]};
    if Writes(s) then Sweep(s.snapshot, rest + Unseen(Children(s.snapshot.edges, x), visited), visited)
    else Sweep(s.snapshot, rest, visited)
  }

  // ----- what an undisturbed walk cancels

  /** The edges that lead into open tasks. */
  ghost function OpenEdges(p: Plan): (r: set<Edge>)
  {
    set e | e in p.edges && OpenIn(p, e.dst)
  }

  /** `x` is open and every task on some way from `id` to it is. */
  ghost predicate Downstream(p: Plan, id: string, x: string)
  {
    Leads(OpenEdges(p), id, x)
  }

  lemma {:induction false} ChildIff(es: seq<Edge>, y: string, x: string)
    ensures x in Children(es, y) <==> Edge(y, x) in es
  {
    if es != [] {
      var front, e := es[..|es| - 1], es[|es| - 1];
      assert es == front + [e];
      ChildIff(front, y, x);
    }
  }

  /** The tasks cancelled so far. */
  ghost function Hit(s: Sweep): (r: set<string>)
  {
    set x | x in s.visited && OpenIn(s.snapshot, x)
  }

  ghost predicate Source(s: Sweep, id: string, y: string)
  {
    y == id || y in Hit(s)
  }

  /** Everything queued follows a source, everything cancelled is downstream, and every successor of a
      source is queued or visited. */
  ghost predicate WalkOk(s: Sweep, id: string)
  {
    && (forall x <- s.queue :: exists y :: Source(s, id, y) && Edge(y, x) in s.snapshot.edges)
    && (forall x <- Hit(s) :: Downstream(s.snapshot, id, x))
    && (forall e <- s.snapshot.edges :: Source(s, id, e.src) ==> e.dst in s.visited || e.dst in s.queue)
  }

  lemma BeginOk(p: Plan, id: string)
    ensures WalkOk(Begin(p, id), id)
  {
    var s := Begin(p, id);
    forall x | x in s.queue ensures exists y :: Source(s, id, y) && Edge(y, x) in p.edges {
      ChildIff(p.edges, id, x);
      assert Source(s, id, id);
    }
    forall e | e in p.edges && Source(s, id, e.src) ensures e.dst in s.queue {
      ChildIff(p.edges, id, e.dst);
      assert e == Edge(id, e.dst);
    }
  }

  /** An open task at the head of the queue is downstream. */
  lemma HeadDownstream(s: Sweep, id: string)
    requires WalkOk(s, id) && Writes(s)
    ensures Downstream(s.snapshot, id, s.queue[0])
  {
    var x, E := s.queue[0], OpenEdges(s.snapshot);
    assert x in s.queue;
    var y :| Source(s, id, y) && Edge(y, x) in s.snapshot.edges;
    assert Edge(y, x) in E;
    EdgeLeads(E, y, x);
    if y != id {
      assert Downstream(s.snapshot, id, y);
      LeadsReach(E, id, y);
      ReachTrans(E, id, y, x);
    }
  }

  lemma SourceStays(s: Sweep, id: string, y: string)
    requires s.queue != []
    ensures Source(Pop(s), id, y) <==> Source(s, id, y) || (Writes(s) && y == s.queue[0])
  {
  }

  lemma PopQueue(s: Sweep, id: string, x: string)
    requires WalkOk(s, id) && s.queue != [] && x in Pop(s).queue
    ensures exists y :: Source(Pop(s), id, y) && Edge(y, x) in s.snapshot.edges
  {
    var h := s.queue[0];
    if x in s.queue[1..] {
      assert x in s.queue;
      var y :| Source(s, id, y) && Edge(y, x) in s.snapshot.edges;
      SourceStays(s, id, y);
    } else {
      ChildIff(s.snapshot.edges, h, x);
      SourceStays(s, id, h);
    }
  }

  lemma PopClosed(s: Sweep, id: string, e: Edge)
    requires WalkOk(s, id) && s.queue != [] && e in s.snapshot.edges && Source(Pop(s), id, e.src)
    ensures e.dst in Pop(s).visited || e.dst in Pop(s).queue
  {
    var h := s.queue[0];
    SourceStays(s, id, e.src);
    assert s.queue == [h] + s.queue[1..];
    if !Source(s, id, e.src) {
      ChildIff(s.snapshot.edges, h, e.dst);
      assert e == Edge(h, e.dst);
    }
  }

  lemma PopOk(s: Sweep, id: string)
    requires WalkOk(s, id) && s.queue != []
    ensures WalkOk(Pop(s), id)
  {
    var r := Pop(s);
    forall x | x in r.queue ensures exists y :: Source(r, id, y) && Edge(y, x) in r.snapshot.edges {
      PopQueue(s, id, x);
    }
    forall x | x in Hit(r) ensures Downstream(r.snapshot, id, x) {
      if x !in Hit(s) {
        HeadDownstream(s, id);
      }
    }
    forall e | e in r.snapshot.edges && Source(r, id, e.src) ensures e.dst in r.visited || e.dst in r.queue {
      PopClosed(s, id, e);
    }
  }

  lemma {:induction false} WalkHit(s: Sweep, id: string, y: string, p: seq<string>, x: string)
    requires WalkOk(s, id) && s.queue == [] && Source(s, id, y) && p != [] && Walk(OpenEdges(s.snapshot), y, p, x)
    ensures x in Hit(s)
    decreases |p|
  {
    assert Edge(y, p[0]) in OpenEdges(s.snapshot);
    assert p[0] in Hit(s);
    if p[1..] != [] {
      WalkHit(s, id, p[0], p[1..], x);
    }
  }

  /** A finished walk has cancelled exactly the tasks downstream. */
  lemma FinishedWalk(s: Sweep, id: string, x: string)
    requires WalkOk(s, id) && s.queue == []
    ensures x in Hit(s) <==> Downstream(s.snapshot, id, x)
  {
    if Downstream(s.snapshot, id, x) {
      var p :| p != [] && Walk(OpenEdges(s.snapshot), id, p, x);
      WalkHit(s, id, id, p, x);
    }
  }

  /** `q` is `p` with the given tasks cancelled and every other task as it was. */
  ghost predicate CancelledIn(q: Plan, p: Plan, hit: set<string>)
  {
    && q == p.(tasks := q.tasks) && |q.tasks| == |p.tasks|
    && forall i :: 0 <= i < |p.tasks| ==>
         q.tasks[i] == if p.tasks[i].id in hit then p.tasks[i].(status := Cancelled) else p.tasks[i]
  }

  lemma CancelOne(q: Plan, p: Plan, hit: set<string>, x: string)
    requires UniqueIds(p.tasks) && CancelledIn(q, p, hit)
    ensures CancelledIn(CascadeWrite(q, x), p, hit + {x})
  {
    var r := CascadeWrite(q, x);
    assert UniqueIds(q.tasks);
    forall i | 0 <= i < |p.tasks|
      ensures r.tasks[i] == if p.tasks[i].id in hit + {x} then p.tasks[i].(status := Cancelled) else p.tasks[i]
    {
      SetStatusAt(q.tasks, x, Cancelled, i);
      assert r.tasks[i] == q.tasks[i] || r.tasks[i] == q.tasks[i].(status := Cancelled);
    }
  }

  ghost function Targets(es: seq<Edge>): (r: set<string>)
  {
    set e | e in es :: e.dst
  }

  lemma QueueTargets(s: Sweep, id: string)
    requires WalkOk(s, id) && s.queue != []
    ensures s.queue[0] in Targets(s.snapshot.edges)
  {
    var x := s.queue[0];
    assert x in s.queue;
    var y :| Source(s, id, y) && Edge(y, x) in s.snapshot.edges;
  }

  lemma PopProgress(s: Sweep, id: string)
    requires WalkOk(s, id) && s.queue != []
    ensures var T := Targets(s.snapshot.edges);
            || |T - Pop(s).visited| < |T - s.visited|
            || (Pop(s).visited == s.visited && |Pop(s).queue| < |s.queue|)
  {
    var T, x := Targets(s.snapshot.edges), s.queue[0];
    QueueTargets(s, id);
    if x !in s.visited {
      assert T - Pop(s).visited == T - s.visited - {x};
    } else {
      assert s.visited + {x} == s.visited;
    }
  }

  /** The walk over `p` has cancelled in `q` what it has met so far. */
  ghost predicate SweepOk(s: Sweep, p: Plan, q: Plan, id: string)
  {
    s.snapshot == p && WalkOk(s, id) && CancelledIn(q, p, Hit(s))
  }

  /** One step of the walk on the live plan. */
  function StepPlan(s: Sweep, q: Plan): (r: Plan)
    requires s.queue != []
  {
    if Writes(s) then CascadeWrite(q, s.queue[0]) else q
  }

  lemma SweepStep(s: Sweep, p: Plan, q: Plan, id: string)
    requires UniqueIds(p.tasks) && SweepOk(s, p, q, id) && s.queue != []
    ensures SweepOk(Pop(s), p, StepPlan(s, q), id)
  {
    PopOk(s, id);
    if Writes(s) {
      CancelOne(q, p, Hit(s), s.queue[0]);
      assert Hit(Pop(s)) == Hit(s) + {s.queue[0]};
    } else {
      assert Hit(Pop(s)) == Hit(s);
    }
  }

  ghost predicate IsDownstream(p: Plan, id: string, hit: set<string>)
  {
    forall x :: x in hit <==> Downstream(p, id, x)
  }

  /** Exactly the open tasks reached through open tasks are cancelled, and nothing else changes. */
  ghost predicate Swept(q: Plan, p: Plan, id: string)
  {
    exists hit :: CancelledIn(q, p, hit) && IsDownstream(p, id, hit)
  }

  lemma SweepDone(s: Sweep, p: Plan, q: Plan, id: string)
    requires SweepOk(s, p, q, id) && s.queue == []
    ensures Swept(q, p, id)
  {
    var hit := Hit(s);
    forall x ensures x in hit <==> Downstream(p, id, x) {
      FinishedWalk(s, id, x);
    }
  }

  /** The walk with nothing running in between. */
  method CascadeCancel(p: Plan, id: string) returns (q: Plan)
    requires UniqueIds(p.tasks)
    ensures Swept(q, p, id)
  {
    q := p;
    var s := Begin(p, id);
    BeginOk(p, id);
    while s.queue != []
      invariant SweepOk(s, p, q, id)
      decreases |Targets(p.edges) - s.visited|, |s.queue|
    {
      SweepStep(s, p, q, id);
      PopProgress(s, id);
      if Writes(s) {
        q := CascadeWrite(q, s.queue[0]);
      }
      s := Pop(s);
    }
    SweepDone(s, p, q, id);
  }

  lemma CancelledLookup(q: Plan, p: Plan, hit: set<string>, id: string)
    requires CancelledIn(q, p, hit)
    ensures Lookup(q.tasks, id).Some? <==> Lookup(p.tasks, id).Some?
    ensures Lookup(q.tasks, id).Some? ==>
              Lookup(q.tasks, id).value.status == if id in hit then Cancelled else Lookup(p.tasks, id).value.status
  {
    var i := SameIdLookup(p.tasks, q.tasks, id);
  }

  /** An undisturbed cascade changes no terminal status. */
  lemma SweptKeeps(q: Plan, p: Plan, id: string)
    requires WellNamed(p) && Swept(q, p, id)
    ensures KeepsStatuses(q, p)
  {
    var hit :| CancelledIn(q, p, hit) && IsDownstream(p, id, hit);
    forall t | t in p.tasks && Terminal(t.status) ensures HasStatus(q, t.id, t.status) {
      UniqueLookup(p.tasks, t);
      CancelledLookup(q, p, hit, t.id);
      if t.id in hit {
        DownstreamOpen(p, id, t.id);
      }
    }
  }

  lemma DownstreamOpen(p: Plan, id: string, x: string)
    requires Downstream(p, id, x)
    ensures OpenIn(p, x)
  {
    var w :| w != [] && Walk(OpenEdges(p), id, w, x);
    LastOpen(p, id, w, x);
  }

  lemma {:induction false} LastOpen(p: Plan, a: string, w: seq<string>, x: string)
    requires w != [] && Walk(OpenEdges(p), a, w, x)
    ensures OpenIn(p, x)
    decreases |w|
  {
    assert Edge(a, w[0]) in OpenEdges(p);
    if w[1..] != [] {
      LastOpen(p, w[0], w[1..], x);
    }
  }

  /** It leaves no orphan: nothing open follows the initiator or a task it cancelled. */
  lemma SweptLeavesNoOrphan(q: Plan, p: Plan, id: string, e: Edge)
    requires Swept(q, p, id) && e in p.edges && (e.src == id || Downstream(p, id, e.src))
    ensures !OpenIn(q, e.dst)
  {
    var hit :| CancelledIn(q, p, hit) && IsDownstream(p, id, hit);
    CancelledLookup(q, p, hit, e.dst);
    if OpenIn(p, e.dst) {
      var E := OpenEdges(p);
      assert e in E && e == Edge(e.src, e.dst);
      EdgeLeads(E, e.src, e.dst);
      if e.src != id {
        LeadsReach(E, id, e.src);
        ReachTrans(E, id, e.src, e.dst);
      }
    }
  }
}
