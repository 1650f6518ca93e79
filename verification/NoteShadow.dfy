/** Shadow parity: dry-run flags never influence what the queue decides. */
module NoteShadow {
  import opened Options
  import opened NoteQueue
  import opened NoteRuns

  /** The same note up to the dry-run flag. */
  ghost predicate Like(x: Note, y: Note)
  {
    y == x.(dryRun := y.dryRun)
  }

  ghost predicate Twin(a: seq<Note>, b: seq<Note>)
  {
    |a| == |b| && forall i :: 0 <= i < |a| ==> Like(a[i], b[i])
  }

  /** Whatever `a` consumed dry, `b` consumed dry. */
  ghost predicate DrierIn(a: seq<Note>, b: seq<Note>)
    requires |a| == |b|
  {
    forall i :: 0 <= i < |a| && a[i].dryRun ==> b[i].dryRun
  }

  ghost predicate SameOp(p: Op, q: Op)
  {
    match p
    case Put(d) => q == p
    case Deliver(id, r) => q.Deliver? && q == Deliver(id, r.(dryRun := q.receipt.dryRun))
    case Sweep(task, agent) => q == p
  }

  ghost predicate SameOps(ps: seq<Op>, qs: seq<Op>)
  {
    |ps| == |qs| && forall k :: 0 <= k < |ps| ==> SameOp(ps[k], qs[k])
  }

  ghost predicate DrierOps(ps: seq<Op>, qs: seq<Op>)
  {
    SameOps(ps, qs) && forall k :: 0 <= k < |ps| && ps[k].Deliver? && ps[k].receipt.dryRun ==> qs[k].receipt.dryRun
  }

  lemma {:induction false} TwinIndex(a: seq<Note>, b: seq<Note>, id: string)
    requires Twin(a, b)
    ensures FirstIndex(a, id) == FirstIndex(b, id)
    decreases |a|
  {
    if a != [] {
      assert Like(a[0], b[0]);
      TwinTail(a, b);
      TwinIndex(a[1..], b[1..], id);
    }
  }

  lemma TwinTail(a: seq<Note>, b: seq<Note>)
    requires Twin(a, b) && a != []
    ensures Twin(a[1..], b[1..]) && Twin(a[..|a| - 1], b[..|b| - 1]) && Like(a[0], b[0]) && Like(a[|a| - 1], b[|b| - 1])
    ensures DrierIn(a, b) ==> DrierIn(a[1..], b[1..])
  {
  }

  lemma {:induction false} TwinOrder(a: seq<Note>, b: seq<Note>)
    requires Twin(a, b)
    ensures NextOrder(a) == NextOrder(b)
    decreases |a|
  {
    if |a| > 1 {
      TwinTail(a, b);
      TwinOrder(a[1..], b[1..]);
    } else if |a| == 1 {
      assert Like(a[0], b[0]);
    }
  }

  lemma {:induction false} TwinDrop(a: seq<Note>, b: seq<Note>, k: nat)
    requires Twin(a, b)
    ensures Twin(DropDelivered(a, k), DropDelivered(b, k))
    ensures DrierIn(a, b) ==> DrierIn(DropDelivered(a, k), DropDelivered(b, k))
    decreases |a|
  {
    if a != [] && k != 0 {
      TwinTail(a, b);
      TwinDrop(a[1..], b[1..], if a[0].delivered then k - 1 else k);
    }
  }

  lemma TwinCons(x: Note, y: Note, a: seq<Note>, b: seq<Note>)
    requires Twin(a, b) && Like(x, y)
    ensures Twin([x] + a, [y] + b)
    ensures DrierIn(a, b) && (x.dryRun ==> y.dryRun) ==> DrierIn([x] + a, [y] + b)
  {
  }

  lemma TwinEvictable(x: Note, y: Note, task: string, agent: string)
    requires Like(x, y)
    ensures Evictable(x, task, agent) <==> Evictable(y, task, agent)
  {
  }

  lemma {:induction false} TwinEvict(a: seq<Note>, b: seq<Note>, task: string, agent: string)
    requires Twin(a, b)
    ensures Twin(Evict(a, task, agent), Evict(b, task, agent))
    ensures DrierIn(a, b) ==> DrierIn(Evict(a, task, agent), Evict(b, task, agent))
    ensures EvictedIds(a, task, agent) == EvictedIds(b, task, agent)
    decreases |a|
  {
    if a != [] {
      TwinTail(a, b);
      TwinEvict(a[1..], b[1..], task, agent);
      TwinEvictable(a[0], b[0], task, agent);
      if !Evictable(a[0], task, agent) {
        TwinCons(a[0], b[0], Evict(a[1..], task, agent), Evict(b[1..], task, agent));
      }
    }
  }

  lemma TwinAppend(a: seq<Note>, b: seq<Note>, x: Note, y: Note)
    requires Twin(a, b) && Like(x, y)
    ensures Twin(a + [x], b + [y])
    ensures DrierIn(a, b) && (x.dryRun ==> y.dryRun) ==> DrierIn(a + [x], b + [y])
  {
  }

  lemma TwinUpdate(a: seq<Note>, b: seq<Note>, i: nat, x: Note, y: Note)
    requires Twin(a, b) && i < |a| && Like(x, y)
    ensures Twin(a[i := x], b[i := y])
    ensures DrierIn(a, b) && (x.dryRun ==> y.dryRun) ==> DrierIn(a[i := x], b[i := y])
  {
  }

  lemma TwinPrune(a: seq<Note>, b: seq<Note>)
    requires Twin(a, b)
    ensures Twin(Prune(a), Prune(b))
    ensures DrierIn(a, b) ==> DrierIn(Prune(a), Prune(b))
  {
    if |a| > NOTES_CAP {
      TwinDrop(a, b, |a| - NOTES_CAP);
    }
  }

  lemma TwinRefresh(a: seq<Note>, b: seq<Note>, i: nat, d: Draft)
    requires Twin(a, b) && i < |a|
    ensures Twin(a[i := Refreshed(a[i], d)], b[i := Refreshed(b[i], d)])
    ensures DrierIn(a, b) ==> DrierIn(a[i := Refreshed(a[i], d)], b[i := Refreshed(b[i], d)])
  {
    assert Like(a[i], b[i]);
    TwinUpdate(a, b, i, Refreshed(a[i], d), Refreshed(b[i], d));
  }

  lemma TwinPut(digest: Digest, a: seq<Note>, b: seq<Note>, d: Draft)
    requires Twin(a, b)
    ensures Twin(Enqueue(digest, a, d), Enqueue(digest, b, d))
    ensures DrierIn(a, b) ==> DrierIn(Enqueue(digest, a, d), Enqueue(digest, b, d))
  {
    TwinIndex(a, b, Mint(digest, d));
    var i := FirstIndex(a, Mint(digest, d));
    if i == |a| {
      TwinOrder(a, b);
      var x := NewNote(digest, a, d);
      TwinAppend(a, b, x, x);
      TwinPrune(a + [x], b + [x]);
    } else {
      assert a[i].delivered <==> b[i].delivered by {
        assert Like(a[i], b[i]);
      }
      TwinRefresh(a, b, i, d);
    }
  }

  lemma TwinStep(digest: Digest, a: seq<Note>, b: seq<Note>, p: Op, q: Op)
    requires Twin(a, b) && SameOp(p, q)
    ensures Twin(Step(digest, a, p), Step(digest, b, q))
    ensures DrierIn(a, b) && (p.Deliver? && p.receipt.dryRun ==> q.receipt.dryRun) ==>
            DrierIn(Step(digest, a, p), Step(digest, b, q))
  {
    match p
    case Put(d) => TwinPut(digest, a, b, d);
    case Deliver(id, r) =>
      TwinIndex(a, b, id);
      var i := FirstIndex(a, id);
      if i < |a| {
        assert Like(a[i], b[i]);
        TwinUpdate(a, b, i, Consumed(a[i], r), Consumed(b[i], q.receipt));
      }
    case Sweep(task, agent) => TwinEvict(a, b, task, agent);
  }

  lemma {:induction false} TwinPeek(f: Filter, a: seq<Note>, b: seq<Note>, best: Option<Note>)
    requires Twin(a, b)
    requires forall i :: 0 <= i < |a| && !a[i].delivered ==> a[i] == b[i]
    ensures Better(f, a, best) == Better(f, b, best)
    decreases |a|
  {
    if a != [] {
      TwinTail(a, b);
      if Eligible(f, a[0]) && (best.None? || Below(KeyOf(best.value), KeyOf(a[0]))) {
        TwinPeek(f, a[1..], b[1..], Some(a[0]));
      } else {
        TwinPeek(f, a[1..], b[1..], best);
      }
    }
  }

  lemma {:induction false} TwinPacing(a: seq<Note>, b: seq<Note>, kind: string, task: string)
    requires Twin(a, b)
    ensures LastRenderedTurn(a, kind, task) == LastRenderedTurn(b, kind, task)
    ensures SignalCount(a, kind, task) == SignalCount(b, kind, task)
    decreases |a|
  {
    if a != [] {
      TwinTail(a, b);
      TwinPacing(a[..|a| - 1], b[..|b| - 1], kind, task);
    }
  }

  lemma DrierShrinksRendered(a: seq<Note>, b: seq<Note>)
    requires Twin(a, b) && DrierIn(a, b)
    ensures RenderedKeys(b) <= RenderedKeys(a)
  {
    forall key | key in RenderedKeys(b) ensures key in RenderedKeys(a) {
      var n :| n in b && n.delivered && !n.dryRun && !IsCorrection(n) && key == (n.draft.kind, n.draft.task);
      var i :| 0 <= i < |b| && b[i] == n;
      assert Like(a[i], b[i]) && a[i] in a;
    }
  }

  lemma {:induction false} TwinRun(digest: Digest, ns: seq<Note>, ps: seq<Op>, qs: seq<Op>, k: nat)
    requires SameOps(ps, qs) && k <= |ps|
    ensures Twin(At(digest, ns, ps, k), At(digest, ns, qs, k))
    ensures DrierOps(ps, qs) ==> DrierIn(At(digest, ns, ps, k), At(digest, ns, qs, k))
  {
    if k > 0 {
      TwinRun(digest, ns, ps, qs, k - 1);
      TwinStep(digest, At(digest, ns, ps, k - 1), At(digest, ns, qs, k - 1), ps[k - 1], qs[k - 1]);
    }
  }

  /** Two runs that differ only in dry-run flags peek, mark, evict and pace identically at every
      point; consuming more notes dry can only shrink the set of rendered keys. */
  lemma ShadowParity(digest: Digest, ns: seq<Note>, ps: seq<Op>, qs: seq<Op>, k: nat,
                     f: Filter, id: string, task: string, agent: string, kind: string)
    requires Ok(ns) && SameOps(ps, qs) && k <= |ps|
    ensures var a, b := At(digest, ns, ps, k), At(digest, ns, qs, k);
            && |a| == |b|
            && Peek(f, a) == Peek(f, b)
            && (Marks(a, id) <==> Marks(b, id))
            && EvictedIds(a, task, agent) == EvictedIds(b, task, agent)
            && LastRenderedTurn(a, kind, task) == LastRenderedTurn(b, kind, task)
            && SignalCount(a, kind, task) == SignalCount(b, kind, task)
            && (DrierOps(ps, qs) ==> RenderedKeys(b) <= RenderedKeys(a))
  {
    var a, b := At(digest, ns, ps, k), At(digest, ns, qs, k);
    TwinRun(digest, ns, ps, qs, k);
    RunOk(digest, ns, ps, k);
    RunOk(digest, ns, qs, k);
    forall i | 0 <= i < |a| && !a[i].delivered ensures a[i] == b[i] {
      assert Like(a[i], b[i]) && a[i] in a && b[i] in b;
    }
    TwinPeek(f, a, b, None);
    TwinIndex(a, b, id);
    assert FirstIndex(a, id) < |a| ==> Like(a[FirstIndex(a, id)], b[FirstIndex(a, id)]);
    TwinEvict(a, b, task, agent);
    TwinPacing(a, b, kind, task);
    if DrierOps(ps, qs) {
      DrierShrinksRendered(a, b);
    }
  }
}
