/** Whole runs of queue operations: list invariants, the cap, and exactly-once delivery. */
module NoteRuns {
  import opened NoteQueue

  datatype Op =
    | Put(draft: Draft)
    | Deliver(id: string, receipt: Receipt)
    | Sweep(task: string, agent: string)

  function Step(digest: Digest, ns: seq<Note>, op: Op): (r: seq<Note>)
  {
    match op
    case Put(d) => Enqueue(digest, ns, d)
    case Deliver(id, r) => Mark(ns, id, r)
    case Sweep(task, agent) => Evict(ns, task, agent)
  }

  /** The list after the first `k` operations of a run. */
  function At(digest: Digest, ns: seq<Note>, ops: seq<Op>, k: nat): (r: seq<Note>)
    requires k <= |ops|
  {
    if k == 0 then ns else Step(digest, At(digest, ns, ops, k - 1), ops[k - 1])
  }

  // ----- invariants of the list

  ghost predicate UniqueNotes(ns: seq<Note>)
  {
    forall i, j :: 0 <= i < j < |ns| ==> ns[i].id != ns[j].id
  }

  ghost predicate Ordered(ns: seq<Note>)
  {
    forall i, j :: 0 <= i < j < |ns| ==> ns[i].order < ns[j].order
  }

  /** Ids unique, orders strictly increasing along the list, pending notes carry no delivery marks. */
  ghost predicate Ok(ns: seq<Note>)
  {
    UniqueNotes(ns) && Ordered(ns) && forall n <- ns :: !n.delivered ==> !n.dryRun
  }

  /** `r` keeps some positions of `ns`, in order. */
  ghost predicate Picks(r: seq<Note>, ns: seq<Note>, at: seq<nat>)
  {
    && |at| == |r|
    && (forall i :: 0 <= i < |r| ==> at[i] < |ns| && r[i] == ns[at[i]])
    && (forall i, j :: 0 <= i < j < |r| ==> at[i] < at[j])
  }

  lemma PicksOk(r: seq<Note>, ns: seq<Note>, at: seq<nat>)
    requires Ok(ns) && Picks(r, ns, at)
    ensures Ok(r)
  {
    forall i, j | 0 <= i < j < |r| ensures r[i].id != r[j].id && r[i].order < r[j].order {
      assert at[i] < at[j];
    }
    forall n | n in r ensures !n.delivered ==> !n.dryRun {
      var i :| 0 <= i < |r| && r[i] == n;
      assert ns[at[i]] in ns;
    }
  }

  function Shifted(at: seq<nat>): (r: seq<nat>)
    ensures |r| == |at| && forall i :: 0 <= i < |at| ==> r[i] == at[i] + 1
  {
    seq(|at|, i requires 0 <= i < |at| => at[i] + 1)
  }

  lemma PicksSkip(r: seq<Note>, ns: seq<Note>, at: seq<nat>)
    requires ns != [] && Picks(r, ns[1..], at)
    ensures Picks(r, ns, Shifted(at))
  {
  }

  lemma PicksKeep(r: seq<Note>, ns: seq<Note>, at: seq<nat>)
    requires ns != [] && Picks(r, ns[1..], at)
    ensures Picks([ns[0]] + r, ns, [0] + Shifted(at))
  {
    PicksSkip(r, ns, at);
  }

  lemma {:induction false} DropPicks(ns: seq<Note>, k: nat) returns (at: seq<nat>)
    ensures Picks(DropDelivered(ns, k), ns, at)
    decreases |ns|
  {
    if ns == [] || k == 0 {
      at := seq(|ns|, i => i);
    } else if ns[0].delivered {
      at := DropPicks(ns[1..], k - 1);
      PicksSkip(DropDelivered(ns[1..], k - 1), ns, at);
      at := Shifted(at);
    } else {
      at := DropPicks(ns[1..], k);
      PicksKeep(DropDelivered(ns[1..], k), ns, at);
      at := [0] + Shifted(at);
    }
  }

  lemma {:induction false} EvictPicks(ns: seq<Note>, task: string, agent: string) returns (at: seq<nat>)
    ensures Picks(Evict(ns, task, agent), ns, at)
    decreases |ns|
  {
    if ns == [] {
      at := [];
    } else if Evictable(ns[0], task, agent) {
      at := EvictPicks(ns[1..], task, agent);
      PicksSkip(Evict(ns[1..], task, agent), ns, at);
      at := Shifted(at);
    } else {
      at := EvictPicks(ns[1..], task, agent);
      PicksKeep(Evict(ns[1..], task, agent), ns, at);
      at := [0] + Shifted(at);
    }
  }

  lemma {:induction false} DropMembers(ns: seq<Note>, k: nat)
    ensures forall n :: n in DropDelivered(ns, k) ==> n in ns
    ensures forall n :: n in ns && !n.delivered ==> n in DropDelivered(ns, k)
    decreases |ns|
  {
    if ns != [] && k != 0 {
      DropMembers(ns[1..], if ns[0].delivered then k - 1 else k);
    }
  }

  lemma PruneOk(ns: seq<Note>)
    requires Ok(ns)
    ensures Ok(Prune(ns))
    ensures forall n :: n in Prune(ns) ==> n in ns
    ensures forall n :: n in ns && !n.delivered ==> n in Prune(ns)
  {
    if |ns| > NOTES_CAP {
      var at := DropPicks(ns, |ns| - NOTES_CAP);
      PicksOk(Prune(ns), ns, at);
      DropMembers(ns, |ns| - NOTES_CAP);
    }
  }

  lemma AppendOk(digest: Digest, ns: seq<Note>, d: Draft)
    requires Ok(ns) && FirstIndex(ns, Mint(digest, d)) == |ns|
    ensures Ok(ns + [NewNote(digest, ns, d)])
  {
    var r := ns + [NewNote(digest, ns, d)];
    forall i, j | 0 <= i < j < |r| ensures r[i].id != r[j].id && r[i].order < r[j].order {
      if j == |ns| {
        assert ns[i] in ns;
      }
    }
  }

  lemma UpdateOk(ns: seq<Note>, i: nat, n: Note)
    requires Ok(ns) && i < |ns| && n.id == ns[i].id && n.order == ns[i].order && (!n.delivered ==> !n.dryRun)
    ensures Ok(ns[i := n])
  {
  }

  /** Every operation keeps the list invariant. */
  lemma StepOk(digest: Digest, ns: seq<Note>, op: Op)
    requires Ok(ns)
    ensures Ok(Step(digest, ns, op))
  {
    match op
    case Put(d) =>
      var i := FirstIndex(ns, Mint(digest, d));
      if i == |ns| {
        AppendOk(digest, ns, d);
        PruneOk(ns + [NewNote(digest, ns, d)]);
      } else if !ns[i].delivered {
        UpdateOk(ns, i, Refreshed(ns[i], d));
      }
    case Deliver(id, r) =>
      var i := FirstIndex(ns, id);
      if i < |ns| {
        UpdateOk(ns, i, Consumed(ns[i], r));
      }
    case Sweep(task, agent) =>
      var at := EvictPicks(ns, task, agent);
      PicksOk(Evict(ns, task, agent), ns, at);
  }

  lemma {:induction false} RunOk(digest: Digest, ns: seq<Note>, ops: seq<Op>, k: nat)
    requires Ok(ns) && k <= |ops|
    ensures Ok(At(digest, ns, ops, k))
  {
    if k > 0 {
      RunOk(digest, ns, ops, k - 1);
      StepOk(digest, At(digest, ns, ops, k - 1), ops[k - 1]);
    }
  }

  // ----- the cap

  function PendingCount(ns: seq<Note>): (r: nat)
    ensures r <= |ns|
  {
    if ns == [] then 0 else (if ns[0].delivered then 0 else 1) + PendingCount(ns[1..])
  }

  lemma {:induction false} DropLength(ns: seq<Note>, k: nat)
    ensures PendingCount(DropDelivered(ns, k)) == PendingCount(ns)
    ensures |DropDelivered(ns, k)| == if k <= |ns| - PendingCount(ns) then |ns| - k else PendingCount(ns)
    decreases |ns|
  {
    if ns != [] && k != 0 {
      DropLength(ns[1..], if ns[0].delivered then k - 1 else k);
    }
  }

  /** After an appending enqueue the list holds at most the cap, or else only pending notes. */
  lemma CapHolds(digest: Digest, ns: seq<Note>, d: Draft)
    requires FirstIndex(ns, Mint(digest, d)) == |ns|
    ensures var r := Enqueue(digest, ns, d); |r| <= NOTES_CAP || |r| == PendingCount(r)
  {
    var r := ns + [NewNote(digest, ns, d)];
    if |r| > NOTES_CAP {
      DropLength(r, |r| - NOTES_CAP);
    }
  }

  // ----- exactly once

  ghost predicate DeliveredIn(ns: seq<Note>, id: string)
  {
    exists n :: n in ns && n.id == id && n.delivered
  }

  ghost predicate Present(ns: seq<Note>, id: string)
  {
    exists n :: n in ns && n.id == id
  }

  /** The operation is an enqueue that appends a note. */
  ghost predicate Appends(digest: Digest, ns: seq<Note>, op: Op)
  {
    op.Put? && FirstIndex(ns, Mint(digest, op.draft)) == |ns|
  }

  /** The operation appends over the cap, and the pruning removed the delivered tombstone of `id`. */
  ghost predicate PrunesTombstone(digest: Digest, ns: seq<Note>, op: Op, id: string)
  {
    Appends(digest, ns, op) && DeliveredIn(ns, id) && !Present(Step(digest, ns, op), id) && |ns| >= NOTES_CAP
  }

  lemma UniqueAt(ns: seq<Note>, n: Note, m: Note)
    requires UniqueNotes(ns) && n in ns && m in ns && n.id == m.id
    ensures n == m
  {
  }

  lemma UpdatedKeeps(ns: seq<Note>, i: nat, m: Note, n: Note)
    requires UniqueNotes(ns) && i < |ns| && n in ns && n.delivered && !ns[i].delivered && m.id == ns[i].id
    ensures n in ns[i := m]
  {
    var j :| 0 <= j < |ns| && ns[j] == n;
    assert ns[i := m][j] == n;
  }

  lemma PrunedOrKept(r: seq<Note>, n: Note)
    requires Ok(r) && n in r
    ensures n in Prune(r) || (!Present(Prune(r), n.id) && |r| > NOTES_CAP)
  {
    PruneOk(r);
    if n !in Prune(r) {
      forall m | m in Prune(r) ensures m.id != n.id {
        if m.id == n.id {
          UniqueAt(r, m, n);
        }
      }
    }
  }

  /** A delivered note stays delivered until its tombstone is pruned. */
  lemma TombstoneStays(digest: Digest, ns: seq<Note>, op: Op, id: string)
    requires Ok(ns) && DeliveredIn(ns, id)
    ensures DeliveredIn(Step(digest, ns, op), id) || PrunesTombstone(digest, ns, op, id)
  {
    var n :| n in ns && n.id == id && n.delivered;
    match op
    case Put(d) =>
      var i := FirstIndex(ns, Mint(digest, d));
      if i == |ns| {
        AppendOk(digest, ns, d);
        PrunedOrKept(ns + [NewNote(digest, ns, d)], n);
      } else if !ns[i].delivered {
        UpdatedKeeps(ns, i, Refreshed(ns[i], d), n);
      }
    case Deliver(x, r) =>
      var i := FirstIndex(ns, x);
      if i < |ns| && !ns[i].delivered {
        UpdatedKeeps(ns, i, Consumed(ns[i], r), n);
      }
    case Sweep(task, agent) =>
      EvictMembers(ns, task, agent, n);
  }

  lemma MarkDelivers(ns: seq<Note>, id: string, r: Receipt)
    requires Marks(ns, id)
    ensures DeliveredIn(Mark(ns, id, r), id)
  {
    var i := FirstIndex(ns, id);
    assert Mark(ns, id, r)[i] in Mark(ns, id, r);
  }

  lemma DeliveredBlocksMark(ns: seq<Note>, id: string)
    requires Ok(ns) && DeliveredIn(ns, id)
    ensures !Marks(ns, id)
  {
    var n :| n in ns && n.id == id && n.delivered;
    var i := FirstIndex(ns, id);
    if i < |ns| {
      UniqueAt(ns, n, ns[i]);
    }
  }

  ghost predicate SucceedsAt(digest: Digest, ns: seq<Note>, ops: seq<Op>, k: nat, id: string)
  {
    k < |ops| && ops[k].Deliver? && ops[k].id == id && Marks(At(digest, ns, ops, k), id)
  }

  /** Some operation in [i, j) prunes the tombstone of `id`. */
  ghost predicate PrunedBetween(digest: Digest, ns: seq<Note>, ops: seq<Op>, i: nat, j: nat, id: string)
    requires j <= |ops|
  {
    exists k: nat :: i <= k < j && PrunesTombstone(digest, At(digest, ns, ops, k), ops[k], id)
  }

  lemma TombstoneNext(digest: Digest, ns: seq<Note>, ops: seq<Op>, k: nat, id: string)
    requires Ok(ns) && k < |ops| && DeliveredIn(At(digest, ns, ops, k), id)
    ensures DeliveredIn(At(digest, ns, ops, k + 1), id) || PrunesTombstone(digest, At(digest, ns, ops, k), ops[k], id)
  {
    RunOk(digest, ns, ops, k);
    TombstoneStays(digest, At(digest, ns, ops, k), ops[k], id);
  }

  lemma {:induction false} TombstoneUntil(digest: Digest, ns: seq<Note>, ops: seq<Op>, i: nat, j: nat, id: string)
    requires Ok(ns) && i <= j <= |ops| && DeliveredIn(At(digest, ns, ops, i), id)
    ensures DeliveredIn(At(digest, ns, ops, j), id) || PrunedBetween(digest, ns, ops, i, j, id)
    decreases j - i
  {
    if i < j {
      TombstoneNext(digest, ns, ops, i, id);
      if DeliveredIn(At(digest, ns, ops, i + 1), id) {
        TombstoneUntil(digest, ns, ops, i + 1, j, id);
        if PrunedBetween(digest, ns, ops, i + 1, j, id) {
          var k: nat :| i + 1 <= k < j && PrunesTombstone(digest, At(digest, ns, ops, k), ops[k], id);
          assert i <= k < j;
        }
      }
    }
  }

  /** Between two successful deliveries of one note, an enqueue pruned its tombstone. */
  lemma ExactlyOnce(digest: Digest, ns: seq<Note>, ops: seq<Op>, i: nat, j: nat, id: string)
    requires Ok(ns) && i < j && SucceedsAt(digest, ns, ops, i, id) && SucceedsAt(digest, ns, ops, j, id)
    ensures PrunedBetween(digest, ns, ops, i + 1, j, id)
  {
    MarkDelivers(At(digest, ns, ops, i), id, ops[i].receipt);
    assert At(digest, ns, ops, i + 1) == Step(digest, At(digest, ns, ops, i), ops[i]);
    TombstoneUntil(digest, ns, ops, i + 1, j, id);
    if DeliveredIn(At(digest, ns, ops, j), id) {
      RunOk(digest, ns, ops, j);
      DeliveredBlocksMark(At(digest, ns, ops, j), id);
    }
  }

  /** No append of the run finds the list at the cap. */
  ghost predicate NeverOverCap(digest: Digest, ns: seq<Note>, ops: seq<Op>)
  {
    forall k :: 0 <= k < |ops| && Appends(digest, At(digest, ns, ops, k), ops[k]) ==>
        |At(digest, ns, ops, k)| < NOTES_CAP
  }

  /** A run in which no append grows the list beyond the cap delivers each id at most once. */
  lemma AtMostOnceBelowCap(digest: Digest, ns: seq<Note>, ops: seq<Op>, i: nat, j: nat, id: string)
    requires Ok(ns) && SucceedsAt(digest, ns, ops, i, id) && SucceedsAt(digest, ns, ops, j, id)
    ensures NeverOverCap(digest, ns, ops) ==> i == j
  {
    if i < j {
      ExactlyOnce(digest, ns, ops, i, j, id);
    } else if j < i {
      ExactlyOnce(digest, ns, ops, j, i, id);
    }
  }

  /** A pending note survives every operation under its id; only a sweep that selects it removes it,
      and only its own delivery ends its pending state. */
  lemma PendingLeavesOnlyBySweep(digest: Digest, ns: seq<Note>, op: Op, n: Note)
    requires Ok(ns) && n in ns && !n.delivered
    ensures var r := Step(digest, ns, op);
            if op.Sweep? && Evictable(n, op.task, op.agent) then !Present(r, n.id)
            else if op.Deliver? && op.id == n.id then Consumed(n, op.receipt) in r
            else if op.Put? && Mint(digest, op.draft) == n.id then Refreshed(n, op.draft) in r
            else n in r
  {
    var j :| 0 <= j < |ns| && ns[j] == n;
    match op
    case Put(d) =>
      var i := FirstIndex(ns, Mint(digest, d));
      if i == |ns| {
        AppendOk(digest, ns, d);
        PruneOk(ns + [NewNote(digest, ns, d)]);
        assert n in ns + [NewNote(digest, ns, d)];
      } else if !ns[i].delivered {
        assert ns[i := Refreshed(ns[i], d)][j] == if i == j then Refreshed(n, d) else n;
      }
    case Deliver(x, r) =>
      var i := FirstIndex(ns, x);
      if i < |ns| && !ns[i].delivered {
        assert ns[i := Consumed(ns[i], r)][j] == if i == j then Consumed(n, r) else n;
      }
    case Sweep(task, agent) =>
      EvictMembers(ns, task, agent, n);
      if Evictable(n, task, agent) {
        forall m | m in Evict(ns, task, agent) ensures m.id != n.id {
          EvictMembers(ns, task, agent, m);
          if m.id == n.id {
            UniqueAt(ns, m, n);
          }
        }
      }
  }

  /** The note carries what the draft says a reader should see now. */
  ghost predicate Current(n: Note, d: Draft)
  {
    !n.delivered && n.draft.body == d.body && n.draft.observation == d.observation && n.draft.severity == d.severity
    && n.draft.turn == d.turn && n.draft.ladder == d.ladder
  }

  /** An enqueue leaves its note in the list: pending with the newest text, or delivered already. */
  lemma EnqueueHolds(digest: Digest, ns: seq<Note>, d: Draft)
    requires Ok(ns)
    ensures var r, id := Enqueue(digest, ns, d), Mint(digest, d);
            if DeliveredIn(ns, id) then r == ns else exists n :: n in r && n.id == id && Current(n, d)
  {
    var i, id := FirstIndex(ns, Mint(digest, d)), Mint(digest, d);
    if i == |ns| {
      var n := NewNote(digest, ns, d);
      AppendOk(digest, ns, d);
      PruneOk(ns + [n]);
      assert n in ns + [n];
      assert n.id == id && Current(n, d);
    } else if ns[i].delivered {
      assert ns[i] in ns;
    } else {
      var n := Refreshed(ns[i], d);
      assert ns[i := n][i] == n;
      assert n.id == id && Current(n, d);
      forall m | m in ns && m.id == id ensures !m.delivered {
        UniqueAt(ns, m, ns[i]);
      }
    }
  }

  /** The turn a signal was last rendered is the largest delivery turn of its notes. */
  lemma {:induction false} LastRenderedIsLargest(ns: seq<Note>, kind: string, task: string)
    ensures var t := LastRenderedTurn(ns, kind, task);
            && t >= -1
            && (forall n <- ns :: SignalFor(n, kind, task) && n.delivered ==> n.deliveredTurn <= t)
            && (t > -1 ==> exists n :: n in ns && SignalFor(n, kind, task) && n.delivered && n.deliveredTurn == t)
  {
    if ns != [] {
      var front, last := ns[..|ns| - 1], ns[|ns| - 1];
      assert ns == front + [last];
      LastRenderedIsLargest(front, kind, task);
      assert last in ns;
      var t := LastRenderedTurn(front, kind, task);
      if t > -1 {
        var n :| n in front && SignalFor(n, kind, task) && n.delivered && n.deliveredTurn == t;
        assert n in ns;
      }
    }
  }
}
