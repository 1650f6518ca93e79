/** Draining: repeating peek-then-mark under one filter delivers every eligible note once, in order. */
module NoteDrain {
  import opened Options
  import opened NoteQueue
  import opened NoteRuns

  function EligibleCount(f: Filter, ns: seq<Note>): (r: nat)
  {
    if ns == [] then 0 else (if Eligible(f, ns[0]) then 1 else 0) + EligibleCount(f, ns[1..])
  }

  lemma {:induction false} CountUpdate(f: Filter, ns: seq<Note>, i: nat, n: Note)
    requires i < |ns|
    ensures EligibleCount(f, ns[i := n]) ==
            EligibleCount(f, ns) - (if Eligible(f, ns[i]) then 1 else 0) + (if Eligible(f, n) then 1 else 0)
    decreases |ns|
  {
    if i == 0 {
      assert ns[i := n] == [n] + ns[1..];
    } else {
      CountUpdate(f, ns[1..], i - 1, n);
      assert ns[i := n] == [ns[0]] + ns[1..][i - 1 := n];
    }
  }

  lemma {:induction false} CountZero(f: Filter, ns: seq<Note>)
    requires forall n <- ns :: !Eligible(f, n)
    ensures EligibleCount(f, ns) == 0
  {
    if ns != [] {
      CountZero(f, ns[1..]);
    }
  }

  /** Where the peeked note sits, and what marking it does. */
  lemma PeekedAt(f: Filter, ns: seq<Note>, r: Receipt) returns (i: nat)
    requires Ok(ns) && Peek(f, ns).Some?
    ensures i < |ns| && Peek(f, ns) == Some(ns[i]) && Eligible(f, ns[i]) && Marks(ns, ns[i].id)
    ensures Mark(ns, ns[i].id, r) == ns[i := Consumed(ns[i], r)]
    ensures Ok(Mark(ns, ns[i].id, r))
    ensures EligibleCount(f, Mark(ns, ns[i].id, r)) == EligibleCount(f, ns) - 1
  {
    BetterIsBest(f, ns, None);
    var n := Peek(f, ns).value;
    i := FirstIndex(ns, n.id);
    var j :| 0 <= j < |ns| && ns[j] == n;
    assert i == j;
    UpdateOk(ns, i, Consumed(ns[i], r));
    CountUpdate(f, ns, i, Consumed(ns[i], r));
  }

  lemma PeekProgress(f: Filter, ns: seq<Note>, r: Receipt)
    requires Ok(ns) && Peek(f, ns).Some?
    ensures Ok(Mark(ns, Peek(f, ns).value.id, r))
    ensures EligibleCount(f, Mark(ns, Peek(f, ns).value.id, r)) < EligibleCount(f, ns)
  {
    var i := PeekedAt(f, ns, r);
  }

  /** The notes delivered by draining, in delivery order, and the list that remains. */
  ghost function Drain(f: Filter, ns: seq<Note>, r: Receipt): (d: (seq<Note>, seq<Note>))
    requires Ok(ns)
    decreases EligibleCount(f, ns)
  {
    if Peek(f, ns).None? then ([], ns)
    else
      PeekProgress(f, ns, r);
      var n := Peek(f, ns).value;
      var rest := Drain(f, Mark(ns, n.id, r), r);
      ([n] + rest.0, rest.1)
  }

  ghost predicate Descending(out: seq<Note>)
  {
    forall i, j :: 0 <= i < j < |out| ==> Below(KeyOf(out[j]), KeyOf(out[i]))
  }

  /** The final list: eligible notes consumed, all others untouched. */
  ghost predicate AllConsumed(f: Filter, ns: seq<Note>, r: Receipt, end: seq<Note>)
  {
    |end| == |ns| && forall i :: 0 <= i < |ns| ==> end[i] == if Eligible(f, ns[i]) then Consumed(ns[i], r) else ns[i]
  }

  lemma EligibleAfterMark(f: Filter, ns: seq<Note>, i: nat, r: Receipt, m: Note)
    requires Ok(ns) && i < |ns|
    ensures m in ns[i := Consumed(ns[i], r)] && Eligible(f, m) <==> m in ns && Eligible(f, m) && m != ns[i]
    ensures m in ns && m != ns[i] ==> m.order != ns[i].order
  {
    var u := ns[i := Consumed(ns[i], r)];
    if m in u && Eligible(f, m) {
      var j :| 0 <= j < |u| && u[j] == m;
      assert j != i && ns[j] == m;
    }
    if m in ns && m != ns[i] {
      var j :| 0 <= j < |ns| && ns[j] == m;
      assert u[j] == m;
    }
  }

  /** Draining ends after exactly the number of eligible pending notes; it delivers each of them
      once, highest priority first, delivers nothing else, and leaves every other note as it was. */
  lemma {:induction false} DrainDelivers(f: Filter, ns: seq<Note>, r: Receipt)
    requires Ok(ns)
    ensures var (out, end) := Drain(f, ns, r);
            && |out| == EligibleCount(f, ns)
            && Descending(out)
            && (forall n :: n in out <==> n in ns && Eligible(f, n))
            && AllConsumed(f, ns, r, end)
            && Peek(f, end).None?
    decreases EligibleCount(f, ns)
  {
    BetterIsBest(f, ns, None);
    if Peek(f, ns).None? {
      CountZero(f, ns);
    } else {
      var i := PeekedAt(f, ns, r);
      var n, u := ns[i], ns[i := Consumed(ns[i], r)];
      DrainDelivers(f, u, r);
      var (out, end) := Drain(f, u, r);
      forall m ensures m in out <==> m in ns && Eligible(f, m) && m != n {
        EligibleAfterMark(f, ns, i, r, m);
      }
      forall k | 0 <= k < |out| ensures Below(KeyOf(out[k]), KeyOf(n)) {
        assert out[k] in out;
        EligibleAfterMark(f, ns, i, r, out[k]);
      }
      assert Drain(f, ns, r) == ([n] + out, end);
      forall k | 0 <= k < |ns| ensures end[k] == if Eligible(f, ns[k]) then Consumed(ns[k], r) else ns[k] {
        assert end[k] == if Eligible(f, u[k]) then Consumed(u[k], r) else u[k];
      }
    }
  }

  /** A surface that names its agent never drains a note scoped to another agent. */
  lemma DrainRespectsAgents(f: Filter, ns: seq<Note>, r: Receipt, n: Note)
    requires Ok(ns) && n in Drain(f, ns, r).0
    ensures f.broadcastOnly ==> BareAgent(n.draft.agent) == ""
    ensures f.agent != "" && BareAgent(n.draft.agent) != "" ==> BareAgent(n.draft.agent) == BareAgent(f.agent)
  {
    DrainDelivers(f, ns, r);
  }
}
