/** One shadow log: stable order by sequence, and occurrence keys. */
module SignalLog {
  import opened Options

  /** One delivered signal; decision values are kept as canonical text, a null as None. */
  datatype Signal = Signal(order: int, kind: string, task: string, channel: string, dryRun: bool, ladder: string,
      decision: map<string, Option<string>>)

  datatype Key = Key(kind: string, task: string, occurrence: nat)

  // ----- stable sorting by sequence number

  function Place(sorted: seq<Signal>, s: Signal): (r: seq<Signal>)
  {
    if sorted == [] || sorted[|sorted| - 1].order <= s.order then sorted + [s]
    else Place(sorted[..|sorted| - 1], s) + [sorted[|sorted| - 1]]
  }

  function Sorted(log: seq<Signal>): (r: seq<Signal>)
  {
    if log == [] then [] else Place(Sorted(log[..|log| - 1]), log[|log| - 1])
  }

  ghost predicate Ordered(log: seq<Signal>)
  {
    forall i, j :: 0 <= i < j < |log| ==> log[i].order <= log[j].order
  }

  /** The signals with one sequence number, in list order. */
  function At(log: seq<Signal>, n: int): (r: seq<Signal>)
  {
    if log == [] then []
    else At(log[..|log| - 1], n) + if log[|log| - 1].order == n then [log[|log| - 1]] else []
  }

  lemma {:induction false} PlaceBag(sorted: seq<Signal>, s: Signal)
    ensures multiset(Place(sorted, s)) == multiset(sorted) + multiset{s}
  {
    if sorted != [] && sorted[|sorted| - 1].order > s.order {
      PlaceBag(sorted[..|sorted| - 1], s);
      assert sorted == sorted[..|sorted| - 1] + [sorted[|sorted| - 1]];
    }
  }

  lemma {:induction false} PlaceOrders(sorted: seq<Signal>, s: Signal)
    requires Ordered(sorted)
    ensures Ordered(Place(sorted, s))
  {
    if sorted != [] && sorted[|sorted| - 1].order > s.order {
      var front, last := sorted[..|sorted| - 1], sorted[|sorted| - 1];
      PlaceOrders(front, s);
      PlaceBag(front, s);
      forall i | 0 <= i < |Place(front, s)| ensures Place(front, s)[i].order <= last.order {
        assert Place(front, s)[i] in multiset(Place(front, s));
      }
    }
  }

  lemma {:induction false} PlaceStable(sorted: seq<Signal>, s: Signal, n: int)
    requires Ordered(sorted)
    ensures At(Place(sorted, s), n) == At(sorted, n) + if s.order == n then [s] else []
  {
    if sorted != [] && sorted[|sorted| - 1].order > s.order {
      var front, last := sorted[..|sorted| - 1], sorted[|sorted| - 1];
      PlaceStable(front, s, n);
      var r := Place(sorted, s);
      assert r[..|r| - 1] == Place(front, s);
    } else {
      assert (sorted + [s])[..|sorted|] == sorted;
    }
  }

  /** Sorting is by sequence number, loses and invents nothing, and keeps list order among equals. */
  lemma {:induction false} SortedIsStable(log: seq<Signal>)
    ensures Ordered(Sorted(log)) && multiset(Sorted(log)) == multiset(log)
    ensures forall n :: At(Sorted(log), n) == At(log, n)
  {
    if log != [] {
      var front, last := log[..|log| - 1], log[|log| - 1];
      SortedIsStable(front);
      PlaceOrders(Sorted(front), last);
      PlaceBag(Sorted(front), last);
      assert log == front + [last];
      forall n ensures At(Sorted(log), n) == At(log, n) {
        PlaceStable(Sorted(front), last, n);
      }
    }
  }

  // ----- occurrence keys

  function Count(log: seq<Signal>, kind: string, task: string): (r: nat)
  {
    if log == [] then 0
    else Count(log[..|log| - 1], kind, task) + if log[|log| - 1].kind == kind && log[|log| - 1].task == task then 1
        else 0
  }

  function Keyed(log: seq<Signal>): (r: seq<(Key, Signal)>)
    ensures |r| == |log|
    ensures forall i :: 0 <= i < |log| ==> r[i].1 == log[i] && r[i].0.kind == log[i].kind && r[i].0.task == log[i].task
  {
    if log == [] then []
    else
      var front, s := log[..|log| - 1], log[|log| - 1];
      Keyed(front) + [(Key(s.kind, s.task, Count(front, s.kind, s.task)), s)]
  }

  method AssignOccurrences(log: seq<Signal>) returns (keyed: seq<(Key, Signal)>)
    ensures keyed == Keyed(Sorted(log))
  {
    var sorted := Sorted(log);
    var counters: map<(string, string), nat> := map[];
    keyed := [];
    for i := 0 to |sorted|
      invariant keyed == Keyed(sorted[..i])
      invariant forall k, t :: Count(sorted[..i], k, t) == if (k, t) in counters then counters[(k, t)] else 0
    {
      var s := sorted[i];
      var seen := if (s.kind, s.task) in counters then counters[(s.kind, s.task)] else 0;
      assert sorted[..i + 1][..i] == sorted[..i];
      counters := counters[(s.kind, s.task) := seen + 1];
      keyed := keyed + [(Key(s.kind, s.task, seen), s)];
    }
    assert sorted[..|sorted|] == sorted;
  }

  function Dict(keyed: seq<(Key, Signal)>): (r: map<Key, Signal>)
  {
    if keyed == [] then map[] else Dict(keyed[..|keyed| - 1])[keyed[|keyed| - 1].0 := keyed[|keyed| - 1].1]
  }

  /** The dictionary of a log. */
  function Index(log: seq<Signal>): (r: map<Key, Signal>)
  {
    Dict(Keyed(Sorted(log)))
  }

  lemma DictSnoc(log: seq<Signal>)
    requires log != []
    ensures var front, s := log[..|log| - 1], log[|log| - 1];
            Dict(Keyed(log)) == Dict(Keyed(front))[Key(s.kind, s.task, Count(front, s.kind, s.task)) := s]
  {
    var keyed := Keyed(log);
    assert keyed[..|keyed| - 1] == Keyed(log[..|log| - 1]);
  }

  lemma {:induction false} DictKeys(log: seq<Signal>, k: Key)
    ensures k in Dict(Keyed(log)) <==> k.occurrence < Count(log, k.kind, k.task)
  {
    if log != [] {
      var front, s := log[..|log| - 1], log[|log| - 1];
      var j, d := Key(s.kind, s.task, Count(front, s.kind, s.task)), Dict(Keyed(front));
      DictSnoc(log);
      DictKeys(front, k);
      assert k in Dict(Keyed(log)) <==> k in d || k == j;
    } else {
      assert Keyed(log) == [];
    }
  }

  lemma {:induction false} DictSize(log: seq<Signal>)
    ensures |Dict(Keyed(log))| == |log|
  {
    if log != [] {
      var front, keyed := log[..|log| - 1], Keyed(log);
      assert keyed[..|keyed| - 1] == Keyed(front);
      DictSize(front);
      DictKeys(front, keyed[|log| - 1].0);
      var d := Dict(Keyed(front));
      assert (d[keyed[|log| - 1].0 := keyed[|log| - 1].1]).Keys == d.Keys + {keyed[|log| - 1].0};
    }
  }

  /** Each key leads to a signal of that kind and task with that many earlier ones of the pair. */
  lemma {:induction false} DictValue(log: seq<Signal>, i: nat)
    requires i < |log|
    ensures var k := Key(log[i].kind, log[i].task, Count(log[..i], log[i].kind, log[i].task));
            k in Dict(Keyed(log)) && Dict(Keyed(log))[k] == log[i]
  {
    var front, keyed := log[..|log| - 1], Keyed(log);
    assert keyed[..|keyed| - 1] == Keyed(front);
    if i < |front| {
      assert front[..i] == log[..i];
      DictValue(front, i);
      DictKeys(front, keyed[|log| - 1].0);
    }
  }

  lemma {:induction false} PlaceCounts(sorted: seq<Signal>, s: Signal, kind: string, task: string)
    ensures Count(Place(sorted, s), kind, task) == Count(sorted, kind, task) + if s.kind == kind && s.task == task
            then 1 else 0
  {
    if sorted != [] && sorted[|sorted| - 1].order > s.order {
      PlaceCounts(sorted[..|sorted| - 1], s, kind, task);
      var r := Place(sorted, s);
      assert r[..|r| - 1] == Place(sorted[..|sorted| - 1], s);
    } else {
      assert (sorted + [s])[..|sorted|] == sorted;
    }
  }

  lemma {:induction false} SortedCounts(log: seq<Signal>, kind: string, task: string)
    ensures Count(Sorted(log), kind, task) == Count(log, kind, task)
  {
    if log != [] {
      SortedCounts(log[..|log| - 1], kind, task);
      PlaceCounts(Sorted(log[..|log| - 1]), log[|log| - 1], kind, task);
    }
  }

  lemma {:induction false} CountBounds(log: seq<Signal>, s: Signal)
    ensures s in log ==> Count(log, s.kind, s.task) > 0
  {
    if log != [] {
      CountBounds(log[..|log| - 1], s);
    }
  }

  lemma {:induction false} CountWitness(log: seq<Signal>, kind: string, task: string)
    ensures Count(log, kind, task) > 0 ==> exists s :: s in log && s.kind == kind && s.task == task
  {
    if log != [] {
      CountWitness(log[..|log| - 1], kind, task);
      assert log[|log| - 1] in log;
    }
  }

  /** Keys are unique and contiguous from zero: a pair's keys are exactly its first Count numbers, and
      a log has as many keys as signals. */
  lemma OccurrencesExact(log: seq<Signal>, k: Key)
    ensures k in Index(log) <==> k.occurrence < Count(log, k.kind, k.task)
    ensures |Index(log)| == |log|
  {
    SortedIsStable(log);
    DictKeys(Sorted(log), k);
    DictSize(Sorted(log));
    SortedCounts(log, k.kind, k.task);
    assert |multiset(Sorted(log))| == |multiset(log)|;
  }

  // ----- the order of arrival does not matter

  /** Signals that share a sequence number are the same signal. */
  ghost predicate OrderDetermines(log: seq<Signal>)
  {
    forall x <- log, y <- log :: x.order == y.order ==> x == y
  }

  lemma LastsAgree(a: seq<Signal>, b: seq<Signal>)
    requires Ordered(a) && Ordered(b) && OrderDetermines(a)
    requires a != [] && b != [] && a[|a| - 1] in b && b[|b| - 1] in a
    ensures a[|a| - 1] == b[|b| - 1]
  {
    var i :| 0 <= i < |b| && b[i] == a[|a| - 1];
    var j :| 0 <= j < |a| && a[j] == b[|b| - 1];
    assert a[j].order <= a[|a| - 1].order && b[i].order <= b[|b| - 1].order;
  }

  ghost predicate SameBag(a: seq<Signal>, b: seq<Signal>)
  {
    multiset(a) == multiset(b)
  }

  lemma SameBagEnds(a: seq<Signal>, b: seq<Signal>)
    requires SameBag(a, b)
    ensures |a| == |b|
    ensures a != [] ==> a[|a| - 1] in b && b[|b| - 1] in a
  {
    assert |a| == |multiset(a)| == |multiset(b)| == |b|;
    if a != [] {
      assert a[|a| - 1] in multiset(b) && b[|b| - 1] in multiset(a);
    }
  }

  lemma SameBagFronts(a: seq<Signal>, b: seq<Signal>)
    requires SameBag(a, b) && a != [] && b != [] && a[|a| - 1] == b[|b| - 1]
    ensures SameBag(a[..|a| - 1], b[..|b| - 1])
  {
    assert a == a[..|a| - 1] + [a[|a| - 1]] && b == b[..|b| - 1] + [b[|b| - 1]];
    assert multiset(a[..|a| - 1]) == multiset(a) - multiset{a[|a| - 1]};
    assert multiset(b[..|b| - 1]) == multiset(b) - multiset{b[|b| - 1]};
  }

  lemma FrontDetermines(a: seq<Signal>)
    requires Ordered(a) && OrderDetermines(a) && a != []
    ensures Ordered(a[..|a| - 1]) && OrderDetermines(a[..|a| - 1])
  {
    forall x | x in a[..|a| - 1] ensures x in a {
    }
  }

  lemma {:induction false} OrderedUnique(a: seq<Signal>, b: seq<Signal>)
    requires Ordered(a) && Ordered(b) && SameBag(a, b) && OrderDetermines(a)
    ensures a == b
    decreases |a|
  {
    SameBagEnds(a, b);
    if a != [] {
      var n := |a| - 1;
      LastsAgree(a, b);
      SameBagFronts(a, b);
      FrontDetermines(a);
      OrderedUnique(a[..n], b[..n]);
      assert a == a[..n] + [a[n]] && b == b[..n] + [b[n]];
    }
  }

  /** A log whose sequence numbers tell its signals apart may arrive in any order. */
  lemma IndexOrderFree(a: seq<Signal>, b: seq<Signal>)
    requires multiset(a) == multiset(b) && OrderDetermines(a)
    ensures Index(a) == Index(b)
  {
    SortedIsStable(a);
    SortedIsStable(b);
    forall x | x in Sorted(a) ensures x in a {
      assert x in multiset(Sorted(a));
    }
    OrderedUnique(Sorted(a), Sorted(b));
  }
}
