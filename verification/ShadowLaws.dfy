/** Laws of the two-log report: exact accounting, symmetry, and what counts as a silence. */
module ShadowLaws {
  import opened SignalLog
  import opened ShadowDiff

  function Tally(es: seq<Entry>, p: Entry -> bool): (r: nat)
  {
    if es == [] then 0 else Tally(es[..|es| - 1], p) + if p(es[|es| - 1]) then 1 else 0
  }

  function Is(present: Presence): (p: Entry -> bool)
  {
    (e: Entry) => e.present == present
  }

  // ----- nothing is lost

  lemma {:induction false} KeysTally(ks: seq<Key>, es: seq<Entry>, p: Entry -> bool, chosen: set<Key>)
    requires Ascending(ks) && |es| == |ks|
    requires forall i :: 0 <= i < |ks| ==> (p(es[i]) <==> ks[i] in chosen)
    requires forall k <- chosen :: k in ks
    ensures Tally(es, p) == |chosen|
    decreases |ks|
  {
    if ks == [] {
      assert chosen == {};
    } else {
      var n := |ks| - 1;
      var k := ks[n];
      forall i | 0 <= i < n ensures ks[i] != k {
        BeforeTotal(ks[i], k);
      }
      assert ks == ks[..n] + [k];
      KeysTally(ks[..n], es[..n], p, chosen - {k});
    }
  }

  function KeysOf(legacy: seq<Signal>, recent: seq<Signal>, present: Presence): (r: set<Key>)
  {
    match present
    case Both => Index(legacy).Keys * Index(recent).Keys
    case LegacyOnly => Index(legacy).Keys - Index(recent).Keys
    case NewOnly => Index(recent).Keys - Index(legacy).Keys
  }

  lemma EntryPresence(k: Key, legacy: seq<Signal>, recent: seq<Signal>, present: Presence)
    requires k in Index(legacy) || k in Index(recent)
    ensures Is(present)(EntryFor(k, legacy, recent)) <==> k in KeysOf(legacy, recent, present)
  {
  }

  lemma PresenceTally(legacy: seq<Signal>, recent: seq<Signal>, present: Presence)
    ensures Tally(Report(legacy, recent), Is(present)) == |KeysOf(legacy, recent, present)|
  {
    var ks, r, p, chosen := AllKeys(legacy, recent), Report(legacy, recent), Is(present),
        KeysOf(legacy, recent, present);
    AllKeysSpec(legacy, recent);
    forall i | 0 <= i < |ks| ensures p(r[i]) <==> ks[i] in chosen {
      EntryPresence(ks[i], legacy, recent, present);
    }
    KeysTally(ks, r, p, chosen);
  }

  lemma Split(a: set<Key>, b: set<Key>)
    ensures |a| == |a * b| + |a - b| && |b| == |a * b| + |b - a|
  {
    assert a == a * b + (a - b) && b == a * b + (b - a);
  }

  lemma IndexSize(log: seq<Signal>)
    ensures |Index(log).Keys| == |log|
  {
    var any := Key("", "", 0);
    OccurrencesExact(log, any);
    assert |Index(log).Keys| == |Index(log)|;
  }

  /** Every signal of either log is behind exactly one entry. */
  lemma NothingLost(legacy: seq<Signal>, recent: seq<Signal>)
    ensures var r := Report(legacy, recent);
            && |legacy| == Tally(r, Is(Both)) + Tally(r, Is(LegacyOnly))
            && |recent| == Tally(r, Is(Both)) + Tally(r, Is(NewOnly))
  {
    PresenceTally(legacy, recent, Both);
    PresenceTally(legacy, recent, LegacyOnly);
    PresenceTally(legacy, recent, NewOnly);
    Split(Index(legacy).Keys, Index(recent).Keys);
    IndexSize(legacy);
    IndexSize(recent);
  }

  type Pair = (string, string)

  function Shared(legacy: seq<Signal>, recent: seq<Signal>, p: Pair): (r: nat)
  {
    var a, b := Count(legacy, p.0, p.1), Count(recent, p.0, p.1);
    if a < b then a else b
  }

  ghost function SharedOver(legacy: seq<Signal>, recent: seq<Signal>, pairs: set<Pair>): (r: nat)
  {
    if pairs == {} then 0
    else
      var p :| p in pairs;
      Shared(legacy, recent, p) + SharedOver(legacy, recent, pairs - {p})
  }

  function FirstKeys(p: Pair, n: nat): (r: set<Key>)
  {
    if n == 0 then {} else FirstKeys(p, n - 1) + {Key(p.0, p.1, n - 1)}
  }

  lemma {:induction false} FirstKeysSpec(p: Pair, n: nat)
    ensures |FirstKeys(p, n)| == n
    ensures forall k :: k in FirstKeys(p, n) <==> k.kind == p.0 && k.task == p.1 && k.occurrence < n
  {
    if n > 0 {
      FirstKeysSpec(p, n - 1);
      var k := Key(p.0, p.1, n - 1);
      assert k !in FirstKeys(p, n - 1);
      forall x ensures x in FirstKeys(p, n) <==> x.kind == p.0 && x.task == p.1 && x.occurrence < n {
        assert x in FirstKeys(p, n) <==> x in FirstKeys(p, n - 1) || x == k;
      }
    }
  }

  ghost predicate TwoSided(legacy: seq<Signal>, recent: seq<Signal>, k: Key)
  {
    k in Index(legacy) && k in Index(recent)
  }

  lemma TwoSidedIff(legacy: seq<Signal>, recent: seq<Signal>, k: Key)
    ensures TwoSided(legacy, recent, k) <==> k.occurrence < Shared(legacy, recent, (k.kind, k.task))
  {
    OccurrencesExact(legacy, k);
    OccurrencesExact(recent, k);
  }

  lemma {:induction false} SharedKeys(legacy: seq<Signal>, recent: seq<Signal>, pairs: set<Pair>, keys: set<Key>)
    requires forall k :: k in keys <==> (k.kind, k.task) in pairs && TwoSided(legacy, recent, k)
    ensures |keys| == SharedOver(legacy, recent, pairs)
    decreases |pairs|
  {
    if pairs == {} {
      assert keys == {};
    } else {
      var p :| p in pairs && SharedOver(legacy, recent, pairs) == Shared(legacy, recent, p) +
          SharedOver(legacy, recent, pairs - {p});
      var mine := FirstKeys(p, Shared(legacy, recent, p));
      FirstKeysSpec(p, Shared(legacy, recent, p));
      forall k ensures k in mine <==> k in keys && (k.kind, k.task) == p {
        TwoSidedIff(legacy, recent, k);
      }
      SharedKeys(legacy, recent, pairs - {p}, keys - mine);
      assert keys == mine + (keys - mine);
    }
  }

  function PairsOf(log: seq<Signal>): (r: set<Pair>)
  {
    set s | s in log :: (s.kind, s.task)
  }

  /** The two-sided keys number the sum, over the kind and task pairs, of the smaller of the counts. */
  lemma TwoSidedTotal(legacy: seq<Signal>, recent: seq<Signal>)
    ensures Tally(Report(legacy, recent), Is(Both)) == SharedOver(legacy, recent, PairsOf(legacy))
  {
    PresenceTally(legacy, recent, Both);
    var keys := Index(legacy).Keys * Index(recent).Keys;
    forall k ensures k in keys <==> (k.kind, k.task) in PairsOf(legacy) && TwoSided(legacy, recent, k) {
      if k in keys {
        OccurrencesExact(legacy, k);
        CountWitness(legacy, k.kind, k.task);
      }
    }
    SharedKeys(legacy, recent, PairsOf(legacy), keys);
  }

  // ----- verdicts

  predicate Agrees(e: Entry)
  {
    e.present == Both && e.decisions == []
  }

  lemma {:induction false} VerdictTally(es: seq<Entry>)
    requires forall e <- es :: (Diverged(e) <==> !e.unjoinable && !Agrees(e)) && !(e.unjoinable && Agrees(e))
    ensures |es| == Tally(es, Diverged) + Tally(es, (e: Entry) => e.unjoinable) + Tally(es, Agrees)
  {
    if es != [] {
      assert es[|es| - 1] in es;
      VerdictTally(es[..|es| - 1]);
    }
  }

  /** Diverged, un-joinable and agreeing entries partition the report. */
  lemma VerdictsPartition(legacy: seq<Signal>, recent: seq<Signal>)
    ensures var r := Report(legacy, recent);
            |r| == Tally(r, Diverged) + Tally(r, (e: Entry) => e.unjoinable) + Tally(r, Agrees)
  {
    VerdictTally(Report(legacy, recent));
  }

  lemma EntryAt(legacy: seq<Signal>, recent: seq<Signal>, e: Entry)
    requires e in Report(legacy, recent)
    ensures (e.key in Index(legacy) || e.key in Index(recent)) && e == EntryFor(e.key, legacy, recent)
  {
    var i :| 0 <= i < |Report(legacy, recent)| && Report(legacy, recent)[i] == e;
  }

  lemma {:induction false} DifferingSelf(fields: seq<string>, a: View)
    ensures Differing(fields, a, a) == []
  {
    if fields != [] {
      DifferingSelf(fields[..|fields| - 1], a);
    }
  }

  /** Comparing a log with itself shows no difference of any sort. */
  lemma SelfDiff(log: seq<Signal>, e: Entry)
    requires e in Report(log, log)
    ensures e.present == Both && !Diverged(e) && e.decisions == [] && e.transport == [] && e.legacy == e.recent
  {
    EntryAt(log, log, e);
    var v := DecisionView(Index(log)[e.key]);
    DifferingSelf(DECISION_FIELDS, v);
    DifferingSelf(TRANSPORT_FIELDS, v);
  }

  // ----- symmetry

  function Mirror(e: Entry): (r: Entry)
  {
    e.(present := match e.present case Both => Both case LegacyOnly => NewOnly case NewOnly => LegacyOnly,
       legacy := e.recent, recent := e.legacy)
  }

  lemma {:induction false} DifferingSymmetric(fields: seq<string>, a: View, b: View)
    ensures Differing(fields, a, b) == Differing(fields, b, a)
  {
    if fields != [] {
      DifferingSymmetric(fields[..|fields| - 1], a, b);
    }
  }

  lemma EntryMirrors(k: Key, legacy: seq<Signal>, recent: seq<Signal>)
    requires k in Index(legacy) || k in Index(recent)
    ensures EntryFor(k, recent, legacy) == Mirror(EntryFor(k, legacy, recent))
  {
    if k in Index(legacy) && k in Index(recent) {
      var l, n := DecisionView(Index(legacy)[k]), DecisionView(Index(recent)[k]);
      DifferingSymmetric(DECISION_FIELDS, l, n);
      DifferingSymmetric(TRANSPORT_FIELDS, l, n);
    }
  }

  /** Swapping the logs gives the mirrored report, entry by entry. */
  lemma SwapMirrors(legacy: seq<Signal>, recent: seq<Signal>)
    ensures var r, m := Report(legacy, recent), Report(recent, legacy);
            |m| == |r| && forall i :: 0 <= i < |r| ==> m[i] == Mirror(r[i])
  {
    AllKeysSpec(legacy, recent);
    AllKeysSpec(recent, legacy);
    AscendingUnique(AllKeys(legacy, recent), AllKeys(recent, legacy));
    var r, m, ks := Report(legacy, recent), Report(recent, legacy), AllKeys(legacy, recent);
    forall i | 0 <= i < |r| ensures m[i] == Mirror(r[i]) {
      EntryMirrors(ks[i], legacy, recent);
    }
  }

  /** The report does not depend on the order in which the logs were read. */
  lemma ReportOrderFree(legacy: seq<Signal>, recent: seq<Signal>, legacyToo: seq<Signal>, recentToo: seq<Signal>)
    requires multiset(legacy) == multiset(legacyToo) && OrderDetermines(legacy)
    requires multiset(recent) == multiset(recentToo) && OrderDetermines(recent)
    ensures Report(legacy, recent) == Report(legacyToo, recentToo)
  {
    IndexOrderFree(legacy, legacyToo);
    IndexOrderFree(recent, recentToo);
    AllKeysSpec(legacy, recent);
    AllKeysSpec(legacyToo, recentToo);
    AscendingUnique(AllKeys(legacy, recent), AllKeys(legacyToo, recentToo));
    forall kind ensures Tasks(legacy, kind) == Tasks(legacyToo, kind) && Tasks(recent, kind) == Tasks(recentToo, kind) {
      TasksOfBag(legacy, legacyToo, kind);
      TasksOfBag(recent, recentToo, kind);
    }
    var r, s, ks := Report(legacy, recent), Report(legacyToo, recentToo), AllKeys(legacy, recent);
    forall i | 0 <= i < |r| ensures r[i] == s[i] {
      assert Tasks(legacy, ks[i].kind) == Tasks(legacyToo, ks[i].kind);
    }
  }

  lemma TasksOfBag(a: seq<Signal>, b: seq<Signal>, kind: string)
    requires multiset(a) == multiset(b)
    ensures Tasks(a, kind) == Tasks(b, kind)
  {
    forall s ensures s in a <==> s in b {
      assert s in multiset(a) <==> s in multiset(b);
    }
  }

  // ----- silences

  /** A one-sided legacy entry counts as a silence of the other log exactly when that log never fired
      the kind, or fired the same kind on the same task fewer times. */
  lemma SilenceIff(legacy: seq<Signal>, recent: seq<Signal>, e: Entry)
    requires e in Report(legacy, recent) && e.present == LegacyOnly
    ensures Diverged(e) <==>
            || (forall s <- recent :: s.kind != e.key.kind)
            || 1 <= Count(recent, e.key.kind, e.key.task) <= e.key.occurrence
  {
    EntryAt(legacy, recent, e);
    var k := e.key;
    OccurrencesExact(recent, k);
    CountWitness(recent, k.kind, k.task);
    if k.task in Tasks(recent, k.kind) {
      var s :| s in recent && s.kind == k.kind && s.task == k.task;
      CountBounds(recent, s);
    }
    if exists s :: s in recent && s.kind == k.kind {
      var s :| s in recent && s.kind == k.kind;
      assert s.task in Tasks(recent, k.kind);
    }
  }

  lemma EntryListed(k: Key, legacy: seq<Signal>, recent: seq<Signal>)
    requires k in Index(legacy) || k in Index(recent)
    ensures EntryFor(k, legacy, recent) in Report(legacy, recent)
  {
    AllKeysSpec(legacy, recent);
    var ks := AllKeys(legacy, recent);
    var i :| 0 <= i < |ks| && ks[i] == k;
    assert Report(legacy, recent)[i] in Report(legacy, recent);
  }

  /** The namespaces need not be disjoint for an entry to be set aside: a task the other log left
      silent is un-joinable as soon as the kind fired there on any other task, even a shared one. */
  lemma OverlapSetAside(legacy: seq<Signal>, recent: seq<Signal>, shared: Signal, silent: Signal)
    requires shared in legacy && shared in recent && silent in legacy && shared.kind == silent.kind
    requires forall s <- recent :: s.kind == silent.kind ==> s.task != silent.task
    ensures Tasks(legacy, silent.kind) * Tasks(recent, silent.kind) != {}
    ensures exists e ::
              e in Report(legacy, recent) && e.key == Key(silent.kind, silent.task, 0) && e.unjoinable && !Diverged(e)
  {
    var k := Key(silent.kind, silent.task, 0);
    assert shared.task in Tasks(legacy, silent.kind) * Tasks(recent, silent.kind);
    OccurrencesExact(legacy, k);
    OccurrencesExact(recent, k);
    CountBounds(legacy, silent);
    CountWitness(recent, silent.kind, silent.task);
    EntryListed(k, legacy, recent);
  }

  // ----- field divergences

  /** A two-sided entry diverges exactly when the two signals differ on a decision field; a
      difference in transport alone never counts. */
  lemma DivergesIff(legacy: seq<Signal>, recent: seq<Signal>, e: Entry)
    requires e in Report(legacy, recent) && e.present == Both
    ensures e.key in Index(legacy) && e.key in Index(recent)
    ensures Diverged(e) <==>
            exists f :: f in DECISION_FIELDS && Shown(Index(legacy)[e.key], f) != Shown(Index(recent)[e.key], f)
  {
    EntryAt(legacy, recent, e);
    var a, b := Index(legacy)[e.key], Index(recent)[e.key];
    DifferingIff(a, b, DECISION_FIELDS);
  }

  lemma DifferingIff(a: Signal, b: Signal, fields: seq<string>)
    requires forall f <- fields :: f in DECISION_FIELDS + TRANSPORT_FIELDS
    ensures Differing(fields, DecisionView(a), DecisionView(b)) != [] <==>
            exists f :: f in fields && Shown(a, f) != Shown(b, f)
  {
    var d := Differing(fields, DecisionView(a), DecisionView(b));
    forall f | f in fields ensures Field(DecisionView(a), f) == Shown(a, f) &&
        Field(DecisionView(b), f) == Shown(b, f) {
    }
    if d != [] {
      assert d[0] in d;
    }
  }
}
