/** Aligning two shadow logs and reporting where their decisions differ. */
module ShadowDiff {
  import opened Options
  import opened SignalLog

  // ----- the order of keys: lexicographic on kind, task, occurrence

  predicate Below(a: string, b: string)
  {
    if b == [] then false
    else if a == [] then true
    else if a[0] != b[0] then a[0] < b[0]
    else Below(a[1..], b[1..])
  }

  lemma {:induction false} BelowTotal(a: string, b: string)
    ensures Below(a, b) || a == b || Below(b, a)
    ensures !(Below(a, b) && Below(b, a))
    ensures a == b ==> !Below(a, b)
    decreases |a|
  {
    if a != [] && b != [] {
      BelowTotal(a[1..], b[1..]);
      assert a == [a[0]] + a[1..] && b == [b[0]] + b[1..];
    }
  }

  lemma {:induction false} BelowTransitive(a: string, b: string, c: string)
    requires Below(a, b) && Below(b, c)
    ensures Below(a, c)
    decreases |a|
  {
    if a != [] && a[0] == b[0] == c[0] {
      BelowTransitive(a[1..], b[1..], c[1..]);
    }
  }

  predicate Before(a: Key, b: Key)
  {
    if a.kind != b.kind then Below(a.kind, b.kind)
    else if a.task != b.task then Below(a.task, b.task)
    else a.occurrence < b.occurrence
  }

  lemma BeforeTotal(a: Key, b: Key)
    ensures Before(a, b) || a == b || Before(b, a)
    ensures !(Before(a, b) && Before(b, a))
    ensures a == b ==> !Before(a, b)
  {
    BelowTotal(a.kind, b.kind);
    BelowTotal(a.task, b.task);
  }

  lemma BeforeTransitive(a: Key, b: Key, c: Key)
    requires Before(a, b) && Before(b, c)
    ensures Before(a, c)
  {
    BelowTotal(a.kind, b.kind);
    BelowTotal(a.task, b.task);
    if Below(a.kind, b.kind) && Below(b.kind, c.kind) {
      BelowTransitive(a.kind, b.kind, c.kind);
      BelowTotal(a.kind, c.kind);
    } else if Below(a.task, b.task) && Below(b.task, c.task) {
      BelowTransitive(a.task, b.task, c.task);
      BelowTotal(a.task, c.task);
    }
  }

  // ----- sorted key lists

  ghost predicate Ascending(ks: seq<Key>)
  {
    forall i, j :: 0 <= i < j < |ks| ==> Before(ks[i], ks[j])
  }

  function Enter(ks: seq<Key>, k: Key): (r: seq<Key>)
  {
    if ks == [] then [k]
    else if ks[0] == k then ks
    else if Before(k, ks[0]) then [k] + ks
    else [ks[0]] + Enter(ks[1..], k)
  }

  lemma {:induction false} EnterHolds(ks: seq<Key>, k: Key, x: Key)
    ensures x in Enter(ks, k) <==> x in ks || x == k
  {
    if ks != [] {
      EnterHolds(ks[1..], k, x);
    }
  }

  lemma {:induction false} EnterAscends(ks: seq<Key>, k: Key)
    requires Ascending(ks)
    ensures Ascending(Enter(ks, k))
  {
    if ks != [] && ks[0] != k {
      BeforeTotal(k, ks[0]);
      if Before(k, ks[0]) {
        forall j | 1 <= j < |ks| ensures Before(k, ks[j]) {
          BeforeTransitive(k, ks[0], ks[j]);
        }
      } else {
        var r := Enter(ks[1..], k);
        EnterAscends(ks[1..], k);
        forall j | 0 <= j < |r| ensures Before(ks[0], r[j]) {
          EnterHolds(ks[1..], k, r[j]);
        }
      }
    }
  }

  function EnterAll(ks: seq<Key>, keyed: seq<(Key, Signal)>): (r: seq<Key>)
  {
    if keyed == [] then ks else Enter(EnterAll(ks, keyed[..|keyed| - 1]), keyed[|keyed| - 1].0)
  }

  lemma {:induction false} EnterAllSpec(ks: seq<Key>, keyed: seq<(Key, Signal)>)
    requires Ascending(ks)
    ensures Ascending(EnterAll(ks, keyed))
    ensures forall x :: x in EnterAll(ks, keyed) <==> x in ks || x in Dict(keyed)
  {
    if keyed != [] {
      var front, k := keyed[..|keyed| - 1], keyed[|keyed| - 1].0;
      EnterAllSpec(ks, front);
      EnterAscends(EnterAll(ks, front), k);
      forall x ensures x in EnterAll(ks, keyed) <==> x in ks || x in Dict(keyed) {
        EnterHolds(EnterAll(ks, front), k, x);
      }
    }
  }

  /** The sorted union of the keys of both logs. */
  function AllKeys(legacy: seq<Signal>, recent: seq<Signal>): (r: seq<Key>)
  {
    EnterAll(EnterAll([], Keyed(Sorted(legacy))), Keyed(Sorted(recent)))
  }

  lemma AllKeysSpec(legacy: seq<Signal>, recent: seq<Signal>)
    ensures Ascending(AllKeys(legacy, recent))
    ensures forall k :: k in AllKeys(legacy, recent) <==> k in Index(legacy) || k in Index(recent)
  {
    EnterAllSpec([], Keyed(Sorted(legacy)));
    EnterAllSpec(EnterAll([], Keyed(Sorted(legacy))), Keyed(Sorted(recent)));
  }

  /** Ascending lists are determined by their elements. */
  lemma {:induction false} AscendingUnique(a: seq<Key>, b: seq<Key>)
    requires Ascending(a) && Ascending(b) && forall x :: x in a <==> x in b
    ensures a == b
    decreases |a|
  {
    assert b != [] ==> b[0] in b;
    if a != [] {
      assert a[0] in a;
      HeadsAgree(a, b);
      forall x ensures x in a[1..] <==> x in b[1..] {
        TailHolds(a, x);
        TailHolds(b, x);
      }
      AscendingUnique(a[1..], b[1..]);
      assert a == [a[0]] + a[1..] && b == [b[0]] + b[1..];
    }
  }

  lemma TailHolds(a: seq<Key>, x: Key)
    requires Ascending(a) && a != []
    ensures x in a[1..] <==> x in a && x != a[0]
  {
    if x in a[1..] {
      var i :| 0 <= i < |a[1..]| && a[1..][i] == x;
      BeforeTotal(a[0], a[i + 1]);
    }
    assert a == [a[0]] + a[1..];
  }

  lemma HeadsAgree(a: seq<Key>, b: seq<Key>)
    requires Ascending(a) && Ascending(b) && a != [] && b != [] && a[0] in b && b[0] in a
    ensures a[0] == b[0]
  {
    var i :| 0 <= i < |b| && b[i] == a[0];
    var j :| 0 <= j < |a| && a[j] == b[0];
    BeforeTotal(a[0], b[0]);
  }

  // ----- comparable projections

  type View = map<string, Option<string>>

  const DECISION_FIELDS := [
    "ladder_level", "would_cancel_inflight", "promotion", "superseded_task_ids", "replacement_task_ids", "dry_run"]

  const TRANSPORT_FIELDS := ["channel", "channel_action"]

  function Recorded(s: Signal, field: string): (r: Option<string>)
  {
    if field in s.decision then s.decision[field] else None
  }

  function Shown(s: Signal, field: string): (r: Option<string>)
  {
    if field == "channel" then Some(s.channel)
    else if field == "dry_run" then Some(if s.dryRun then "true" else "false")
    else if field == "ladder_level" then
      if s.ladder != "" then Some(s.ladder) else if field in s.decision then s.decision[field] else Some("")
    else Recorded(s, field)
  }

  function DecisionView(s: Signal): (r: View)
  {
    map f | f in DECISION_FIELDS + TRANSPORT_FIELDS :: Shown(s, f)
  }

  function Field(v: View, f: string): (r: Option<string>)
  {
    if f in v then v[f] else None
  }

  /** The fields, in order, on which two views differ. */
  function Differing(fields: seq<string>, a: View, b: View): (r: seq<string>)
    ensures forall f :: f in r <==> f in fields && Field(a, f) != Field(b, f)
  {
    if fields == [] then []
    else
      var front, f := Differing(fields[..|fields| - 1], a, b), fields[|fields| - 1];
      assert fields == fields[..|fields| - 1] + [f];
      if Field(a, f) != Field(b, f) then front + [f] else front
  }

  // ----- the report

  datatype Presence = Both | LegacyOnly | NewOnly

  datatype Entry = Entry(key: Key, present: Presence, legacy: Option<View>, recent: Option<View>,
      decisions: seq<string>, transport: seq<string>, unjoinable: bool)

  predicate Diverged(e: Entry)
  {
    !e.unjoinable && (e.present != Both || e.decisions != [])
  }

  /** The tasks on which a log fired a kind. */
  function Tasks(log: seq<Signal>, kind: string): (r: set<string>)
  {
    set s | s in log && s.kind == kind :: s.task
  }

  function Artifact(k: Key, others: set<string>): (r: bool)
  {
    others != {} && k.task !in others
  }

  function Compare(k: Key, legacy: map<Key, Signal>, recent: map<Key, Signal>, legacyTasks: set<string>,
      recentTasks: set<string>): (r: Entry)
    requires k in legacy || k in recent
  {
    if k in legacy && k in recent then
      var l, n := DecisionView(legacy[k]), DecisionView(recent[k]);
      Entry(k, Both, Some(l), Some(n), Differing(DECISION_FIELDS, l, n), Differing(TRANSPORT_FIELDS, l, n), false)
    else if k in legacy then
      Entry(k, LegacyOnly, Some(DecisionView(legacy[k])), None, [], [], Artifact(k, recentTasks))
    else
      Entry(k, NewOnly, None, Some(DecisionView(recent[k])), [], [], Artifact(k, legacyTasks))
  }

  function EntryFor(k: Key, legacy: seq<Signal>, recent: seq<Signal>): (r: Entry)
    requires k in Index(legacy) || k in Index(recent)
  {
    Compare(k, Index(legacy), Index(recent), Tasks(legacy, k.kind), Tasks(recent, k.kind))
  }

  function Report(legacy: seq<Signal>, recent: seq<Signal>): (r: seq<Entry>)
    ensures |r| == |AllKeys(legacy, recent)|
    ensures forall i :: 0 <= i < |r| ==>
              && (AllKeys(legacy, recent)[i] in Index(legacy) || AllKeys(legacy, recent)[i] in Index(recent))
              && r[i] == EntryFor(AllKeys(legacy, recent)[i], legacy, recent)
  {
    AllKeysSpec(legacy, recent);
    var ks := AllKeys(legacy, recent);
    assert forall i :: 0 <= i < |ks| ==> ks[i] in ks;
    seq(|ks|, i requires 0 <= i < |ks| => EntryFor(ks[i], legacy, recent))
  }

  // ----- the loops

  method ToDict(keyed: seq<(Key, Signal)>) returns (index: map<Key, Signal>)
    ensures index == Dict(keyed)
  {
    index := map[];
    for i := 0 to |keyed|
      invariant index == Dict(keyed[..i])
    {
      assert keyed[..i + 1][..i] == keyed[..i];
      index := index[keyed[i].0 := keyed[i].1];
    }
    assert keyed[..|keyed|] == keyed;
  }

  method SortedUnion(a: seq<(Key, Signal)>, b: seq<(Key, Signal)>) returns (keys: seq<Key>)
    ensures keys == EnterAll(EnterAll([], a), b)
  {
    keys := [];
    for i := 0 to |a|
      invariant keys == EnterAll([], a[..i])
    {
      assert a[..i + 1][..i] == a[..i];
      keys := Enter(keys, a[i].0);
    }
    assert a[..|a|] == a;
    for i := 0 to |b|
      invariant keys == EnterAll(EnterAll([], a), b[..i])
    {
      assert b[..i + 1][..i] == b[..i];
      keys := Enter(keys, b[i].0);
    }
    assert b[..|b|] == b;
  }

  function NamespaceOf(tids: map<string, set<string>>, kind: string): (r: set<string>)
  {
    if kind in tids then tids[kind] else {}
  }

  method Namespaces(log: seq<Signal>) returns (tids: map<string, set<string>>)
    ensures forall kind :: NamespaceOf(tids, kind) == Tasks(log, kind)
  {
    tids := map[];
    for i := 0 to |log|
      invariant forall kind :: NamespaceOf(tids, kind) == Tasks(log[..i], kind)
    {
      var s := log[i];
      assert log[..i + 1] == log[..i] + [s];
      var next := tids[s.kind := NamespaceOf(tids, s.kind) + {s.task}];
      forall kind ensures NamespaceOf(next, kind) == Tasks(log[..i + 1], kind) {
        assert NamespaceOf(tids, kind) == Tasks(log[..i], kind);
        assert Tasks(log[..i + 1], kind) == Tasks(log[..i], kind) + if kind == s.kind then {s.task} else {} by {
          assert s in log[..i + 1];
        }
      }
      tids := next;
    }
    assert log[..|log|] == log;
  }

  method CompareAll(keys: seq<Key>, legacy: map<Key, Signal>, recent: map<Key, Signal>,
                    legacyTasks: map<string, set<string>>, recentTasks: map<string, set<string>>)
    returns (entries: seq<Entry>)
    requires forall i :: 0 <= i < |keys| ==> keys[i] in legacy || keys[i] in recent
    ensures |entries| == |keys|
    ensures forall i :: 0 <= i < |keys| ==>
              entries[i] == Compare(keys[i], legacy, recent, NamespaceOf(legacyTasks, keys[i].kind),
                  NamespaceOf(recentTasks, keys[i].kind))
  {
    entries := [];
    for n := 0 to |keys|
      invariant |entries| == n
      invariant forall i :: 0 <= i < n ==>
                  entries[i] == Compare(keys[i], legacy, recent, NamespaceOf(legacyTasks, keys[i].kind),
                      NamespaceOf(recentTasks, keys[i].kind))
    {
      var k := keys[n];
      entries := entries + [Compare(k, legacy, recent, NamespaceOf(legacyTasks, k.kind),
          NamespaceOf(recentTasks, k.kind))];
    }
  }

  method DiffTwoLogs(legacy: seq<Signal>, recent: seq<Signal>) returns (entries: seq<Entry>)
    ensures entries == Report(legacy, recent)
  {
    var legacyKeyed := AssignOccurrences(legacy);
    var recentKeyed := AssignOccurrences(recent);
    var legacyIndex := ToDict(legacyKeyed);
    var recentIndex := ToDict(recentKeyed);
    var keys := SortedUnion(legacyKeyed, recentKeyed);
    var legacyTasks := Namespaces(legacy);
    var recentTasks := Namespaces(recent);
    AllKeysSpec(legacy, recent);
    forall i | 0 <= i < |keys| ensures keys[i] in legacyIndex || keys[i] in recentIndex {
      assert keys[i] in keys;
    }
    entries := CompareAll(keys, legacyIndex, recentIndex, legacyTasks, recentTasks);
    ghost var report := Report(legacy, recent);
    forall i | 0 <= i < |keys| ensures entries[i] == report[i] {
      assert report[i] == EntryFor(keys[i], legacy, recent);
    }
  }
}
