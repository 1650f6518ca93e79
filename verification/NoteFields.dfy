/** What the queue does, field by field: who may see a note, what identifies it, what a refresh and a
    pruning leave, and what the pacing reads count. */
module NoteFields {
  import opened Text
  import opened NoteQueue
  import opened NoteRuns

  // ----- agents

  lemma {:induction false} LastSegment(p: string, s: string)
    requires ':' !in s
    ensures AfterLastColon(p + [':'] + s) == s && AfterLastColon(s) == s
    decreases |s|
  {
    var t := p + [':'] + s;
    if s != "" {
      var front := s[..|s| - 1];
      assert s == front + [s[|s| - 1]] && s[|s| - 1] in s;
      assert t[..|t| - 1] == p + [':'] + front;
      LastSegment(p, front);
    }
  }

  /** A name without outer white space. */
  predicate Trimmed(s: string)
  {
    s == "" || (!IsSpace(s[0]) && !IsSpace(s[|s| - 1]))
  }

  lemma TrimmedStays(s: string)
    requires Trimmed(s)
    ensures Trim(s) == s
  {
  }

  /** A qualified name and its last segment name the same agent, whatever the namespace and the case. */
  lemma QualifiedAgent(p: string, s: string)
    requires ':' !in s && Trimmed(s) && Trimmed(p + [':'] + s)
    ensures BareAgent(p + [':'] + s) == BareAgent(s) == Lowered(s)
  {
    TrimmedStays(s);
    TrimmedStays(p + [':'] + s);
    LastSegment(p, s);
  }

  // ----- who may see a note

  /** The drift id marks the note as a correction. */
  predicate CorrectionNote(n: Note)
  {
    |n.draft.driftId| >= 11 && n.draft.driftId[..11] == "correction:"
  }

  lemma CorrectionIff(n: Note)
    ensures IsCorrection(n) <==> CorrectionNote(n)
  {
    assert |CORRECTION_PREFIX| == 11;
  }

  /** A surface for everyone sees the notes scoped to no agent; one that names its agent sees those and
      its own; one that names none sees all. Delivered notes are never seen again, and neither are
      other kinds or corrections that the surface leaves out. */
  lemma EligibleIff(f: Filter, n: Note)
    ensures Eligible(f, n) <==>
            && !n.delivered
            && (f.kinds.None? || n.draft.kind in f.kinds.value)
            && (f.excludeCorrections ==> !CorrectionNote(n))
            && (|| BareAgent(n.draft.agent) == ""
                || (!f.broadcastOnly && (f.agent == "" || BareAgent(n.draft.agent) == BareAgent(f.agent))))
  {
    CorrectionIff(n);
  }

  // ----- identity

  /** A drift with an id has one note, however often it fires. */
  lemma SameDriftSameNote(digest: Digest, d: Draft, e: Draft)
    requires Trim(d.driftId) != "" && Trim(d.driftId) == Trim(e.driftId)
    ensures Mint(digest, d) == Mint(digest, e) == Trim(d.driftId)
  {
  }

  /** Without an id, notes are one exactly when their digests of kind, task, turn and body are. */
  lemma AnonymousIdentity(digest: Digest, d: Draft, e: Draft)
    requires Trim(d.driftId) == Trim(e.driftId) == ""
    ensures Mint(digest, d) == Mint(digest, e) <==>
            digest(d.kind, d.task, d.turn, d.body) == digest(e.kind, e.task, e.turn, e.body)
  {
    assert Mint(digest, d)[2..] == digest(d.kind, d.task, d.turn, d.body);
    assert Mint(digest, e)[2..] == digest(e.kind, e.task, e.turn, e.body);
  }

  // ----- what an enqueue leaves

  /** The pending note of an enqueue: the newest text, severity, turn and level; when it was there
      before, its identity, scope and place are as they were, and when it is new they are the draft's. */
  lemma EnqueuedFields(digest: Digest, ns: seq<Note>, d: Draft, n: Note)
    requires Ok(ns) && n in Enqueue(digest, ns, d) && n.id == Mint(digest, d) && !n.delivered
    ensures n.draft.body == d.body && n.draft.observation == d.observation && n.draft.severity == d.severity
    ensures n.draft.turn == d.turn && n.draft.ladder == d.ladder
    ensures forall m <- ns :: m.id == n.id ==>
              m.order == n.order && n.draft == m.draft.(body := d.body, observation := d.observation,
                severity := d.severity, turn := d.turn, ladder := d.ladder)
    ensures (forall m <- ns :: m.id != n.id) ==> n.draft == d && forall m <- ns :: m.order < n.order
    ensures (forall m <- ns :: m.id != n.id) ==>
              if ns == [] then n.order == 1 else exists m :: m in ns && n.order == m.order + 1
  {
    var i := FirstIndex(ns, Mint(digest, d));
    if i == |ns| {
      var x := NewNote(digest, ns, d);
      AppendOk(digest, ns, d);
      PruneOk(ns + [x]);
      assert n in ns + [x];
      forall m | m in ns ensures m.id != n.id {
        var k :| 0 <= k < |ns| && ns[k] == m;
      }
      assert n == x;
    } else {
      forall m | m in ns && m.id == n.id ensures m == ns[i] {
        UniqueAt(ns, m, ns[i]);
      }
      if !ns[i].delivered {
        var u := ns[i := Refreshed(ns[i], d)];
        var k :| 0 <= k < |u| && u[k] == n;
        assert k == i;
      }
    }
  }

  // ----- pruning

  function DeliveredCount(ns: seq<Note>): (r: nat)
  {
    if ns == [] then 0 else (if ns[0].delivered then 1 else 0) + DeliveredCount(ns[1..])
  }

  /** A note that stays while `k` go from the front: it is pending, or `k` delivered ones precede it. */
  lemma {:induction false} DroppedFromFront(ns: seq<Note>, k: nat, i: nat)
    requires UniqueNotes(ns) && i < |ns|
    ensures ns[i] in DropDelivered(ns, k) <==> !ns[i].delivered || DeliveredCount(ns[..i]) >= k
    decreases |ns|
  {
    if k > 0 {
      var rest, l := ns[1..], if ns[0].delivered then k - 1 else k;
      assert UniqueNotes(rest);
      DropMembers(rest, l);
      if i > 0 {
        assert rest[i - 1] == ns[i] && ns[..i][1..] == rest[..i - 1] && ns[..i][0] == ns[0];
        DroppedFromFront(rest, l, i - 1);
        assert ns[i] != ns[0];
      } else {
        assert ns[0] !in rest;
      }
    } else {
      assert ns[i] in ns;
    }
  }

  /** Over the cap of 256 the delivered notes at the front of the list go, one for each note too many;
      everything else stays. */
  lemma PrunedExactly(ns: seq<Note>, i: nat)
    requires UniqueNotes(ns) && i < |ns|
    ensures ns[i] in Prune(ns) <==> !ns[i].delivered || |ns| - 256 <= DeliveredCount(ns[..i])
  {
    if |ns| > NOTES_CAP {
      DroppedFromFront(ns, |ns| - NOTES_CAP, i);
    } else {
      assert ns[i] in ns;
    }
  }

  // ----- sweeps

  /** A sweep for a task takes its pending correction notes, those of one agent when it names one. */
  lemma SweptIff(ns: seq<Note>, task: string, agent: string, n: Note)
    requires n in ns
    ensures n !in Evict(ns, task, agent) <==>
            && !n.delivered && CorrectionNote(n) && task != "" && n.draft.task == task
            && (agent == "" || BareAgent(n.draft.agent) == BareAgent(agent))
  {
    EvictMembers(ns, task, agent, n);
    CorrectionIff(n);
  }

  lemma {:induction false} SweptIds(ns: seq<Note>, task: string, agent: string)
    ensures forall id :: id in EvictedIds(ns, task, agent) <==>
              exists n :: n in ns && n.id == id && n !in Evict(ns, task, agent)
    decreases |ns|
  {
    forall id ensures id in EvictedIds(ns, task, agent) <==>
        exists n :: n in ns && n.id == id && Evictable(n, task, agent)
    {
      SweptId(ns, task, agent, id);
    }
    forall n | n in ns ensures n !in Evict(ns, task, agent) <==> Evictable(n, task, agent) {
      EvictMembers(ns, task, agent, n);
    }
  }

  lemma {:induction false} SweptId(ns: seq<Note>, task: string, agent: string, id: string)
    ensures id in EvictedIds(ns, task, agent) <==> exists n :: n in ns && n.id == id && Evictable(n, task, agent)
    decreases |ns|
  {
    if ns != [] {
      SweptId(ns[1..], task, agent, id);
      assert ns == [ns[0]] + ns[1..];
    }
  }

  // ----- pacing reads

  /** A drift signal of the kind and task, corrections excluded. */
  predicate Signals(n: Note, kind: string, task: string)
  {
    n.draft.kind == kind && n.draft.task == task && !CorrectionNote(n)
  }

  lemma SignalsIff(n: Note, kind: string, task: string)
    ensures SignalFor(n, kind, task) <==> Signals(n, kind, task)
  {
    CorrectionIff(n);
  }

  ghost function SignalsOf(ns: seq<Note>, kind: string, task: string): (r: set<int>)
  {
    set n | n in ns && Signals(n, kind, task) :: n.order
  }

  /** The escalation counter is the number of signal notes in the list, delivered or not. */
  lemma {:induction false} SignalsCounted(ns: seq<Note>, kind: string, task: string)
    requires Ordered(ns)
    ensures SignalCount(ns, kind, task) == |SignalsOf(ns, kind, task)|
  {
    if ns != [] {
      var front, last := ns[..|ns| - 1], ns[|ns| - 1];
      assert ns == front + [last];
      SignalsCounted(front, kind, task);
      SignalsIff(last, kind, task);
      forall n | n in front ensures n.order < last.order {
        var i :| 0 <= i < |front| && front[i] == n;
        assert ns[i] == n;
      }
      var a, b := SignalsOf(front, kind, task), SignalsOf(ns, kind, task);
      if Signals(last, kind, task) {
        assert b == a + {last.order} && last.order !in a;
      } else {
        assert b == a;
      }
    }
  }

  /** The grace anchor is the largest delivery turn of the delivered signals of the pair. */
  lemma GraceAnchor(ns: seq<Note>, kind: string, task: string, n: Note)
    requires n in ns && n.delivered && Signals(n, kind, task)
    ensures n.deliveredTurn <= LastRenderedTurn(ns, kind, task)
  {
    LastRenderedIsLargest(ns, kind, task);
    SignalsIff(n, kind, task);
  }

  /** A pair counts as shown exactly when a signal of it was delivered to the agent, not just consumed. */
  lemma ShownPairs(ns: seq<Note>, kind: string, task: string)
    ensures (kind, task) in RenderedKeys(ns) <==>
            exists n :: n in ns && Signals(n, kind, task) && n.delivered && !n.dryRun
  {
    if (kind, task) in RenderedKeys(ns) {
      var n :| n in ns && n.delivered && !n.dryRun && !IsCorrection(n) && (n.draft.kind, n.draft.task) == (kind, task);
      CorrectionIff(n);
    }
    if n :| n in ns && Signals(n, kind, task) && n.delivered && !n.dryRun {
      CorrectionIff(n);
    }
  }

  /** A delivery stamps the note with its channel, surface, turn and dry flag, and touches nothing else. */
  lemma DeliveredFields(ns: seq<Note>, id: string, r: Receipt, i: nat)
    requires Ok(ns) && i < |ns| && ns[i].id == id && !ns[i].delivered
    ensures Mark(ns, id, r) == ns[i := Note(id, ns[i].draft, ns[i].order, true, r.channel, r.surface, r.turn, r.dryRun)]
  {
  }
}
