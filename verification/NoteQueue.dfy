/** The observer-note delivery queue. */
module NoteQueue {
  import opened Options
  import opened Text

  const NOTES_CAP := 256
  const CORRECTION_PREFIX := "correction:"

  /** What a caller supplies when it enqueues a note. */
  datatype Draft = Draft(
    body: string, observation: string, severity: string, driftId: string, kind: string,
    task: string, agent: string, turn: int, ladder: string)

  datatype Note = Note(
    id: string, draft: Draft, order: int,
    delivered: bool, channel: string, surface: string, deliveredTurn: int, dryRun: bool)

  type Digest = (string, string, int, string) -> string

  /** The goldfive-minted identity: the drift id, or a content hash when there is none. */
  function Mint(digest: Digest, d: Draft): (r: string)
  {
    if Trim(d.driftId) != "" then Trim(d.driftId) else "n_" + digest(d.kind, d.task, d.turn, d.body)
  }

  function AfterLastColon(s: string): (r: string)
  {
    if s == "" || s[|s| - 1] == ':' then "" else AfterLastColon(s[..|s| - 1]) + [s[|s| - 1]]
  }

  /** The namespace-stripped, lower-cased agent name. */
  function BareAgent(name: string): (r: string)
  {
    Lowered(AfterLastColon(Trim(name)))
  }

  function SeverityRank(s: string): (r: int)
    ensures -1 <= r <= 2
  {
    var l := Lowered(s);
    if l == "info" then 0 else if l == "warning" then 1 else if l == "critical" then 2 else -1
  }

  predicate IsCorrection(n: Note)
  {
    StartsWith(n.draft.driftId, CORRECTION_PREFIX)
  }

  /** Selection filter of one delivery surface. */
  datatype Filter = Filter(kinds: Option<set<string>>, agent: string, broadcastOnly: bool, excludeCorrections: bool)

  predicate Admits(f: Filter, n: Note)
  {
    && (f.kinds.Some? ==> n.draft.kind in f.kinds.value)
    && !(f.excludeCorrections && IsCorrection(n))
    && (if f.broadcastOnly then BareAgent(n.draft.agent) == ""
        else f.agent != "" ==> BareAgent(n.draft.agent) == "" || BareAgent(n.draft.agent) == BareAgent(f.agent))
  }

  predicate Eligible(f: Filter, n: Note)
  {
    !n.delivered && Admits(f, n)
  }

  /** The rendering priority: severity, then turn, then enqueue order. */
  datatype Key = Key(rank: int, turn: int, order: int)

  function KeyOf(n: Note): (r: Key)
  {
    Key(SeverityRank(n.draft.severity), n.draft.turn, n.order)
  }

  predicate Below(a: Key, b: Key)
  {
    a.rank < b.rank || (a.rank == b.rank && (a.turn < b.turn || (a.turn == b.turn && a.order < b.order)))
  }

  // ----- the operations on the note list

  function FirstIndex(ns: seq<Note>, id: string): (r: nat)
    ensures r <= |ns|
    ensures r < |ns| ==> ns[r].id == id
    ensures forall i :: 0 <= i < r ==> ns[i].id != id
  {
    if ns == [] || ns[0].id == id then 0 else 1 + FirstIndex(ns[1..], id)
  }

  function MaxOrder(ns: seq<Note>): (r: int)
    requires ns != []
    ensures forall n <- ns :: n.order <= r
    ensures exists n :: n in ns && n.order == r
  {
    if |ns| == 1 then ns[0].order
    else
      var m := MaxOrder(ns[1..]);
      assert ns == [ns[0]] + ns[1..];
      if ns[0].order > m then ns[0].order else m
  }

  function NextOrder(ns: seq<Note>): (r: int)
  {
    if ns == [] then 1 else 1 + MaxOrder(ns)
  }

  /** A still-pending duplicate takes the latest body, observation, severity, turn and level. */
  function Refreshed(n: Note, d: Draft): (r: Note)
  {
    n.(draft := n.draft.(body := d.body, observation := d.observation, severity := d.severity, turn := d.turn,
        ladder := d.ladder))
  }

  function DropDelivered(ns: seq<Note>, k: nat): (r: seq<Note>)
  {
    if ns == [] || k == 0 then ns
    else if ns[0].delivered then DropDelivered(ns[1..], k - 1)
    else [ns[0]] + DropDelivered(ns[1..], k)
  }

  function Prune(ns: seq<Note>): (r: seq<Note>)
  {
    if |ns| <= NOTES_CAP then ns else DropDelivered(ns, |ns| - NOTES_CAP)
  }

  function NewNote(digest: Digest, ns: seq<Note>, d: Draft): (r: Note)
  {
    Note(Mint(digest, d), d, NextOrder(ns), false, "", "", -1, false)
  }

  function Enqueue(digest: Digest, ns: seq<Note>, d: Draft): (r: seq<Note>)
  {
    var i := FirstIndex(ns, Mint(digest, d));
    if i == |ns| then Prune(ns + [NewNote(digest, ns, d)])
    else if ns[i].delivered then ns
    else ns[i := Refreshed(ns[i], d)]
  }

  /** How a surface consumed a note. */
  datatype Receipt = Receipt(channel: string, surface: string, turn: int, dryRun: bool)

  function Consumed(n: Note, r: Receipt): (m: Note)
  {
    n.(delivered := true, channel := r.channel, surface := r.surface, deliveredTurn := r.turn, dryRun := r.dryRun)
  }

  predicate Marks(ns: seq<Note>, id: string)
  {
    var i := FirstIndex(ns, id);
    i < |ns| && !ns[i].delivered
  }

  function Mark(ns: seq<Note>, id: string, r: Receipt): (m: seq<Note>)
  {
    var i := FirstIndex(ns, id);
    if i < |ns| && !ns[i].delivered then ns[i := Consumed(ns[i], r)] else ns
  }

  predicate Evictable(n: Note, task: string, agent: string)
  {
    !n.delivered && IsCorrection(n) && task != "" && n.draft.task == task
    && (agent != "" ==> BareAgent(n.draft.agent) == BareAgent(agent))
  }

  function Evict(ns: seq<Note>, task: string, agent: string): (r: seq<Note>)
  {
    if ns == [] then []
    else if Evictable(ns[0], task, agent) then Evict(ns[1..], task, agent)
    else [ns[0]] + Evict(ns[1..], task, agent)
  }

  function EvictedIds(ns: seq<Note>, task: string, agent: string): (r: seq<string>)
  {
    if ns == [] then []
    else if Evictable(ns[0], task, agent) then [ns[0].id] + EvictedIds(ns[1..], task, agent)
    else EvictedIds(ns[1..], task, agent)
  }

  lemma EvictAt(ns: seq<Note>, i: nat, task: string, agent: string)
    requires i < |ns|
    ensures Evictable(ns[i], task, agent) ==>
              && Evict(ns[i..], task, agent) == Evict(ns[i + 1..], task, agent)
              && EvictedIds(ns[i..], task, agent) == [ns[i].id] + EvictedIds(ns[i + 1..], task, agent)
    ensures !Evictable(ns[i], task, agent) ==>
              && Evict(ns[i..], task, agent) == [ns[i]] + Evict(ns[i + 1..], task, agent)
              && EvictedIds(ns[i..], task, agent) == EvictedIds(ns[i + 1..], task, agent)
  {
    assert ns[i..][0] == ns[i] && ns[i..][1..] == ns[i + 1..];
  }

  /** The best eligible note of `ns`, or `best` when none beats it. */
  function Better(f: Filter, ns: seq<Note>, best: Option<Note>): (r: Option<Note>)
  {
    if ns == [] then best
    else if Eligible(f, ns[0]) && (best.None? || Below(KeyOf(best.value), KeyOf(ns[0])))
        then Better(f, ns[1..], Some(ns[0]))
    else Better(f, ns[1..], best)
  }

  function Peek(f: Filter, ns: seq<Note>): (r: Option<Note>)
  {
    Better(f, ns, None)
  }

  // ----- pacing reads

  predicate SignalFor(n: Note, kind: string, task: string)
  {
    n.draft.kind == kind && n.draft.task == task && !IsCorrection(n)
  }

  function LastRenderedTurn(ns: seq<Note>, kind: string, task: string): (r: int)
  {
    if ns == [] then -1
    else
      var rest := LastRenderedTurn(ns[..|ns| - 1], kind, task);
      var n := ns[|ns| - 1];
      if SignalFor(n, kind, task) && n.delivered && n.deliveredTurn > rest then n.deliveredTurn else rest
  }

  function SignalCount(ns: seq<Note>, kind: string, task: string): (r: nat)
  {
    if ns == [] then 0
    else SignalCount(ns[..|ns| - 1], kind, task) + if SignalFor(ns[|ns| - 1], kind, task) then 1 else 0
  }

  function RenderedKeys(ns: seq<Note>): (r: set<(string, string)>)
  {
    set n | n in ns && n.delivered && !n.dryRun && !IsCorrection(n) :: (n.draft.kind, n.draft.task)
  }

  // ----- eviction

  lemma {:induction false} EvictMembers(ns: seq<Note>, task: string, agent: string, n: Note)
    ensures n in Evict(ns, task, agent) <==> n in ns && !Evictable(n, task, agent)
  {
    if ns != [] {
      assert ns == [ns[0]] + ns[1..];
      EvictMembers(ns[1..], task, agent, n);
    }
  }

  /** Splits the notes into those that stay and the ids of those that go. */
  method Partition(ns: seq<Note>, task: string, agent: string) returns (kept: seq<Note>, evicted: seq<string>)
    ensures kept == Evict(ns, task, agent) && evicted == EvictedIds(ns, task, agent)
  {
    kept, evicted := [], [];
    for i := 0 to |ns|
      invariant evicted + EvictedIds(ns[i..], task, agent) == EvictedIds(ns, task, agent)
      invariant kept + Evict(ns[i..], task, agent) == Evict(ns, task, agent)
    {
      EvictAt(ns, i, task, agent);
      if Evictable(ns[i], task, agent) {
        evicted := evicted + [ns[i].id];
      } else {
        kept := kept + [ns[i]];
      }
    }
  }

  // ----- the stored queue

  class Queue {
    var notes: seq<Note>
    const digest: Digest

    constructor (digest: Digest)
      ensures notes == [] && this.digest == digest
    {
      this.digest := digest;
      notes := [];
    }

    method EnqueueNote(d: Draft)
      modifies this
      ensures notes == Enqueue(digest, old(notes), d)
    {
      var id := Mint(digest, d);
      var i := 0;
      while i < |notes| && notes[i].id != id
        invariant i <= FirstIndex(notes, id)
      {
        i := i + 1;
      }
      if i < |notes| {
        if !notes[i].delivered {
          notes := notes[i := Refreshed(notes[i], d)];
        }
      } else {
        notes := notes + [NewNote(digest, notes, d)];
        PruneNotes();
      }
    }

    /** Drops the oldest delivered notes until the list is back at the cap. */
    method PruneNotes()
      modifies this
      ensures notes == Prune(old(notes))
    {
      if |notes| <= NOTES_CAP {
        return;
      }
      var excess := |notes| - NOTES_CAP;
      var kept := [];
      for i := 0 to |notes|
        invariant notes == old(notes)
        invariant excess >= 0
        invariant kept + DropDelivered(notes[i..], excess) == DropDelivered(notes, |notes| - NOTES_CAP)
      {
        assert notes[i..][0] == notes[i] && notes[i..][1..] == notes[i + 1..];
        if notes[i].delivered && excess > 0 {
          excess := excess - 1;
        } else {
          kept := kept + [notes[i]];
          assert excess == 0 ==> DropDelivered(notes[i + 1..], 0) == notes[i + 1..];
        }
      }
      notes := kept;
    }

    method MarkDelivered(id: string, r: Receipt) returns (newly: bool)
      modifies this
      ensures newly <==> Marks(old(notes), id)
      ensures notes == Mark(old(notes), id, r)
    {
      newly := false;
      var i := 0;
      while i < |notes|
        invariant notes == old(notes)
        invariant i <= FirstIndex(notes, id) && i <= |notes|
      {
        if notes[i].id == id {
          if notes[i].delivered {
            return;
          }
          notes := notes[i := Consumed(notes[i], r)];
          return true;
        }
        i := i + 1;
      }
    }

    method EvictPendingCorrections(task: string, agent: string) returns (evicted: seq<string>)
      modifies this
      ensures notes == Evict(old(notes), task, agent)
      ensures evicted == EvictedIds(old(notes), task, agent)
    {
      var kept;
      kept, evicted := Partition(notes, task, agent);
      notes := kept;
    }

    /** The pending note with the highest priority that the surface may show. */
    method PeekForRender(f: Filter) returns (best: Option<Note>)
      ensures best == Peek(f, notes)
      ensures best.None? ==> forall n <- notes :: !Eligible(f, n)
      ensures best.Some? ==> best.value in notes && Eligible(f, best.value)
      ensures best.Some? ==> forall n <- notes :: Eligible(f, n) ==> !Below(KeyOf(best.value), KeyOf(n))
    {
      best := None;
      var bestKey := Key(-2, -1, -1);
      for i := 0 to |notes|
        invariant best.None? ==> bestKey == Key(-2, -1, -1)
        invariant best.Some? ==> bestKey == KeyOf(best.value)
        invariant Better(f, notes[i..], best) == Peek(f, notes)
      {
        assert notes[i..][0] == notes[i] && notes[i..][1..] == notes[i + 1..];
        if Eligible(f, notes[i]) && Below(bestKey, KeyOf(notes[i])) {
          bestKey := KeyOf(notes[i]);
          best := Some(notes[i]);
        }
      }
      BetterIsBest(f, notes, None);
    }
  }

  lemma {:induction false} BetterIsBest(f: Filter, ns: seq<Note>, best: Option<Note>)
    ensures var r := Better(f, ns, best);
            && (r == best || (r.Some? && r.value in ns && Eligible(f, r.value)))
            && (r.None? ==> best.None? && forall n <- ns :: !Eligible(f, n))
            && (r.Some? ==> forall n <- ns :: Eligible(f, n) ==> !Below(KeyOf(r.value), KeyOf(n)))
            && (r.Some? && best.Some? ==> !Below(KeyOf(r.value), KeyOf(best.value)))
    decreases |ns|
  {
    if ns != [] {
      if Eligible(f, ns[0]) && (best.None? || Below(KeyOf(best.value), KeyOf(ns[0]))) {
        BetterIsBest(f, ns[1..], Some(ns[0]));
      } else {
        BetterIsBest(f, ns[1..], best);
      }
    }
  }
}
