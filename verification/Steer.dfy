/** The user-steer path: the planner's revision when it validates, a deterministic minimum otherwise. */
module Steer {
  import opened Options
  import opened Text
  import opened Graph
  import opened Rewire
  import opened Plans
  import opened Revisions

  function Rolled(t: Task, reason: string): (r: Task)
  {
    if Terminal(t.status) then t else t.(status := Cancelled, cancelReason := reason)
  }

  function RolledTasks(ts: seq<Task>, reason: string): (r: seq<Task>)
    ensures |r| == |ts|
    ensures forall i :: 0 <= i < |ts| ==> r[i] == Rolled(ts[i], reason)
  {
    seq(|ts|, i requires 0 <= i < |ts| => Rolled(ts[i], reason))
  }

  function OpenIds(ts: seq<Task>): (r: set<string>)
  {
    set t | t in ts && !Terminal(t.status) :: t.id
  }

  function EdgesOutside(es: seq<Edge>, ids: set<string>): (r: seq<Edge>)
    ensures forall e :: e in r <==> e in es && e.src !in ids && e.dst !in ids
  {
    if es == [] then []
    else if es[0].src in ids || es[0].dst in ids then EdgesOutside(es[1..], ids)
    else [es[0]] + EdgesOutside(es[1..], ids)
  }

  /** Terminal tasks verbatim, everything open cancelled, edges touching a cancelled task dropped. */
  function Minimal(prior: Plan, reason: string): (r: Plan)
  {
    Plan(prior.id, RolledTasks(prior.tasks, reason), EdgesOutside(prior.edges, OpenIds(prior.tasks)), 0,
        Stamp("", "", "", ""))
  }

  /** The plan the user-steer path selects. */
  ghost function Chosen(prior: Plan, llm: Option<Plan>, reason: string): (r: Plan)
  {
    if llm.Some? && ValidRevision(Fold(llm.value, Some(prior)), Some(prior))
    then Fold(llm.value, Some(prior))
    else Minimal(prior, reason)
  }

  /** Same task ids, assignees and statuses in order, and the same set of edges. */
  ghost predicate StructurallySame(prior: Plan, p: Plan)
  {
    && |prior.tasks| == |p.tasks|
    && (forall i :: 0 <= i < |p.tasks| ==>
          && prior.tasks[i].id == p.tasks[i].id
          && prior.tasks[i].assignee == p.tasks[i].assignee
          && prior.tasks[i].status == p.tasks[i].status)
    && SetOf(prior.edges) == SetOf(p.edges)
  }

  // ----- the minimum as a revision

  /** Every supersedes link of the plan names another task of the plan, without mutual links. */
  ghost predicate LinksSound(p: Plan)
  {
    forall x <- p.tasks :: SoundLink(x, p, p)
  }

  lemma {:induction false} SameIdLookup(a: seq<Task>, b: seq<Task>, id: string) returns (i: nat)
    requires |a| == |b| && forall j :: 0 <= j < |a| ==> a[j].id == b[j].id
    ensures Lookup(a, id).Some? <==> Lookup(b, id).Some?
    ensures Lookup(a, id).Some? ==> i < |a| && Lookup(a, id) == Some(a[i]) && Lookup(b, id) == Some(b[i])
    decreases |a|
  {
    i := 0;
    if a != [] && id != "" {
      if a[|a| - 1].id == id {
        i := |a| - 1;
      } else {
        i := SameIdLookup(a[..|a| - 1], b[..|b| - 1], id);
      }
    }
  }

  lemma MinimalStructural(prior: Plan, reason: string)
    requires Structural(prior)
    ensures Structural(Minimal(prior, reason))
    ensures Executable(Minimal(prior, reason))
  {
    var m := Minimal(prior, reason);
    SameIds(m.tasks, prior.tasks);
    SubgraphAcyclic(SetOf(m.edges), SetOf(prior.edges));
    forall t | t in m.tasks ensures t.id != "" && !t.status.Pending? {
      var i :| 0 <= i < |m.tasks| && m.tasks[i] == t;
      assert prior.tasks[i] in prior.tasks;
    }
  }

  lemma RolledLookup(ts: seq<Task>, reason: string, t: Task)
    requires NamedTasks(ts) && UniqueIds(ts) && t in ts
    ensures Lookup(RolledTasks(ts, reason), t.id) == Some(Rolled(t, reason))
  {
    UniqueLookup(ts, t);
    var i := SameIdLookup(ts, RolledTasks(ts, reason), t.id);
  }

  lemma MinimalKeepsTerminals(prior: Plan, reason: string)
    requires Structural(prior)
    ensures KeepsTerminals(Minimal(prior, reason), prior)
  {
    var m := Minimal(prior, reason);
    forall t | t in prior.tasks && Terminal(t.status)
      ensures Lookup(m.tasks, t.id).Some? && Lookup(m.tasks, t.id).value.status == t.status
    {
      RolledLookup(prior.tasks, reason, t);
    }
    forall e | e in prior.edges && TerminalIn(prior.tasks, e.src) && TerminalIn(prior.tasks, e.dst)
      ensures e in m.edges
    {
      forall x | TerminalIn(prior.tasks, x) ensures x !in OpenIds(prior.tasks) {
        TerminalNotOpen(prior.tasks, x);
      }
    }
  }

  lemma TerminalNotOpen(ts: seq<Task>, x: string)
    requires UniqueIds(ts) && TerminalIn(ts, x)
    ensures x !in OpenIds(ts)
  {
  }

  lemma MinimalLinks(prior: Plan, reason: string, i: nat)
    requires Structural(prior) && i < |prior.tasks|
    ensures var m := Minimal(prior, reason);
            && RoutedLink(m.tasks[i], m, prior)
            && (SoundLink(m.tasks[i], m, prior) <==> SoundLink(prior.tasks[i], prior, prior))
  {
    var m := Minimal(prior, reason);
    var j := SameIdLookup(prior.tasks, m.tasks, Trim(m.tasks[i].supersedes));
  }

  /** The deterministic minimum is a valid revision of a well-formed prior plan exactly when the
      prior plan's supersedes links are sound; the validator's dangling-reference rule rejects it
      otherwise. */
  lemma MinimalValidIff(prior: Plan, reason: string)
    requires Structural(prior)
    ensures ValidRevision(Minimal(prior, reason), Some(prior)) <==> LinksSound(prior)
  {
    var m := Minimal(prior, reason);
    MinimalStructural(prior, reason);
    MinimalKeepsTerminals(prior, reason);
    forall i | 0 <= i < |prior.tasks|
      ensures RoutedLink(m.tasks[i], m, prior)
      ensures SoundLink(m.tasks[i], m, prior) <==> SoundLink(prior.tasks[i], prior, prior)
    {
      MinimalLinks(prior, reason, i);
    }
    if LinksSound(prior) {
      forall x | x in m.tasks ensures SoundLink(x, m, prior) && RoutedLink(x, m, prior) {
        var i :| 0 <= i < |m.tasks| && m.tasks[i] == x;
        assert prior.tasks[i] in prior.tasks;
      }
    }
    if ValidRevision(m, Some(prior)) {
      forall x | x in prior.tasks ensures SoundLink(x, prior, prior) {
        var i :| 0 <= i < |prior.tasks| && prior.tasks[i] == x;
        assert m.tasks[i] in m.tasks;
      }
    }
  }

  /** The minimum leaves no open task, keeps exactly the edges among terminal tasks, and rolling it
      over again changes nothing. */
  lemma MinimalIsSettled(prior: Plan, reason: string, again: string)
    requires Structural(prior)
    ensures var m := Minimal(prior, reason);
            && (forall t <- m.tasks :: Terminal(t.status))
            && (forall e :: e in m.edges <==>
                  e in prior.edges && TerminalIn(prior.tasks, e.src) && TerminalIn(prior.tasks, e.dst))
            && Minimal(m, again) == m
            && (StructurallySame(prior, m) <==> forall t <- prior.tasks :: Terminal(t.status))
  {
    var m := Minimal(prior, reason);
    forall e | e in prior.edges ensures e in m.edges <==>
        TerminalIn(prior.tasks, e.src) && TerminalIn(prior.tasks, e.dst) {
      EndpointOpenOrTerminal(prior.tasks, e.src);
      EndpointOpenOrTerminal(prior.tasks, e.dst);
    }
    assert OpenIds(m.tasks) == {};
    NothingOpen(m.edges);
    assert Minimal(m, again).tasks == m.tasks;
    if forall t <- prior.tasks :: Terminal(t.status) {
      assert OpenIds(prior.tasks) == {};
      NothingOpen(prior.edges);
    }
    if StructurallySame(prior, m) {
      forall t | t in prior.tasks ensures Terminal(t.status) {
        var i :| 0 <= i < |prior.tasks| && prior.tasks[i] == t;
        assert m.tasks[i] in m.tasks;
      }
    }
  }

  lemma EndpointOpenOrTerminal(ts: seq<Task>, x: string)
    requires UniqueIds(ts) && x in Ids(ts)
    ensures x in OpenIds(ts) <==> !TerminalIn(ts, x)
  {
    if TerminalIn(ts, x) {
      TerminalNotOpen(ts, x);
    }
  }

  lemma {:induction false} NothingOpen(es: seq<Edge>)
    ensures EdgesOutside(es, {}) == es
  {
    if es != [] {
      NothingOpen(es[1..]);
    }
  }

  /** Whatever the planner returned, the plan the steer path selects is a valid revision exactly
      when the planner's own revision validates or the prior plan's links are sound. */
  lemma SteerValidIff(prior: Plan, llm: Option<Plan>, reason: string)
    requires Structural(prior)
    ensures ValidRevision(Chosen(prior, llm, reason), Some(prior)) <==>
            || (llm.Some? && ValidRevision(Fold(llm.value, Some(prior)), Some(prior)))
            || LinksSound(prior)
  {
    MinimalValidIff(prior, reason);
  }

  /** The plan the steer path selects keeps the terminal history, valid or not. Rewiring may still
      drop edges of it at the install. */
  lemma SteerKeepsTerminals(prior: Plan, llm: Option<Plan>, reason: string)
    requires Structural(prior)
    ensures KeepsTerminals(Chosen(prior, llm, reason), prior) && Structural(Chosen(prior, llm, reason))
  {
    MinimalKeepsTerminals(prior, reason);
    MinimalStructural(prior, reason);
  }

  // ----- a reachable plan on which the minimum is rejected

  function Open(id: string, supersedes: string): (r: Task)
  {
    Task(id, id, "", Pending, "", supersedes, Replace, false, "", Forecast, "")
  }

  function Single(t: Task): (r: Plan)
  {
    Plan("p", [t], [], 1, Stamp("", "", "", ""))
  }

  lemma NoEdgesAcyclic()
    ensures Acyclic({})
  {
    assert forall a, p :: p != [] ==> !Walk({}, a, p, a);
  }

  /** Replacing an open task and dropping it validates, yet the plan this installs has no valid
      minimum: its link now names a task in neither plan. */
  lemma ReplacedTaskBlocksMinimum(reason: string)
    ensures var first, second := Single(Open("y", "")), Single(Open("x", "y"));
            && ValidRevision(second, Some(first))
            && Structural(second)
            && !ValidRevision(Minimal(second, reason), Some(second))
  {
    var first, second := Single(Open("y", "")), Single(Open("x", "y"));
    NoEdgesAcyclic();
    assert SetOf([]) == {};
    assert Trim("y") == "y";
    assert second.tasks == [Open("x", "y")];
    assert Lookup(second.tasks, "y") == None by {
      assert second.tasks[..0] == [];
    }
    assert Lookup(first.tasks, "y") == Some(Open("y", ""));
    assert Structural(second);
    assert !SoundLink(second.tasks[0], second, second);
    MinimalValidIff(second, reason);
  }
}
