/** Plans: tasks with statuses, dependency edges, and the revision validator. */
module Plans {
  import opened Options
  import opened Text
  import opened Graph
  import opened Rewire

  datatype Status = Pending | Running | Completed | Failed | Cancelled | Blocked | NotNeeded

  predicate Terminal(s: Status)
  {
    s.Completed? || s.Failed? || s.Cancelled? || s.NotNeeded?
  }

  datatype SupersessionKind = Unspecified | Replace | Correct

  datatype TaskKind = Forecast | Outcome | Discovery

  datatype Task = Task(
    id: string,
    title: string,
    assignee: string,
    status: Status,
    cancelReason: string,
    supersedes: string,
    supersedesKind: SupersessionKind,
    discovered: bool,
    identityHash: string,
    kind: TaskKind,
    contributesTo: string)

  /** Revision metadata stamped on a plan; empty strings mean "not yet stamped". */
  datatype Stamp = Stamp(kind: string, severity: string, reason: string, trigger: string)

  datatype Plan = Plan(id: string, tasks: seq<Task>, edges: seq<Edge>, revision: int, stamp: Stamp)

  function Ids(ts: seq<Task>): (r: set<string>)
  {
    set t | t in ts :: t.id
  }

  /** Dictionary lookup by non-empty id: the last task with that id wins. */
  function Lookup(ts: seq<Task>, id: string): (r: Option<Task>)
    ensures r.Some? ==> r.value in ts && r.value.id == id && id != ""
    ensures r.None? && id != "" ==> id !in Ids(ts)
  {
    if ts == [] || id == "" then None
    else if ts[|ts| - 1].id == id then Some(ts[|ts| - 1])
    else
      assert ts == ts[..|ts| - 1] + [ts[|ts| - 1]];
      Lookup(ts[..|ts| - 1], id)
  }

  ghost predicate UniqueIds(ts: seq<Task>)
  {
    forall i, j :: 0 <= i < j < |ts| ==> ts[i].id != ts[j].id
  }

  ghost predicate NamedTasks(ts: seq<Task>)
  {
    forall t <- ts :: t.id != ""
  }

  lemma UniqueLookup(ts: seq<Task>, t: Task)
    requires UniqueIds(ts) && t in ts && t.id != ""
    ensures Lookup(ts, t.id) == Some(t)
  {
    var u := Lookup(ts, t.id);
    assert t.id in Ids(ts);
  }

  // ----- the validator's numbered rules, on the revision path

  /** Rules 1 to 4: named, unique tasks; edges between known tasks; no cycle. */
  ghost predicate Structural(p: Plan)
  {
    && NamedTasks(p.tasks)
    && UniqueIds(p.tasks)
    && (forall e <- p.edges :: e.src in Ids(p.tasks) && e.dst in Ids(p.tasks))
    && Acyclic(SetOf(p.edges))
  }

  ghost predicate TerminalIn(ts: seq<Task>, id: string)
  {
    exists t :: t in ts && t.id == id && Terminal(t.status)
  }

  /** Rule 6: terminal tasks of `prior` survive with their status, and so do the edges among them. */
  ghost predicate KeepsTerminals(p: Plan, prior: Plan)
  {
    && (forall t <- prior.tasks :: Terminal(t.status) ==>
          Lookup(p.tasks, t.id).Some? && Lookup(p.tasks, t.id).value.status == t.status)
    && (forall e <- prior.edges :: TerminalIn(prior.tasks, e.src) && TerminalIn(prior.tasks, e.dst) ==> e in p.edges)
  }

  predicate NeverCompletes(s: Status)
  {
    s.Cancelled? || s.Failed? || s.NotNeeded?
  }

  /** Rule 7: no pending task behind a predecessor that will never complete. */
  ghost predicate Executable(p: Plan)
  {
    forall e <- p.edges ::
      var f, t := Lookup(p.tasks, e.src), Lookup(p.tasks, e.dst);
      f.Some? && t.Some? ==> !(NeverCompletes(f.value.status) && t.value.status.Pending?)
  }

  /** Rule 8, shape A: the superseded task waits on its corrective predecessor. */
  ghost predicate WaitsOn(x: Task, y: string, p: Plan)
  {
    && Lookup(p.tasks, y).Some?
    && Lookup(p.tasks, y).value.status.Pending?
    && Edge(x.id, y) in p.edges
  }

  /** Rule 8, shape B: every live consumer of the superseded task is re-routed. */
  ghost predicate Rerouted(x: Task, y: string, p: Plan, prior: Plan)
  {
    forall e <- prior.edges :: e.src == y ==>
      var z := Lookup(p.tasks, e.dst);
      z.Some? && !Terminal(z.value.status) ==> Edge(x.id, e.dst) in p.edges
  }

  /** Rules 8a to 8c: a supersedes link names another known task and is not mutual. */
  ghost predicate SoundLink(x: Task, p: Plan, prior: Plan)
  {
    var y := Trim(x.supersedes);
    y != "" ==>
      && y != x.id
      && (Lookup(prior.tasks, y).Some? || Lookup(p.tasks, y).Some?)
      && (Lookup(p.tasks, y).Some? ==> Trim(Lookup(p.tasks, y).value.supersedes) != x.id)
  }

  /** Rule 8d: superseding a task that was still open must route its consumers. */
  ghost predicate RoutedLink(x: Task, p: Plan, prior: Plan)
  {
    var y := Trim(x.supersedes);
    && (y != "" && Lookup(prior.tasks, y).Some? && !Terminal(Lookup(prior.tasks, y).value.status)
        && !(Lookup(p.tasks, y).Some? && Terminal(Lookup(p.tasks, y).value.status))
        ==> WaitsOn(x, y, p) || Rerouted(x, y, p, prior))
  }

  /** The validator's verdict on `p` as a revision of `prior` (no prior: structural rules only). */
  ghost predicate ValidRevision(p: Plan, prior: Option<Plan>)
  {
    && Structural(p)
    && Executable(p)
    && (prior.Some? ==>
          && KeepsTerminals(p, prior.value)
          && forall x <- p.tasks :: SoundLink(x, p, prior.value) && RoutedLink(x, p, prior.value))
  }

  // ----- corrections carried by a plan

  /** The corrections the tasks of a plan ask for, in task order. */
  function CorrectionsIn(ts: seq<Task>, known: seq<Task>): (r: seq<Correction>)
    ensures Proper(r)
  {
    if ts == [] then []
    else
      var t := ts[0];
      var was, now := Trim(t.supersedes), Trim(t.id);
      var rest := CorrectionsIn(ts[1..], known);
      if t.supersedesKind.Correct? && was != "" && now != "" && was != now && Lookup(known, was).Some?
      then [Correction(was, now)] + rest
      else rest
  }

  function CorrectionsOf(p: Plan): (r: seq<Correction>)
    ensures Proper(r)
  {
    CorrectionsIn(p.tasks, p.tasks)
  }

  /** The plan with its edges rewired for every correction it carries. */
  function Integrated(p: Plan): (r: Plan)
    ensures r.tasks == p.tasks && r.id == p.id && r.revision == p.revision && r.stamp == p.stamp
  {
    if CorrectionsOf(p) == [] then p else p.(edges := Integrate(p.edges, CorrectionsOf(p)))
  }
}
