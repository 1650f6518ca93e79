/** Repairs applied to a candidate plan before it is installed: the runtime terminal-status fold
    and the ledger identity repair. */
module Revisions {
  import opened Options
  import opened Plans

  // ----- fold of runtime terminal statuses

  function TerminalTasks(ts: seq<Task>): (r: seq<Task>)
    ensures forall t :: t in r <==> t in ts && Terminal(t.status)
  {
    if ts == [] then []
    else if Terminal(ts[0].status) then [ts[0]] + TerminalTasks(ts[1..])
    else TerminalTasks(ts[1..])
  }

  function OrElse(a: string, b: string): (r: string)
  {
    if a != "" then a else b
  }

  function FoldTask(t: Task, prior: seq<Task>): (r: Task)
  {
    var was := Lookup(TerminalTasks(prior), t.id);
    if was.Some? && !Terminal(t.status)
    then t.(status := was.value.status, cancelReason := OrElse(t.cancelReason, was.value.cancelReason))
    else t
  }

  /** A revised task that is open although the prior plan records it terminal takes the recorded
      status; a different terminal status is left for the validator. */
  function Fold(p: Plan, prior: Option<Plan>): (r: Plan)
    ensures r == p.(tasks := r.tasks)
    ensures |r.tasks| == |p.tasks|
    ensures forall i :: 0 <= i < |p.tasks| ==> r.tasks[i].id == p.tasks[i].id
  {
    if prior.None? then p
    else p.(tasks := seq(|p.tasks|, i requires 0 <= i < |p.tasks| => FoldTask(p.tasks[i], prior.value.tasks)))
  }

  // ----- ledger identity repair

  function HasLedgerShape(ts: seq<Task>): (r: bool)
    ensures r <==> exists t :: t in ts && !t.kind.Forecast?
  {
    if ts == [] then false else !ts[0].kind.Forecast? || HasLedgerShape(ts[1..])
  }

  function LedgerTask(t: Task, prior: seq<Task>): (r: Task)
  {
    var was := Lookup(prior, t.id);
    if was.Some? && !was.value.kind.Forecast? then
      t.(kind := was.value.kind,
         discovered := was.value.discovered || t.discovered,
         identityHash := OrElse(was.value.identityHash, t.identityHash),
         contributesTo := OrElse(was.value.contributesTo, t.contributesTo),
         assignee := OrElse(t.assignee, was.value.assignee))
    else if was.None? && t.kind.Forecast? then t.(kind := Outcome)
    else t
  }

  predicate ReAdded(t: Task, kept: set<string>)
  {
    t.id != "" && t.id !in kept && (t.kind.Discovery? || t.discovered) && !Terminal(t.status)
  }

  /** The open discovered tasks of the prior plan that the revision silently dropped. */
  function Dropped(prior: seq<Task>, kept: set<string>): (r: seq<Task>)
    ensures forall t :: t in r <==> t in prior && ReAdded(t, kept)
  {
    if prior == [] then []
    else if ReAdded(prior[0], kept) then [prior[0]] + Dropped(prior[1..], kept)
    else Dropped(prior[1..], kept)
  }

  function LedgerTasks(ts: seq<Task>, prior: seq<Task>): (r: seq<Task>)
    ensures |r| == |ts|
    ensures forall i :: 0 <= i < |ts| ==> r[i] == LedgerTask(ts[i], prior)
  {
    seq(|ts|, i requires 0 <= i < |ts| => LedgerTask(ts[i], prior))
  }

  /** In ledger mode, against a ledger-shaped prior: kinds and discovery identity are restored by
      id, new tasks become outcomes, and dropped open discovered tasks return without edges. */
  function LedgerRepair(ledger: bool, p: Plan, prior: Option<Plan>): (r: Plan)
    ensures r == p.(tasks := r.tasks)
    ensures |r.tasks| >= |p.tasks|
    ensures forall i :: 0 <= i < |p.tasks| ==> r.tasks[i].id == p.tasks[i].id && r.tasks[i].status == p.tasks[i].status
  {
    if ledger && prior.Some? && HasLedgerShape(prior.value.tasks) then
      p.(tasks := LedgerTasks(p.tasks, prior.value.tasks) + Dropped(prior.value.tasks, Ids(p.tasks)))
    else p
  }

  // ----- laws

  lemma FoldTaskIdempotent(t: Task, prior: seq<Task>)
    ensures FoldTask(FoldTask(t, prior), prior) == FoldTask(t, prior)
  {
  }

  lemma FoldIdempotent(p: Plan, prior: Option<Plan>)
    ensures Fold(Fold(p, prior), prior) == Fold(p, prior)
  {
    if prior.Some? {
      var once, twice := Fold(p, prior), Fold(Fold(p, prior), prior);
      forall i | 0 <= i < |p.tasks| ensures twice.tasks[i] == once.tasks[i] {
        FoldTaskIdempotent(p.tasks[i], prior.value.tasks);
      }
      assert twice.tasks == once.tasks;
    }
  }

  /** Same ids in the same order: everything keyed by id alone agrees. */
  lemma SameIds(a: seq<Task>, b: seq<Task>)
    requires |a| == |b| && forall i :: 0 <= i < |a| ==> a[i].id == b[i].id
    ensures Ids(a) == Ids(b)
  {
    forall x ensures x in Ids(a) <==> x in Ids(b) {
      if x in Ids(a) {
        var i :| 0 <= i < |a| && a[i].id == x;
        assert b[i] in b;
      }
      if x in Ids(b) {
        var i :| 0 <= i < |b| && b[i].id == x;
        assert a[i] in a;
      }
    }
  }

  lemma OrElseAbsorbs(a: string, b: string)
    ensures OrElse(a, OrElse(a, b)) == OrElse(a, b) && OrElse(OrElse(a, b), b) == OrElse(a, b)
  {
  }

  lemma LedgerTaskIdempotent(t: Task, prior: seq<Task>)
    ensures LedgerTask(LedgerTask(t, prior), prior) == LedgerTask(t, prior)
  {
    var was := Lookup(prior, t.id);
    if was.Some? {
      OrElseAbsorbs(was.value.identityHash, t.identityHash);
      OrElseAbsorbs(was.value.contributesTo, t.contributesTo);
      OrElseAbsorbs(t.assignee, was.value.assignee);
    }
  }

  lemma IdsConcat(a: seq<Task>, b: seq<Task>)
    ensures Ids(a + b) == Ids(a) + Ids(b)
  {
  }

  lemma DroppedNone(prior: seq<Task>, kept: set<string>)
    requires forall t <- prior :: ReAdded(t, {}) ==> t.id in kept
    ensures Dropped(prior, kept) == []
  {
    assert forall t :: t !in Dropped(prior, kept);
  }

  lemma LedgerTaskOnPrior(t: Task, prior: seq<Task>)
    requires UniqueIds(prior) && t in prior && t.id != ""
    ensures LedgerTask(t, prior) == t
  {
    UniqueLookup(prior, t);
  }

  lemma RepairDropsNothing(p: seq<Task>, prior: seq<Task>)
    ensures Dropped(prior, Ids(LedgerTasks(p, prior) + Dropped(prior, Ids(p)))) == []
  {
    var m, d := LedgerTasks(p, prior), Dropped(prior, Ids(p));
    SameIds(m, p);
    IdsConcat(m, d);
    forall t | t in prior && ReAdded(t, {}) ensures t.id in Ids(m + d) {
      if t.id !in Ids(p) {
        assert t in d;
      }
    }
    DroppedNone(prior, Ids(m + d));
  }

  lemma RepairedTasksStable(p: seq<Task>, prior: seq<Task>)
    requires UniqueIds(prior)
    ensures var once := LedgerTasks(p, prior) + Dropped(prior, Ids(p)); LedgerTasks(once, prior) == once
  {
    var m, d := LedgerTasks(p, prior), Dropped(prior, Ids(p));
    var once := m + d;
    var twice := LedgerTasks(once, prior);
    forall i | 0 <= i < |once| ensures twice[i] == once[i] {
      if i < |m| {
        LedgerTaskIdempotent(p[i], prior);
      } else {
        assert once[i] in d;
        LedgerTaskOnPrior(once[i], prior);
      }
    }
  }

  /** The repair is idempotent against any prior plan with unique ids. */
  lemma LedgerRepairIdempotent(ledger: bool, p: Plan, prior: Option<Plan>)
    requires prior.Some? ==> UniqueIds(prior.value.tasks)
    ensures LedgerRepair(ledger, LedgerRepair(ledger, p, prior), prior) == LedgerRepair(ledger, p, prior)
  {
    if ledger && prior.Some? && HasLedgerShape(prior.value.tasks) {
      RepairDropsNothing(p.tasks, prior.value.tasks);
      RepairedTasksStable(p.tasks, prior.value.tasks);
      var once := LedgerRepair(ledger, p, prior).tasks;
      assert once + [] == once;
    }
  }

  lemma FoldLedgerTask(t: Task, prior: seq<Task>)
    ensures FoldTask(LedgerTask(t, prior), prior) == LedgerTask(FoldTask(t, prior), prior)
  {
  }

  lemma FoldOpenPriorTask(t: Task, prior: seq<Task>)
    requires UniqueIds(prior) && t in prior && t.id != "" && !Terminal(t.status)
    ensures FoldTask(t, prior) == t
  {
    var was := Lookup(TerminalTasks(prior), t.id);
    if was.Some? {
      UniqueLookup(prior, t);
      UniqueLookup(prior, was.value);
    }
  }

  /** The two repairs commute, so the install paths may apply them in either order. */
  lemma FoldLedgerCommute(ledger: bool, p: Plan, prior: Option<Plan>)
    requires prior.Some? ==> UniqueIds(prior.value.tasks)
    ensures Fold(LedgerRepair(ledger, p, prior), prior) == LedgerRepair(ledger, Fold(p, prior), prior)
  {
    if ledger && prior.Some? && HasLedgerShape(prior.value.tasks) {
      var pr := prior.value.tasks;
      var f := Fold(p, prior).tasks;
      SameIds(f, p.tasks);
      var d := Dropped(pr, Ids(p.tasks));
      var left := Fold(LedgerRepair(ledger, p, prior), prior).tasks;
      var right := LedgerTasks(f, pr) + d;
      forall i | 0 <= i < |left| ensures left[i] == right[i] {
        if i < |p.tasks| {
          FoldLedgerTask(p.tasks[i], pr);
        } else {
          var t := d[i - |p.tasks|];
          assert t in d;
          FoldOpenPriorTask(t, pr);
        }
      }
      assert left == right;
    }
  }
}
