/** Observation-only runs: suppressed revisions leave no trace and preview what steering would do. */
module Previews {
  import opened Options
  import opened Plans
  import opened Install

  datatype Revision = Revision(plan: Plan, drift: Drift, now: int)

  function Next(v: View, ledger: bool, active: bool, r: Revision): (w: View)
  {
    Revised(v, ledger, active, r.plan, r.drift, r.now)
  }

  /** What the revision puts on the wire. */
  function Emission(v: View, ledger: bool, active: bool, r: Revision): (e: Emitted)
  {
    Emitted(Integrated(Prepared(ledger, r.plan, v.plan, r.drift)), !Lands(active, v.plan, r.drift))
  }

  function Run(v: View, ledger: bool, active: bool, rs: seq<Revision>): (w: View)
  {
    if rs == [] then v else Next(Run(v, ledger, active, rs[..|rs| - 1]), ledger, active, rs[|rs| - 1])
  }

  /** Everything a run puts on the wire. */
  function Emissions(v: View, ledger: bool, active: bool, rs: seq<Revision>): (es: seq<Emitted>)
    ensures |es| == |rs|
    ensures forall k :: 0 <= k < |rs| ==> es[k] == Emission(Run(v, ledger, active, rs[..k]), ledger, active, rs[k])
  {
    seq(|rs|, k requires 0 <= k < |rs| => Emission(Run(v, ledger, active, rs[..k]), ledger, active, rs[k]))
  }

  /** The revisions of a run that land. */
  function Landed(v: View, ledger: bool, active: bool, rs: seq<Revision>): (r: seq<Revision>)
  {
    if rs == [] then []
    else
      var front, last := rs[..|rs| - 1], rs[|rs| - 1];
      Landed(v, ledger, active, front) + if Lands(active, Run(v, ledger, active, front).plan, last.drift) then [last]
          else []
  }

  /** A revision changes the session exactly when steering is active or a carve-out applies: the
      plan it installs always has a higher index. */
  lemma ChangesIffLands(v: View, ledger: bool, active: bool, r: Revision)
    ensures Next(v, ledger, active, r) != v <==> active || v.plan.None? || r.drift.byUser || r.drift.kind == DISCOVERY
    ensures Next(v, ledger, true, r).plan == Some(Emission(v, ledger, active, r).plan)
  {
  }

  /** An observation-only run has exactly the effect of an actively steered run of those of its
      revisions that a carve-out lets through. */
  lemma {:induction false} SuppressedLeavesNoTrace(v: View, ledger: bool, active: bool, rs: seq<Revision>)
    ensures Run(v, ledger, active, rs) == Run(v, ledger, true, Landed(v, ledger, active, rs))
  {
    if rs != [] {
      var front, last := rs[..|rs| - 1], rs[|rs| - 1];
      SuppressedLeavesNoTrace(v, ledger, active, front);
      var l := Landed(v, ledger, active, front);
      if Lands(active, Run(v, ledger, active, front).plan, last.drift) {
        assert (l + [last])[..|l|] == l;
      } else {
        assert l + [] == l;
      }
    }
  }

  /** At every point of every run the emitted plan is the one that active steering would have
      installed in that state, flagged as a preview exactly when it was not installed. */
  lemma PreviewFidelity(v: View, ledger: bool, active: bool, rs: seq<Revision>, k: nat)
    requires k < |rs|
    ensures var w, e := Run(v, ledger, active, rs[..k]), Emissions(v, ledger, active, rs)[k];
            && Next(w, ledger, true, rs[k]).plan == Some(e.plan)
            && (e.dryRun <==> !active && w.plan.Some? && !rs[k].drift.byUser && rs[k].drift.kind != DISCOVERY)
            && (e.dryRun <==> Run(v, ledger, active, rs[..k + 1]) == w)
  {
    assert rs[..k + 1][..k] == rs[..k];
    ChangesIffLands(Run(v, ledger, active, rs[..k]), ledger, active, rs[k]);
  }

  function IndexOf(v: View): (r: int)
  {
    if v.plan.Some? then v.plan.value.revision else 0
  }

  /** Each landed revision raises the index: it grows at least by the number of installs. */
  lemma {:induction false} IndexClimbs(v: View, ledger: bool, active: bool, rs: seq<Revision>)
    ensures IndexOf(Run(v, ledger, active, rs)) >= IndexOf(v) + |Landed(v, ledger, active, rs)|
  {
    if rs != [] {
      IndexClimbs(v, ledger, active, rs[..|rs| - 1]);
    }
  }
}
