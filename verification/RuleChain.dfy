/** Chains of the four built-in rules over well-formed transcripts. */
module RuleChain {
  import opened Transcript
  import opened Editor
  import opened EditRules
  import opened Compaction
  import opened CompactionOutcome

  /** A built-in rule with the context it reads; compaction never runs with a threshold below two. */
  datatype Builtin =
    | CancelledReasoning(ids: set<string>)
    | TransientErrors
    | StaleSteer(ctx: NoteContext)
    | PriorReasoning(minRepeats: int, looping: bool)

  function Threshold(minRepeats: int, looping: bool): (r: nat)
    ensures r >= 2
  {
    if looping || minRepeats < 2 then 2 else minRepeats
  }

  function AsRule(env: Env, b: Builtin): (r: Rule)
  {
    match b
    case CancelledReasoning(ids) => Rule("prune_cancelled_reasoning", true,
        (cs: seq<Content>) => PruneCancelled(cs, ids))
    case TransientErrors => Rule("prune_transient_error", false, (cs: seq<Content>) => RedactTransient(env, cs))
    case StaleSteer(ctx) => Rule("prune_stale_steer", true, (cs: seq<Content>) => PruneStale(cs, ctx))
    case PriorReasoning(n, looping) =>
      Rule("compact_prior_reasoning", false, (cs: seq<Content>) => Compact(env, cs, Threshold(n, looping)))
  }

  function AsRules(env: Env, bs: seq<Builtin>): (r: seq<Rule>)
    ensures |r| == |bs|
    ensures forall i :: 0 <= i < |bs| ==> r[i] == AsRule(env, bs[i])
  {
    seq(|bs|, i requires 0 <= i < |bs| => AsRule(env, bs[i]))
  }

  lemma BuiltinClean(env: Env, b: Builtin, cs: seq<Content>)
    requires WellFormed(cs)
    ensures Clean(env, AsRule(env, b).dropOnly, cs, AsRule(env, b).edit(cs))
  {
    match b
    case CancelledReasoning(ids) => PruneCancelledClean(env, cs, ids);
    case TransientErrors => RedactTransientClean(env, cs);
    case StaleSteer(ctx) => PruneStaleClean(env, cs, ctx);
    case PriorReasoning(n, looping) => CompactClean(env, cs, Threshold(n, looping));
  }

  /** A clean answer is never rejected, and what it leads to is again well-formed. */
  lemma CleanPasses(env: Env, rule: Rule, cs: seq<Content>)
    requires WellFormed(cs) && Clean(env, rule.dropOnly, cs, rule.edit(cs))
    ensures !Judge(env, rule, cs).Rejects? && WellFormed(NextContents(cs, Judge(env, rule, cs)))
  {
    if rule.edit(cs).Edited? {
      WellFormedPaired(rule.edit(cs).contents);
    }
  }

  /** Built-in rules in any order and any number never trip a gate on a well-formed transcript: the
      editor reverts nothing and hands on a well-formed transcript. */
  lemma {:induction false} NoReverts(env: Env, bs: seq<Builtin>, cs: seq<Content>, t: Tally)
    requires WellFormed(cs)
    ensures var (end, u) := Chain(env, AsRules(env, bs), cs, t);
            WellFormed(end) && u.rejected == t.rejected
    decreases |bs|
  {
    if bs != [] {
      var rule := AsRule(env, bs[0]);
      BuiltinClean(env, bs[0], cs);
      CleanPasses(env, rule, cs);
      var v := Judge(env, rule, cs);
      assert AsRules(env, bs)[1..] == AsRules(env, bs[1..]);
      NoReverts(env, bs[1..], NextContents(cs, v), Record(env, t, rule, cs, v));
    }
  }
}
