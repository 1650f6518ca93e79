/** The context editor: a chain of rules over the request contents, each guarded and reverted alone. */
module Editor {
  import opened Transcript

  /** What a rule returns for a message list. */
  datatype Outcome = Raised | NoEdit | Edited(contents: seq<Content>)

  datatype Rule = Rule(name: string, dropOnly: bool, edit: seq<Content> -> Outcome)

  datatype Reason = RuleRaised | NotDropOnly | InjectedContent | PairViolation | EmptyContents

  datatype Verdict = Applies(contents: seq<Content>) | Rejects(reason: Reason) | Skips

  /** Every surviving entry is one of the input objects. */
  predicate IdentitySubset(candidate: seq<Content>, current: seq<Content>)
  {
    forall c <- candidate :: c in current
  }

  /** The invariant gates, in the order the editor tests them. */
  function Judge(env: Env, rule: Rule, current: seq<Content>): (v: Verdict)
  {
    match rule.edit(current)
    case Raised => Rejects(RuleRaised)
    case NoEdit => Skips
    case Edited(cand) =>
      if EqualContents(cand, current) then Skips
      else if Bytes(env, cand) > Bytes(env, current) || |cand| > |current| then Rejects(NotDropOnly)
      else if rule.dropOnly && !IdentitySubset(cand, current) then Rejects(InjectedContent)
      else if !Paired(cand) then Rejects(PairViolation)
      else if cand == [] then Rejects(EmptyContents)
      else Applies(cand)
  }

  /** The per-rule delta announced for an applied edit. */
  datatype Delta = Delta(name: string, bytesBefore: nat, bytesAfter: nat, countBefore: nat, countAfter: nat)

  datatype Tally = Tally(applied: seq<Delta>, rejected: seq<(string, Reason)>, skipped: seq<string>)

  function Record(env: Env, t: Tally, rule: Rule, current: seq<Content>, v: Verdict): (r: Tally)
  {
    match v
    case Applies(cand) =>
      t.(applied := t.applied + [Delta(rule.name, Bytes(env, current), Bytes(env, cand), |current|, |cand|)])
    case Rejects(reason) => t.(rejected := t.rejected + [(rule.name, reason)])
    case Skips => t.(skipped := t.skipped + [rule.name])
  }

  function NextContents(current: seq<Content>, v: Verdict): (r: seq<Content>)
  {
    if v.Applies? then v.contents else current
  }

  /** The contents and the bookkeeping after a chain of rules. */
  function Chain(env: Env, rules: seq<Rule>, current: seq<Content>, t: Tally): (r: (seq<Content>, Tally))
    decreases |rules|
  {
    if rules == [] then (current, t)
    else
      var v := Judge(env, rules[0], current);
      Chain(env, rules[1..], NextContents(current, v), Record(env, t, rules[0], current, v))
  }

  const NOTHING := Tally([], [], [])

  datatype EditResult = EditResult(tally: Tally, bytesBefore: nat, bytesAfter: nat, countBefore: nat, countAfter: nat)

  class LlmRequest {
    var contents: seq<Content>

    constructor (contents: seq<Content>)
      ensures this.contents == contents
    {
      this.contents := contents;
    }

    /** Runs the rule chain; `swapOk` says whether the request accepts the new contents. */
    method ApplyRules(env: Env, rules: seq<Rule>, observationOnly: bool, swapOk: bool) returns (result: EditResult)
      modifies this
      ensures observationOnly || rules == [] ==> contents == old(contents) && result == EditResult(NOTHING, 0, 0, 0, 0)
      ensures !observationOnly && rules != [] ==>
                var (end, t) := Chain(env, rules, old(contents), NOTHING);
                var committed := t.applied == [] || swapOk;
                && contents == (if committed then end else old(contents))
                && result.tally == (if committed then t else t.(applied := []))
                && result.bytesBefore == Bytes(env, old(contents)) && result.countBefore == |old(contents)|
                && result.bytesAfter == Bytes(env, contents) && result.countAfter == |contents|
    {
      if observationOnly || rules == [] {
        return EditResult(NOTHING, 0, 0, 0, 0);
      }
      var original := contents;
      var current := original;
      var applied: seq<Delta> := [];
      var rejected: seq<(string, Reason)> := [];
      var skipped: seq<string> := [];
      for i := 0 to |rules|
        invariant contents == original
        invariant Chain(env, rules[i..], current, Tally(applied, rejected, skipped)) ==
                  Chain(env, rules, original, NOTHING)
        invariant applied == [] ==> current == original
      {
        var rule := rules[i];
        assert rules[i..][0] == rule && rules[i..][1..] == rules[i + 1..];
        ghost var before := current;
        ghost var t := Tally(applied, rejected, skipped);
        match rule.edit(current)
        case Raised =>
          rejected := rejected + [(rule.name, RuleRaised)];
        case NoEdit =>
          skipped := skipped + [rule.name];
        case Edited(cand) =>
          if EqualContents(cand, current) {
            skipped := skipped + [rule.name];
          } else if Bytes(env, cand) > Bytes(env, current) || |cand| > |current| {
            rejected := rejected + [(rule.name, NotDropOnly)];
          } else if rule.dropOnly && !IdentitySubset(cand, current) {
            rejected := rejected + [(rule.name, InjectedContent)];
          } else if !Paired(cand) {
            rejected := rejected + [(rule.name, PairViolation)];
          } else if cand == [] {
            rejected := rejected + [(rule.name, EmptyContents)];
          } else {
            applied := applied + [Delta(rule.name, Bytes(env, current), Bytes(env, cand), |current|, |cand|)];
            current := cand;
          }
        assert current == NextContents(before, Judge(env, rule, before));
        assert Tally(applied, rejected, skipped) == Record(env, t, rule, before, Judge(env, rule, before));
      }
      if applied != [] {
        if swapOk {
          contents := current;
        } else {
          applied, current := [], original;
        }
      }
      result := EditResult(Tally(applied, rejected, skipped), Bytes(env, original), Bytes(env, current), |original|,
          |current|);
    }
  }

  // ----- what the gates guarantee for arbitrary rules

  /** The editor either left the contents alone or installed a smaller, paired, non-empty list. */
  ghost predicate Safe(env: Env, original: seq<Content>, current: seq<Content>)
  {
    || current == original
    || (current != [] && Paired(current) && Bytes(env, current) <= Bytes(env, original) && |current| <= |original|)
  }

  function SavedBytes(ds: seq<Delta>): (r: int)
  {
    if ds == [] then 0 else SavedBytes(ds[..|ds| - 1]) + ds[|ds| - 1].bytesBefore - ds[|ds| - 1].bytesAfter
  }

  function SavedEntries(ds: seq<Delta>): (r: int)
  {
    if ds == [] then 0 else SavedEntries(ds[..|ds| - 1]) + ds[|ds| - 1].countBefore - ds[|ds| - 1].countAfter
  }

  /** The announced deltas add up to the distance from `original`. */
  ghost predicate Accounted(env: Env, original: seq<Content>, current: seq<Content>, t: Tally)
  {
    && SavedBytes(t.applied) == Bytes(env, original) - Bytes(env, current)
    && SavedEntries(t.applied) == |original| - |current|
    && (forall d <- t.applied :: d.bytesAfter <= d.bytesBefore && d.countAfter <= d.countBefore)
  }

  function Size(t: Tally): (r: nat)
  {
    |t.applied| + |t.rejected| + |t.skipped|
  }

  lemma StepGuarantees(env: Env, rule: Rule, original: seq<Content>, current: seq<Content>, t: Tally)
    requires Safe(env, original, current) && Accounted(env, original, current, t)
    requires t.applied == [] ==> current == original
    ensures var v := Judge(env, rule, current);
            var next, u := NextContents(current, v), Record(env, t, rule, current, v);
            && Safe(env, original, next)
            && Accounted(env, original, next, u)
            && Size(u) == Size(t) + 1
            && (u.applied == [] ==> next == original)
            && (rule.dropOnly && IdentitySubset(current, original) ==> IdentitySubset(next, original))
  {
    var v := Judge(env, rule, current);
    if v.Applies? {
      var u := Record(env, t, rule, current, v);
      assert u.applied[..|u.applied| - 1] == t.applied;
    }
  }

  /** For arbitrary rules: the outcome is safe, every rule is accounted for exactly once, the
      per-rule deltas telescope to the total saving, nothing applied means nothing changed, and a
      chain of drop-only rules ends in entries of the original list. */
  lemma {:induction false} ChainGuarantees(env: Env, rules: seq<Rule>, original: seq<Content>, current: seq<Content>,
      t: Tally)
    requires Safe(env, original, current) && Accounted(env, original, current, t)
    requires t.applied == [] ==> current == original
    ensures var (end, u) := Chain(env, rules, current, t);
            && Safe(env, original, end)
            && Accounted(env, original, end, u)
            && Size(u) == Size(t) + |rules|
            && (u.applied == [] ==> end == original)
            && ((forall r <- rules :: r.dropOnly) && IdentitySubset(current, original) ==>
                IdentitySubset(end, original))
    decreases |rules|
  {
    if rules != [] {
      var v := Judge(env, rules[0], current);
      StepGuarantees(env, rules[0], original, current, t);
      assert rules[0] in rules && forall r <- rules[1..] :: r in rules;
      ChainGuarantees(env, rules[1..], original, NextContents(current, v), Record(env, t, rules[0], current, v));
    }
  }

  /** What the editor leaves on the request, for arbitrary rules run on arbitrary contents. */
  lemma EditorGuarantees(env: Env, rules: seq<Rule>, original: seq<Content>)
    ensures var (end, t) := Chain(env, rules, original, NOTHING);
            && Safe(env, original, end)
            && SavedBytes(t.applied) == Bytes(env, original) - Bytes(env, end)
            && SavedEntries(t.applied) == |original| - |end|
            && |t.applied| + |t.rejected| + |t.skipped| == |rules|
            && (t.applied == [] ==> end == original)
            && ((forall r <- rules :: r.dropOnly) ==> forall c <- end :: c in original)
  {
    ChainGuarantees(env, rules, original, original, NOTHING);
  }

  // ----- every rule is reported once, under its own name

  function AppliedNames(ds: seq<Delta>): (r: multiset<string>)
  {
    if ds == [] then multiset{} else AppliedNames(ds[..|ds| - 1]) + multiset{ds[|ds| - 1].name}
  }

  function RejectedNames(rs: seq<(string, Reason)>): (r: multiset<string>)
  {
    if rs == [] then multiset{} else RejectedNames(rs[..|rs| - 1]) + multiset{rs[|rs| - 1].0}
  }

  function Reported(t: Tally): (r: multiset<string>)
  {
    AppliedNames(t.applied) + RejectedNames(t.rejected) + multiset(t.skipped)
  }

  function RuleNames(rules: seq<Rule>): (r: multiset<string>)
  {
    if rules == [] then multiset{} else multiset{rules[0].name} + RuleNames(rules[1..])
  }

  lemma AppliedSnoc(ds: seq<Delta>, d: Delta)
    ensures AppliedNames(ds + [d]) == AppliedNames(ds) + multiset{d.name}
  {
    assert (ds + [d])[..|ds|] == ds;
  }

  lemma RejectedSnoc(rs: seq<(string, Reason)>, r: (string, Reason))
    ensures RejectedNames(rs + [r]) == RejectedNames(rs) + multiset{r.0}
  {
    assert (rs + [r])[..|rs|] == rs;
  }

  lemma AppliedReports(t: Tally, d: Delta)
    ensures Reported(t.(applied := t.applied + [d])) == Reported(t) + multiset{d.name}
  {
    AppliedSnoc(t.applied, d);
  }

  lemma RejectedReports(t: Tally, r: (string, Reason))
    ensures Reported(t.(rejected := t.rejected + [r])) == Reported(t) + multiset{r.0}
  {
    RejectedSnoc(t.rejected, r);
  }

  lemma SkippedReports(t: Tally, name: string)
    ensures Reported(t.(skipped := t.skipped + [name])) == Reported(t) + multiset{name}
  {
  }

  lemma RecordReports(env: Env, t: Tally, rule: Rule, current: seq<Content>, v: Verdict)
    ensures Reported(Record(env, t, rule, current, v)) == Reported(t) + multiset{rule.name}
  {
    match v
    case Applies(cand) =>
      AppliedReports(t, Delta(rule.name, Bytes(env, current), Bytes(env, cand), |current|, |cand|));
    case Rejects(reason) =>
      RejectedReports(t, (rule.name, reason));
    case Skips =>
      SkippedReports(t, rule.name);
  }

  /** Each rule lands in exactly one of applied, rejected and skipped. */
  lemma {:induction false} EveryRuleOnce(env: Env, rules: seq<Rule>, current: seq<Content>, t: Tally)
    ensures Reported(Chain(env, rules, current, t).1) == Reported(t) + RuleNames(rules)
    decreases |rules|
  {
    if rules != [] {
      var v := Judge(env, rules[0], current);
      RecordReports(env, t, rules[0], current, v);
      EveryRuleOnce(env, rules[1..], NextContents(current, v), Record(env, t, rules[0], current, v));
    }
  }
}
