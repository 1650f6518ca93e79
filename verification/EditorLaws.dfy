/** Exactly which edits the editor takes, why it refuses the others, and what it measures. */
module EditorLaws {
  import opened Transcript
  import opened Editor

  // ----- what is measured

  lemma {:induction false} PartsConcat(env: Env, a: seq<Part>, b: seq<Part>)
    ensures PartsBytes(env, a + b) == PartsBytes(env, a) + PartsBytes(env, b)
    decreases |a|
  {
    if a == [] {
      assert a + b == b;
    } else {
      assert (a + b)[1..] == a[1..] + b;
      PartsConcat(env, a[1..], b);
    }
  }

  /** A text weighs its length, a call its tool and arguments, a response its tool and payload; ids weigh
      nothing. */
  lemma PartWeights(env: Env, text: string, id: string, tool: string, args: string, payload: Payload)
    ensures PartsBytes(env, [Words(text)]) == |text|
    ensures PartsBytes(env, [Call(id, tool, args)]) == |tool| + |args|
    ensures PartsBytes(env, [Response(id, tool, payload)]) == |tool| + env.size(payload)
  {
    assert [Words(text)][1..] == [] && [Call(id, tool, args)][1..] == [] && [Response(id, tool, payload)][1..] == [];
  }

  /** A transcript weighs what its contents weigh, and a content what its parts do. */
  lemma TranscriptWeights(env: Env, a: seq<Content>, c: Content, b: seq<Content>)
    ensures Bytes(env, a + [c] + b) == Bytes(env, a) + PartsBytes(env, c.parts) + Bytes(env, b)
  {
    BytesConcat(env, a + [c], b);
    BytesConcat(env, a, [c]);
    assert [c][1..] == [];
  }

  ghost predicate Calls(cs: seq<Content>, id: string)
  {
    exists c, p :: c in cs && p in c.parts && p.Call? && p.id == id
  }

  ghost predicate Answers(cs: seq<Content>, id: string)
  {
    exists c, p :: c in cs && p in c.parts && p.Response? && p.id == id
  }

  /** Every id that is called is answered and the reverse; parts without an id are not looked at. */
  lemma PairedIff(cs: seq<Content>)
    ensures Paired(cs) <==> forall id :: id != "" ==> (Calls(cs, id) <==> Answers(cs, id))
  {
    forall id | id != ""
      ensures Calls(cs, id) <==> id in CallIds(cs)
      ensures Answers(cs, id) <==> id in ResponseIds(cs)
    {
    }
    assert "" !in CallIds(cs) && "" !in ResponseIds(cs);
    if forall id :: id != "" ==> (Calls(cs, id) <==> Answers(cs, id)) {
      forall id ensures id in CallIds(cs) <==> id in ResponseIds(cs) {
      }
    }
  }

  // ----- which edits are taken

  /** No bytes and no entries added, drop-only edits made of entries that were there, calls and responses
      paired, something left. */
  ghost predicate Admissible(env: Env, rule: Rule, cs: seq<Content>, out: seq<Content>)
  {
    && Bytes(env, out) <= Bytes(env, cs) && |out| <= |cs|
    && (rule.dropOnly ==> forall c <- out :: c in cs)
    && CallIds(out) == ResponseIds(out)
    && out != []
  }

  /** The rule offers a list that is not the current one up to identity. */
  ghost predicate Offers(rule: Rule, cs: seq<Content>, out: seq<Content>)
  {
    rule.edit(cs) == Edited(out) && !SameContents(out, cs)
  }

  /** An admissible edit is taken: the rule is listed with its measures, and the chain goes on from it. */
  lemma {:induction false} EditTaken(env: Env, rules: seq<Rule>, cs: seq<Content>, t: Tally, out: seq<Content>)
    requires rules != [] && Offers(rules[0], cs, out) && Admissible(env, rules[0], cs, out)
    ensures var d := Delta(rules[0].name, Bytes(env, cs), Bytes(env, out), |cs|, |out|);
            Chain(env, rules, cs, t) == Chain(env, rules[1..], out, t.(applied := t.applied + [d]))
  {
    assert Judge(env, rules[0], cs) == Applies(out);
  }

  /** The first gate that an edit fails. */
  ghost predicate FirstFault(env: Env, rule: Rule, cs: seq<Content>, out: seq<Content>, reason: Reason)
  {
    match reason
    case RuleRaised => false
    case NotDropOnly => Bytes(env, out) > Bytes(env, cs) || |out| > |cs|
    case InjectedContent =>
      && Bytes(env, out) <= Bytes(env, cs) && |out| <= |cs|
      && rule.dropOnly && exists c :: c in out && c !in cs
    case PairViolation =>
      && Bytes(env, out) <= Bytes(env, cs) && |out| <= |cs|
      && (rule.dropOnly ==> forall c <- out :: c in cs)
      && CallIds(out) != ResponseIds(out)
    case EmptyContents =>
      Bytes(env, out) <= Bytes(env, cs) && |out| <= |cs| && out == []
  }

  lemma OneFault(env: Env, rule: Rule, cs: seq<Content>, out: seq<Content>) returns (reason: Reason)
    requires !Admissible(env, rule, cs, out)
    ensures FirstFault(env, rule, cs, out, reason)
    ensures forall other :: FirstFault(env, rule, cs, out, other) ==> other == reason
  {
    reason := if Bytes(env, out) > Bytes(env, cs) || |out| > |cs| then NotDropOnly
              else if rule.dropOnly && exists c :: c in out && c !in cs then InjectedContent
              else if CallIds(out) != ResponseIds(out) then PairViolation
              else EmptyContents;
    assert CallIds([]) == {} && ResponseIds([]) == {};
  }

  /** Any other edit is refused for its first fault, and the chain goes on from what was there. */
  lemma {:induction false} EditRefused(env: Env, rules: seq<Rule>, cs: seq<Content>, t: Tally, out: seq<Content>,
      reason: Reason)
    requires rules != [] && Offers(rules[0], cs, out) && FirstFault(env, rules[0], cs, out, reason)
    ensures Chain(env, rules, cs, t) ==
            Chain(env, rules[1..], cs, t.(rejected := t.rejected + [(rules[0].name, reason)]))
  {
    assert CallIds([]) == {} && ResponseIds([]) == {};
  }

  lemma {:induction false} RuleRaises(env: Env, rules: seq<Rule>, cs: seq<Content>, t: Tally)
    requires rules != [] && rules[0].edit(cs) == Raised
    ensures Chain(env, rules, cs, t) ==
            Chain(env, rules[1..], cs, t.(rejected := t.rejected + [(rules[0].name, RuleRaised)]))
  {
  }

  /** A rule that makes no edit, or offers what is there already, is skipped. */
  lemma {:induction false} RuleSkips(env: Env, rules: seq<Rule>, cs: seq<Content>, t: Tally)
    requires rules != []
    requires rules[0].edit(cs) == NoEdit ||
             (rules[0].edit(cs).Edited? && SameContents(rules[0].edit(cs).contents, cs))
    ensures Chain(env, rules, cs, t) == Chain(env, rules[1..], cs, t.(skipped := t.skipped + [rules[0].name]))
  {
  }

  lemma {:induction false} SingleTaken(env: Env, rule: Rule, cs: seq<Content>, out: seq<Content>, rules: seq<Rule>)
    requires Offers(rule, cs, out) && Admissible(env, rule, cs, out) && rules == [rule]
    ensures Chain(env, rules, cs, NOTHING) ==
            (out, Tally([Delta(rule.name, Bytes(env, cs), Bytes(env, out), |cs|, |out|)], [], []))
  {
    var d := Delta(rule.name, Bytes(env, cs), Bytes(env, out), |cs|, |out|);
    EditTaken(env, rules, cs, NOTHING, out);
    assert rules[1..] == [] && [] + [d] == [d];
  }

  lemma {:induction false} SingleRefused(env: Env, rule: Rule, cs: seq<Content>, out: seq<Content>, rules: seq<Rule>)
    requires Offers(rule, cs, out) && !Admissible(env, rule, cs, out) && rules == [rule]
    ensures Chain(env, rules, cs, NOTHING).0 == cs && Chain(env, rules, cs, NOTHING).1.applied == []
  {
    var reason := OneFault(env, rule, cs, out);
    EditRefused(env, rules, cs, NOTHING, out, reason);
    assert rules[1..] == [];
  }

  /** One rule alone: its edit is what the request ends with, listed with its measures, exactly when it
      is admissible. */
  lemma {:induction false} SingleRuleIff(env: Env, rule: Rule, cs: seq<Content>, out: seq<Content>, rules: seq<Rule>)
    requires Offers(rule, cs, out) && rules == [rule]
    ensures Chain(env, rules, cs, NOTHING) ==
            (out, Tally([Delta(rule.name, Bytes(env, cs), Bytes(env, out), |cs|, |out|)], [], [])) <==>
            Admissible(env, rule, cs, out)
  {
    if Admissible(env, rule, cs, out) {
      SingleTaken(env, rule, cs, out, rules);
    } else {
      SingleRefused(env, rule, cs, out, rules);
    }
  }
}
