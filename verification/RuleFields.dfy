/** What one built-in rule, run by the editor on a well-formed transcript, leaves on the request. */
module RuleFields {
  import opened Options
  import opened Text
  import opened Transcript
  import opened Editor
  import opened EditorLaws
  import opened EditRules
  import opened CompactionBytes
  import opened RuleChain

  // ----- an edit of a built-in rule is taken

  lemma RedactionChanges(env: Env, cs: seq<Content>)
    requires RedactTransient(env, cs).Edited?
    ensures !SameContents(RedactTransient(env, cs).contents, cs)
  {
    RedactedAt(env, cs);
    var out := RedactTransient(env, cs).contents;
    assert out != cs;
    var i :| 0 <= i < |cs| && out[i] != cs[i];
  }

  /** An edit of a built-in rule is no mere copy. */
  lemma BuiltinChanges(env: Env, b: Builtin, cs: seq<Content>)
    requires WellFormed(cs) && AsRule(env, b).edit(cs).Edited?
    ensures !SameContents(AsRule(env, b).edit(cs).contents, cs)
  {
    match b
    case CancelledReasoning(ids) =>
    case TransientErrors => RedactionChanges(env, cs);
    case StaleSteer(ctx) =>
    case PriorReasoning(n, looping) => CompactionShrinks(env, cs, Threshold(n, looping));
  }

  /** What a rule's answer makes of the contents. */
  function Taken(o: Outcome, cs: seq<Content>): (r: seq<Content>)
  {
    if o.Edited? then o.contents else cs
  }

  /** On a well-formed transcript the editor ends with exactly what a built-in rule answers. */
  lemma {:induction false} BuiltinTaken(env: Env, b: Builtin, cs: seq<Content>, rules: seq<Rule>)
    requires WellFormed(cs) && rules == [AsRule(env, b)]
    ensures Chain(env, rules, cs, NOTHING).0 == Taken(AsRule(env, b).edit(cs), cs)
    ensures |Chain(env, rules, cs, NOTHING).1.applied| == if AsRule(env, b).edit(cs).Edited? then 1 else 0
  {
    var rule := AsRule(env, b);
    BuiltinClean(env, b, cs);
    if rule.edit(cs).Edited? {
      var out := rule.edit(cs).contents;
      BuiltinChanges(env, b, cs);
      WellFormedPaired(out);
      SingleTaken(env, rule, cs, out, rules);
    } else {
      RuleSkips(env, rules, cs, NOTHING);
      assert rules[1..] == [];
    }
  }

  // ----- cancelled calls

  /** Some call or response part of the content has one of the ids. */
  ghost predicate Mentions(c: Content, ids: set<string>)
  {
    exists p :: p in c.parts && (p.Call? || p.Response?) && p.id in ids && p.id != ""
  }

  lemma MentionsIff(c: Content, ids: set<string>)
    ensures Touches(c, ids) <==> Mentions(c, ids)
  {
  }

  /** Exactly the contents that mention a cancelled id are gone, unless that would leave nothing. */
  lemma CancelledGone(env: Env, cs: seq<Content>, ids: set<string>, rules: seq<Rule>, c: Content)
    requires WellFormed(cs) && rules == [AsRule(env, CancelledReasoning(ids))]
    ensures c in Chain(env, rules, cs, NOTHING).0 <==>
            c in cs && (!Mentions(c, ids) || forall d <- cs :: Mentions(d, ids))
  {
    BuiltinTaken(env, CancelledReasoning(ids), cs, rules);
    var f := KeepUntouched(ids);
    forall d ensures d in Rebuild(cs, f) <==> d in cs && !Mentions(d, ids) {
      RebuildMembers(cs, f, d);
      MentionsIff(d, ids);
    }
    SurvivorsMean(cs, f, c);
  }

  /** A drop-only rule ends with what it keeps, or with everything when it would keep nothing. */
  lemma SurvivorsMean(cs: seq<Content>, f: Content -> Option<Content>, c: Content)
    requires forall d <- cs :: f(d).Some? ==> f(d).value == d
    ensures c in Taken(Survivors(cs, f), cs) <==> c in cs && (f(c).Some? || forall d <- cs :: f(d).None?)
  {
    RebuildMembers(cs, f, c);
    if Rebuild(cs, f) == [] {
      forall d | d in cs ensures f(d).None? {
        RebuildMembers(cs, f, d);
      }
    } else {
      var d := Rebuild(cs, f)[0];
      RebuildMembers(cs, f, d);
      if |Rebuild(cs, f)| == |cs| {
        FullRebuild(cs, f);
      }
    }
  }

  lemma {:induction false} FullRebuild(cs: seq<Content>, f: Content -> Option<Content>)
    requires |Rebuild(cs, f)| == |cs|
    ensures forall c <- cs :: f(c).Some?
  {
    if cs != [] {
      FullRebuild(cs[..|cs| - 1], f);
      assert cs == cs[..|cs| - 1] + [cs[|cs| - 1]];
    }
  }

  // ----- transient errors

  /** The part is a response with a raw result that is a transient error and larger than the marker. */
  predicate Bulky(env: Env, p: Part)
  {
    p.Response? && p.payload.Raw? && env.transient(p.payload.code) && env.size(p.payload) > env.size(Redacted)
  }

  lemma RedactsSome(env: Env, ps: seq<Part>)
    ensures RedactParts(env, ps) != ps <==> exists p :: p in ps && Bulky(env, p)
  {
    var r := RedactParts(env, ps);
    if p :| p in ps && Bulky(env, p) {
      var i :| 0 <= i < |ps| && ps[i] == p;
      assert r[i].payload.Redacted?;
    } else {
      assert forall i :: 0 <= i < |ps| ==> ps[i] in ps;
      assert r == ps;
    }
  }

  /** Every content and part keeps its place and role; a changed content is a copy, and
      exactly the bulky results become the marker. */
  lemma TransientRedacted(env: Env, cs: seq<Content>, rules: seq<Rule>, i: nat, k: nat)
    requires WellFormed(cs) && rules == [AsRule(env, TransientErrors)] && i < |cs| && k < |cs[i].parts|
    ensures var end := Chain(env, rules, cs, NOTHING).0;
            && |end| == |cs| && end[i].role == cs[i].role && |end[i].parts| == |cs[i].parts|
            && end[i].parts[k] ==
               if Bulky(env, cs[i].parts[k]) then Response(cs[i].parts[k].id, cs[i].parts[k].tool, Redacted)
               else cs[i].parts[k]
    ensures var end := Chain(env, rules, cs, NOTHING).0;
            |end| == |cs| && end[i].ident ==
            if exists p :: p in cs[i].parts && Bulky(env, p) then CloneOf(cs[i].ident) else cs[i].ident
  {
    BuiltinTaken(env, TransientErrors, cs, rules);
    RedactedAt(env, cs);
    var out := Rebuild(cs, KeepRedacted(env));
    assert out[i] == Redact(env, cs[i]);
    assert Redact(env, cs[i]).parts[k] == RedactPart(env, cs[i].parts[k]);
    RedactsSome(env, cs[i].parts);
  }

  // ----- stale notes

  /** The texts of the content, blank ones left out, are these. */
  lemma {:induction false} TextsConcat(a: seq<Part>, b: seq<Part>)
    ensures TextOf(a + b) == TextOf(a) + TextOf(b)
    decreases |a|
  {
    if a == [] {
      assert a + b == b;
    } else {
      assert (a + b)[1..] == a[1..] + b;
      TextsConcat(a[1..], b);
    }
  }

  lemma TextOfOne(p: Part)
    ensures TextOf([p]) == if p.Words? && p.text != "" then [p.text] else []
  {
    assert [p][1..] == [];
  }

  /** Texts are joined by single newlines. */
  lemma {:induction false} LinesJoin(ts: seq<string>, t: string)
    ensures Lines(ts + [t]) == if ts == [] then t else Lines(ts) + "\n" + t
  {
    if ts == [] {
      assert ts + [t] == [t];
    } else {
      assert (ts + [t])[1..] == ts[1..] + [t] && (ts + [t])[0] == ts[0];
      LinesJoin(ts[1..], t);
      if |ts| == 1 {
        assert ts[1..] == [] && Lines(ts) == ts[0];
      } else {
        assert ts[0] + "\n" + (Lines(ts[1..]) + "\n" + t) == ts[0] + "\n" + Lines(ts[1..]) + "\n" + t;
      }
    }
  }

  /** A content of text parts only, spoken by the user or by nobody in particular, that carries the note
      marker or the footer of notes. */
  ghost predicate NoteLike(c: Content, ctx: NoteContext)
  {
    && (Lowered(Trim(c.role)) == "user" || Trim(c.role) == "")
    && (forall p <- c.parts :: !p.Call? && !p.Response?)
    && ContentText(c) != ""
    && (|| (ctx.marker != "" && Occurs(ContentText(c), ctx.marker))
        || (ctx.footer != "" && Occurs(ContentText(c), ctx.footer)))
  }

  /** It carries the steer in force, or a body that is still fresh. */
  ghost predicate StillMeant(c: Content, ctx: NoteContext)
  {
    || (ctx.activeBody != "" && Occurs(ContentText(c), ctx.activeBody))
    || exists b :: b in ctx.freshBodies && Occurs(ContentText(c), b)
  }

  lemma StaleIff(c: Content, ctx: NoteContext)
    ensures IsNote(c, ctx) && IsStale(c, ctx) <==> NoteLike(c, ctx) && !StillMeant(c, ctx)
  {
    assert Lowered(Trim(c.role)) == "" <==> Trim(c.role) == "" by {
      assert |Lowered(Trim(c.role))| == |Trim(c.role)|;
    }
  }

  /** Exactly the notes that are not meant any more are gone, unless that would leave nothing. */
  lemma StaleGone(env: Env, cs: seq<Content>, ctx: NoteContext, rules: seq<Rule>, c: Content)
    requires WellFormed(cs) && rules == [AsRule(env, StaleSteer(ctx))]
    ensures c in Chain(env, rules, cs, NOTHING).0 <==>
            c in cs && (|| !NoteLike(c, ctx) || StillMeant(c, ctx)
                        || forall d <- cs :: NoteLike(d, ctx) && !StillMeant(d, ctx))
  {
    BuiltinTaken(env, StaleSteer(ctx), cs, rules);
    var f := KeepFresh(ctx);
    forall d ensures f(d).None? <==> NoteLike(d, ctx) && !StillMeant(d, ctx) {
      StaleIff(d, ctx);
    }
    SurvivorsMean(cs, f, c);
  }

  // ----- all four

  /** The names the rules go by, and which of them only drop. */
  lemma BuiltinNames(env: Env, b: Builtin)
    ensures AsRule(env, b).name == match b
              case CancelledReasoning(_) => "prune_cancelled_reasoning"
              case TransientErrors => "prune_transient_error"
              case StaleSteer(_) => "prune_stale_steer"
              case PriorReasoning(_, _) => "compact_prior_reasoning"
    ensures AsRule(env, b).dropOnly <==> b.CancelledReasoning? || b.StaleSteer?
  {
  }
}
