/** What a compacted transcript looks like: pairs, survivors, truthful summaries, and a fixed point. */
module CompactionOutcome {
  import opened Options
  import opened Transcript
  import opened EditRules
  import opened Compaction
  import opened CompactionTables
  import opened CompactionLaws
  import opened CompactionBytes

  // ----- lookups, said of contents rather than of table entries

  lemma CallIs(cs: seq<Content>, id: string, c: Content)
    requires Typed(cs) && c in cs && KindOf(c) == CallOf(id)
    ensures var e := FindCall(Calls(cs), id);
            e.Some? && e.value.at < |cs| && cs[e.value.at] == c && e.value.sig == CallSig(c.parts)
  {
    var i :| 0 <= i < |cs| && cs[i] == c;
    CallAt(cs, i);
  }

  lemma AnswerIs(cs: seq<Content>, id: string, d: Content)
    requires Typed(cs) && d in cs && KindOf(d) == ResponseOf(id)
    ensures var e := FindAnswer(Answers(cs), id);
            e.Some? && e.value.at < |cs| && cs[e.value.at] == d && e.value.payload == Result(d.parts)
  {
    var i :| 0 <= i < |cs| && cs[i] == d;
    AnswerAt(cs, i);
  }

  /** The two contents of a recorded call. */
  lemma Halves(cs: seq<Content>, id: string) returns (c: Content, d: Content)
    requires Typed(cs) && Known(cs, Calls(cs), Answers(cs), id)
    ensures c in cs && KindOf(c) == CallOf(id) && d in cs && KindOf(d) == ResponseOf(id)
    ensures RowOf(cs, Calls(cs), Answers(cs), id) == Row(id, c, d, Result(d.parts))
  {
    c, d := cs[FindCall(Calls(cs), id).value.at], cs[FindAnswer(Answers(cs), id).value.at];
    KnownAt(cs, id, FindCall(Calls(cs), id).value.at);
    AnswerIs(cs, id, d);
  }

  lemma MemberKnown(env: Env, cs: seq<Content>, sig: Sig, id: string)
    requires id in MembersIn(env, cs, sig)
    ensures Known(cs, Calls(cs), Answers(cs), id)
  {
    MembersKnown(env, cs, sig);
  }

  // ----- summaries

  lemma {:induction false} SummarizedParts(ps: seq<Part>, id: string, s: Payload)
    ensures PartsKind(SummarizeParts(ps, id, s)) == PartsKind(ps)
    ensures PartsKind(ps) == ResponseOf(id) ==> Result(SummarizeParts(ps, id, s)) == s
  {
    if ps != [] {
      var r := SummarizeParts(ps, id, s);
      assert r[1..] == SummarizeParts(ps[1..], id, s);
      SummarizedParts(ps[1..], id, s);
    }
  }

  lemma OwnedByKind(c: Content, id: string)
    requires BelongsTo(c, id)
    ensures OwnedBy(c, id)
  {
    forall p | p in c.parts && !p.Words? ensures p.id == id {
      KindOfParts(c.parts, p);
    }
  }

  lemma AnsweringKind(d: Content, id: string)
    requires KindOf(d) == ResponseOf(id)
    ensures Answering(d, id)
  {
    var p := KindWitness(d.parts);
  }

  function Shortened(sig: Sig, rows: seq<Row>): (r: Content)
    requires rows != []
  {
    Summarize(rows[0].answer, rows[0].id, Summary(sig, rows))
  }

  /** On a typed transcript the guards never bind: a group collapses exactly when it is large enough
      and the summary is smaller than what it replaces. */
  lemma CollapsesIff(env: Env, cs: seq<Content>, threshold: nat, sig: Sig)
    requires Typed(cs)
    ensures var rows := RowsIn(env, cs, sig);
            && (Survivor(env, cs, threshold, sig).Some? <==>
                  && rows != [] && |rows| >= threshold
                  && ContentBytes(env, Shortened(sig, rows)) < RowBytes(env, rows[1..]) +
                      ContentBytes(env, rows[0].answer))
            && (Survivor(env, cs, threshold, sig).Some? ==>
                Survivor(env, cs, threshold, sig).value == Shortened(sig, rows))
  {
    var rows := RowsIn(env, cs, sig);
    forall k | 0 <= k < |rows|
      ensures OwnedBy(rows[k].call, rows[k].id) && OwnedBy(rows[k].answer, rows[k].id) &&
              Answering(rows[k].answer, rows[k].id)
    {
      RowOwned(env, cs, sig, k);
    }
    assert forall r <- rows :: OwnedBy(r.call, r.id) && OwnedBy(r.answer, r.id);
  }

  lemma RowOwned(env: Env, cs: seq<Content>, sig: Sig, k: nat)
    requires Typed(cs) && k < |MembersIn(env, cs, sig)|
    ensures var r := RowsIn(env, cs, sig)[k];
            && r.id == MembersIn(env, cs, sig)[k]
            && KindOf(r.call) == CallOf(r.id) && KindOf(r.answer) == ResponseOf(r.id)
            && r.call in cs && r.answer in cs && r.payload == Result(r.answer.parts)
            && OwnedBy(r.call, r.id) && OwnedBy(r.answer, r.id) && Answering(r.answer, r.id)
  {
    var id := MembersIn(env, cs, sig)[k];
    MembersKnown(env, cs, sig);
    var c, d := Halves(cs, id);
    OwnedByKind(c, id);
    OwnedByKind(d, id);
    AnsweringKind(d, id);
  }

  /** The claim a summary makes is what the compared results support, in each direction. */
  ghost predicate Truthful(claim: Claim, rows: seq<Row>)
    requires rows != []
  {
    && (claim.Identical? <==> (forall a <- rows, b <- rows :: a.payload == b.payload) && !rows[0].payload.Redacted?)
    && (claim.Elided? <==> forall a <- rows :: a.payload.Redacted?)
    && (claim.Differing? <==> exists a, b :: a in rows && b in rows && a.payload != b.payload)
    && (claim.Differing? ==> claim.last == rows[|rows| - 1].payload)
  }

  lemma SummaryTruthful(sig: Sig, rows: seq<Row>)
    requires rows != []
    ensures Summary(sig, rows).tool == sig.tool && Summary(sig, rows).count == |rows| &&
            Truthful(Summary(sig, rows).claim, rows)
  {
    assert rows[0] in rows;
  }

  // ----- the rebuilt transcript

  /** A survivor's summary replaces its own response and nothing else. */
  lemma SurvivorContent(env: Env, cs: seq<Content>, threshold: nat, id: string, d: Content)
    requires Typed(cs) && d in cs && KindOf(d) == ResponseOf(id) && FateOf(env, cs, threshold, id).Survives?
    ensures var sig := FindCall(Calls(cs), id).value.sig;
            var rows := RowsIn(env, cs, sig);
            && rows != [] && rows[0].id == id && rows[0].answer == d
            && FateOf(env, cs, threshold, id).clone == Summarize(d, id, Summary(sig, rows))
    ensures KindOf(FateOf(env, cs, threshold, id).clone) == KindOf(d)
  {
    var sig := FindCall(Calls(cs), id).value.sig;
    RowOwned(env, cs, sig, 0);
    CollapsesIff(env, cs, threshold, sig);
    AnswerIs(cs, id, d);
    AnswerIs(cs, id, RowsIn(env, cs, sig)[0].answer);
    SummarizedParts(d.parts, id, Summary(sig, RowsIn(env, cs, sig)));
  }

  ghost predicate ActKeepsKind(env: Env, cs: seq<Content>, threshold: nat, c: Content)
  {
    Acted(env, cs, threshold, c).Some? ==> KindOf(Acted(env, cs, threshold, c).value) == KindOf(c)
  }

  lemma ActedKind(env: Env, cs: seq<Content>, threshold: nat, c: Content)
    requires Typed(cs) && c in cs
    ensures ActKeepsKind(env, cs, threshold, c)
  {
    if KindOf(c).ResponseOf? && FateOf(env, cs, threshold, KindOf(c).id).Survives? {
      SurvivorContent(env, cs, threshold, KindOf(c).id, c);
    }
  }

  lemma ActedPair(env: Env, cs: seq<Content>, threshold: nat, c: Content, d: Content, id: string)
    requires KindOf(c) == CallOf(id) && KindOf(d) == ResponseOf(id)
    ensures Acted(env, cs, threshold, c).Some? <==> Acted(env, cs, threshold, d).Some?
  {
  }

  lemma ActKeeps(env: Env, cs: seq<Content>, threshold: nat)
    requires Typed(cs)
    ensures KeepsKinds(cs, Act(env, cs, threshold)) && KeepsPairs(cs, Act(env, cs, threshold))
  {
    forall c | c in cs ensures ActKeepsKind(env, cs, threshold, c) {
      ActedKind(env, cs, threshold, c);
    }
    forall c, d, id | c in cs && d in cs && KindOf(c) == CallOf(id) && KindOf(d) == ResponseOf(id)
      ensures Acted(env, cs, threshold, c).Some? <==> Acted(env, cs, threshold, d).Some?
    {
      ActedPair(env, cs, threshold, c, d, id);
    }
  }

  lemma Output(env: Env, cs: seq<Content>, threshold: nat) returns (out: seq<Content>)
    requires Typed(cs) && Compact(env, cs, threshold).Edited?
    ensures out == Compact(env, cs, threshold).contents == Rebuild(cs, Act(env, cs, threshold))
    ensures Typed(out)
    ensures forall c <- cs :: Acted(env, cs, threshold, c).Some? ==> Acted(env, cs, threshold, c).value in out
  {
    CompactIsRebuild(env, cs, threshold);
    out := Compact(env, cs, threshold).contents;
    ActKeeps(env, cs, threshold);
    RebuildTyped(cs, Act(env, cs, threshold));
    forall c | c in cs && Acted(env, cs, threshold, c).Some? ensures Acted(env, cs, threshold, c).value in out {
      RebuildMembers(cs, Act(env, cs, threshold), Acted(env, cs, threshold, c).value);
    }
  }

  ghost predicate Collapsed(env: Env, cs: seq<Content>, threshold: nat, sig: Sig)
  {
    Survivor(env, cs, threshold, sig).Some?
  }

  /** Neither half of the call is in the output. */
  ghost predicate Gone(out: seq<Content>, id: string)
  {
    !Has(out, CallOf(id)) && !Has(out, ResponseOf(id))
  }

  /** The call content is untouched and the response content is its own summary. */
  ghost predicate Summarized(cs: seq<Content>, out: seq<Content>, id: string, s: Payload)
  {
    && (forall c <- cs :: KindOf(c) == CallOf(id) ==> c in out)
    && (forall d <- cs :: KindOf(d) == ResponseOf(id) ==> Summarize(d, id, s) in out)
    && (forall d <- out :: KindOf(d) == ResponseOf(id) ==> Result(d.parts) == s)
  }

  /** A collapsed group makes the rule edit. */
  lemma CollapsedEdits(env: Env, cs: seq<Content>, threshold: nat, sig: Sig)
    requires Typed(cs) && Collapsed(env, cs, threshold, sig)
    ensures Compact(env, cs, threshold).Edited?
  {
    var id := MembersIn(env, cs, sig)[0];
    MembersCalling(env, cs, sig, id);
    GroupFates(env, cs, threshold, sig, id);
    RowOwned(env, cs, sig, 0);
    var d := RowsIn(env, cs, sig)[0].answer;
    var i :| 0 <= i < |cs| && cs[i] == d;
    EditAgrees(env, cs, threshold, i, id);
    assert i in EditOf(env, cs, threshold).clones;
    CompactIsRebuild(env, cs, threshold);
  }

  lemma GoesGone(env: Env, cs: seq<Content>, threshold: nat, id: string)
    requires Typed(cs) && Compact(env, cs, threshold).Edited? && FateOf(env, cs, threshold, id).Goes?
    ensures Gone(Compact(env, cs, threshold).contents, id)
  {
    var out := Output(env, cs, threshold);
    var f := Act(env, cs, threshold);
    ActKeeps(env, cs, threshold);
    RebuildHas(cs, f, CallOf(id));
    RebuildHas(cs, f, ResponseOf(id));
  }

  lemma SurvivorCallStays(env: Env, cs: seq<Content>, threshold: nat, id: string, c: Content)
    requires Typed(cs) && Compact(env, cs, threshold).Edited? && FateOf(env, cs, threshold, id).Survives?
    requires c in cs && KindOf(c) == CallOf(id)
    ensures c in Compact(env, cs, threshold).contents
  {
    var out := Output(env, cs, threshold);
    assert Acted(env, cs, threshold, c) == Some(c);
  }

  lemma SurvivorAnswerShown(env: Env, cs: seq<Content>, threshold: nat, id: string, d: Content)
    requires Typed(cs) && Compact(env, cs, threshold).Edited? && FateOf(env, cs, threshold, id).Survives?
    requires d in cs && KindOf(d) == ResponseOf(id)
    ensures var sig := FindCall(Calls(cs), id).value.sig;
            var rows := RowsIn(env, cs, sig);
            rows != [] && Summarize(d, id, Summary(sig, rows)) in Compact(env, cs, threshold).contents
  {
    var out := Output(env, cs, threshold);
    SurvivorContent(env, cs, threshold, id, d);
    assert Acted(env, cs, threshold, d) == Some(FateOf(env, cs, threshold, id).clone);
  }

  lemma SurvivesSummarized(env: Env, cs: seq<Content>, threshold: nat, id: string, sig: Sig)
    requires Typed(cs) && Compact(env, cs, threshold).Edited?
    requires FateOf(env, cs, threshold, id).Survives? && Calling(cs, id, sig)
    ensures RowsIn(env, cs, sig) != []
    ensures Summarized(cs, Compact(env, cs, threshold).contents, id, Summary(sig, RowsIn(env, cs, sig)))
  {
    var out, rows := Compact(env, cs, threshold).contents, RowsIn(env, cs, sig);
    forall c | c in cs && KindOf(c) == CallOf(id) ensures c in out {
      SurvivorCallStays(env, cs, threshold, id, c);
    }
    forall d | d in cs && KindOf(d) == ResponseOf(id)
      ensures rows != [] && Summarize(d, id, Summary(sig, rows)) in out
    {
      SurvivorAnswerShown(env, cs, threshold, id, d);
    }
    forall d | d in out && KindOf(d) == ResponseOf(id) ensures rows != [] && Result(d.parts) == Summary(sig, rows) {
      SurvivorResult(env, cs, threshold, id, d);
    }
  }

  /** The only response content of a survivor in the output is the summary. */
  lemma SurvivorResult(env: Env, cs: seq<Content>, threshold: nat, id: string, d: Content)
    requires Typed(cs) && Compact(env, cs, threshold).Edited? && FateOf(env, cs, threshold, id).Survives?
    requires d in Compact(env, cs, threshold).contents && KindOf(d) == ResponseOf(id)
    ensures var sig := FindCall(Calls(cs), id).value.sig;
            var rows := RowsIn(env, cs, sig);
            rows != [] && Result(d.parts) == Summary(sig, rows)
  {
    var out := Output(env, cs, threshold);
    ActKeeps(env, cs, threshold);
    RebuildMembers(cs, Act(env, cs, threshold), d);
    var c :| c in cs && Act(env, cs, threshold)(c) == Some(d);
    assert KindOf(c) == ResponseOf(id);
    SurvivorContent(env, cs, threshold, id, c);
    SummarizedParts(c.parts, id, Summary(FindCall(Calls(cs), id).value.sig,
        RowsIn(env, cs, FindCall(Calls(cs), id).value.sig)));
  }

  /** What becomes of a group of repeated failures: one survivor that keeps its id and call and tells
      the truth about the results, and no trace of either half of the others. */
  lemma CollapsedGroup(env: Env, cs: seq<Content>, threshold: nat, sig: Sig)
    requires Typed(cs) && Collapsed(env, cs, threshold, sig)
    ensures Compact(env, cs, threshold).Edited?
    ensures var m, rows, out := MembersIn(env, cs, sig), RowsIn(env, cs, sig), Compact(env, cs, threshold).contents;
            && Summarized(cs, out, m[0], Summary(sig, rows))
            && Truthful(Summary(sig, rows).claim, rows) && Summary(sig, rows).count == |m|
            && forall k :: 1 <= k < |m| ==> Gone(out, m[k])
  {
    var m := MembersIn(env, cs, sig);
    CollapsedEdits(env, cs, threshold, sig);
    MembersCalling(env, cs, sig, m[0]);
    GroupFates(env, cs, threshold, sig, m[0]);
    SurvivesSummarized(env, cs, threshold, m[0], sig);
    SummaryTruthful(sig, RowsIn(env, cs, sig));
    forall k | 1 <= k < |m| ensures Gone(Compact(env, cs, threshold).contents, m[k]) {
      TailOfMembers(env, cs, sig, m[k]);
      assert m[1..][k - 1] == m[k];
      MembersCalling(env, cs, sig, m[k]);
      GroupFates(env, cs, threshold, sig, m[k]);
      GoesGone(env, cs, threshold, m[k]);
    }
  }

  /** Every call outside a collapsed group, and every plain content, is left exactly as it was. */
  lemma OthersUntouched(env: Env, cs: seq<Content>, threshold: nat, c: Content)
    requires Typed(cs) && Compact(env, cs, threshold).Edited? && c in cs
    requires forall sig, id :: Collapsed(env, cs, threshold, sig) && id in MembersIn(env, cs, sig) ==> !BelongsTo(c, id)
    ensures c in Compact(env, cs, threshold).contents
  {
    var out := Output(env, cs, threshold);
    var k := KindOf(c);
    if (k.CallOf? || k.ResponseOf?) && !FateOf(env, cs, threshold, k.id).Stays? {
      var sig := FindCall(Calls(cs), k.id).value.sig;
      MembersCalling(env, cs, sig, k.id);
      assert BelongsTo(c, k.id);
    }
    assert Acted(env, cs, threshold, c) == Some(c);
  }

  /** Contents that belong to different calls are different contents, at different places. */
  lemma OwnedDisjoint(cs: seq<Content>, a: string, b: string)
    requires Typed(cs) && Known(cs, Calls(cs), Answers(cs), a) && Known(cs, Calls(cs), Answers(cs), b) && a != b
    ensures DropRows(Calls(cs), Answers(cs), [a]) !! DropRows(Calls(cs), Answers(cs), [b])
  {
    forall i | i in DropRows(Calls(cs), Answers(cs), [a]) ensures i !in DropRows(Calls(cs), Answers(cs), [b]) {
      DropRowsTool(cs, [a], i);
      DropRowsAt(cs, [a], i);
      DropRowsAt(cs, [b], i);
    }
  }

  // ----- the editor's gates

  lemma CompactNonEmpty(env: Env, cs: seq<Content>, threshold: nat)
    requires Typed(cs) && threshold >= 2 && Compact(env, cs, threshold).Edited?
    ensures Compact(env, cs, threshold).contents != []
  {
    var out := Output(env, cs, threshold);
    CompactionShrinks(env, cs, threshold);
    assert cs != [];
    var c := cs[0];
    var k := KindOf(c);
    if out == [] {
      assert Acted(env, cs, threshold, c).None?;
      var sig := FindCall(Calls(cs), k.id).value.sig;
      CollapsedGroup(env, cs, threshold, sig);
      RowOwned(env, cs, sig, 0);
    }
  }

  /** Compaction passes every gate of the editor and keeps the transcript well-formed. */
  lemma CompactClean(env: Env, cs: seq<Content>, threshold: nat)
    requires WellFormed(cs) && threshold >= 2
    ensures Clean(env, false, cs, Compact(env, cs, threshold))
  {
    CompactIsRebuild(env, cs, threshold);
    if Compact(env, cs, threshold).Edited? {
      ActKeeps(env, cs, threshold);
      RebuildWellFormed(cs, Act(env, cs, threshold));
      CompactNonEmpty(env, cs, threshold);
      CompactionShrinks(env, cs, threshold);
    }
  }
}
