/** Compaction applied to its own output changes nothing. */
module CompactionFixpoint {
  import opened Options
  import opened Transcript
  import opened Editor
  import opened Compaction
  import opened CompactionTables
  import opened CompactionLaws
  import opened CompactionOutcome

  /** A call content of the output is an untouched call content of the input. */
  lemma OutputCall(env: Env, cs: seq<Content>, threshold: nat, id: string, c: Content)
    requires Typed(cs) && Compact(env, cs, threshold).Edited?
    requires c in Compact(env, cs, threshold).contents && KindOf(c) == CallOf(id)
    ensures c in cs
  {
    var out := Output(env, cs, threshold);
    ActKeeps(env, cs, threshold);
    RebuildMembers(cs, Act(env, cs, threshold), c);
    var d :| d in cs && Act(env, cs, threshold)(d) == Some(c);
    assert KindOf(d) == CallOf(id);
  }

  lemma OutputAnswer(env: Env, cs: seq<Content>, threshold: nat, id: string, d: Content)
    requires Typed(cs) && Compact(env, cs, threshold).Edited?
    requires d in Compact(env, cs, threshold).contents && KindOf(d) == ResponseOf(id)
    ensures if FateOf(env, cs, threshold, id).Survives? then !Failed(env, Result(d.parts))
            else FateOf(env, cs, threshold, id).Stays? && d in cs
  {
    var out := Output(env, cs, threshold);
    if FateOf(env, cs, threshold, id).Survives? {
      SurvivorResult(env, cs, threshold, id, d);
    } else {
      ActKeeps(env, cs, threshold);
      RebuildMembers(cs, Act(env, cs, threshold), d);
      var c :| c in cs && Act(env, cs, threshold)(c) == Some(d);
      assert KindOf(c) == ResponseOf(id);
    }
  }

  lemma AnswerFound(cs: seq<Content>, id: string) returns (d: Content)
    requires Typed(cs) && FindAnswer(Answers(cs), id).Some?
    ensures d in cs && KindOf(d) == ResponseOf(id)
  {
    AnswersTyped(cs);
    assert AnswerEntry(cs, FindAnswer(Answers(cs), id).value);
    d := cs[FindAnswer(Answers(cs), id).value.at];
  }

  /** A call that stays is answered as before. */
  lemma SameAnswer(env: Env, cs: seq<Content>, threshold: nat, id: string)
    requires Typed(cs) && Compact(env, cs, threshold).Edited? && FateOf(env, cs, threshold, id).Stays?
    ensures var out := Compact(env, cs, threshold).contents;
            FailedCall(env, Answers(out), id) <==> FailedCall(env, Answers(cs), id)
  {
    var out := Output(env, cs, threshold);
    if FindAnswer(Answers(out), id).Some? {
      var d := AnswerFound(out, id);
      OutputAnswer(env, cs, threshold, id, d);
      AnswerIs(out, id, d);
      AnswerIs(cs, id, d);
    } else if FindAnswer(Answers(cs), id).Some? {
      var d := AnswerFound(cs, id);
      assert Acted(env, cs, threshold, d) == Some(d);
      AnswerIs(out, id, d);
    }
  }

  /** Nothing of a collapsed group is still a failed call. */
  lemma CollapsedIsSpent(env: Env, cs: seq<Content>, threshold: nat, sig: Sig, id: string)
    requires Typed(cs) && Compact(env, cs, threshold).Edited? && Collapsed(env, cs, threshold, sig)
    ensures id !in MembersIn(env, Compact(env, cs, threshold).contents, sig)
  {
    var out := Output(env, cs, threshold);
    if id in MembersIn(env, out, sig) {
      MembersCalling(env, out, sig, id);
      MemberKnown(env, out, sig, id);
      var c, d := Halves(out, id);
      OutputCall(env, cs, threshold, id, c);
      OutputAnswer(env, cs, threshold, id, d);
      CallIs(cs, id, c);
      CallIs(out, id, c);
      AnswerIs(out, id, d);
      GroupFates(env, cs, threshold, sig, id);
      MembersCalling(env, cs, sig, id);
      SameAnswer(env, cs, threshold, id);
    }
  }

  lemma Prefixed(cs: seq<Content>, n: nat)
    requires Typed(cs) && n <= |cs|
    ensures Typed(cs[..n]) && forall c <- cs[..n] :: c in cs
  {
  }

  /** One step of the scan over calls treats an uncollapsed group alike before and after. */
  lemma MembersSnoc(env: Env, cs: seq<Content>, answers: seq<Answer>, sig: Sig)
    requires Typed(cs) && cs != []
    ensures var front, last := cs[..|cs| - 1], cs[|cs| - 1];
            Members(env, Calls(cs), answers, sig) ==
              Members(env, Calls(front), answers, sig)
              + if KindOf(last).CallOf? && CallSig(last.parts) == sig && FailedCall(env, answers, KindOf(last).id)
                  then [KindOf(last).id] else []
  {
    CallsTyped(cs);
    var calls := Calls(cs);
    if KindOf(cs[|cs| - 1]).CallOf? {
      assert calls[..|calls| - 1] == Calls(cs[..|cs| - 1]);
    }
  }

  lemma MembersRebuiltSnoc(env: Env, cs: seq<Content>, f: Content -> Option<Content>, answers: seq<Answer>, sig: Sig)
    requires Typed(cs) && cs != [] && KeepsKinds(cs, f)
    ensures var front, last := cs[..|cs| - 1], cs[|cs| - 1];
            Members(env, Calls(Rebuild(cs, f)), answers, sig) ==
              Members(env, Calls(Rebuild(front, f)), answers, sig)
              + if f(last).Some? && KindOf(last).CallOf? && CallSig(f(last).value.parts) == sig &&
                  FailedCall(env, answers, KindOf(last).id)
                then [KindOf(last).id] else []
  {
    if f(cs[|cs| - 1]).Some? {
      RebuildTyped(cs, f);
      var r := Rebuild(cs, f);
      assert r[..|r| - 1] == Rebuild(cs[..|cs| - 1], f);
      MembersSnoc(env, r, answers, sig);
      assert cs[|cs| - 1] in cs;
    }
  }

  lemma {:induction false} MembersRebuilt(env: Env, cs: seq<Content>, threshold: nat, sig: Sig, n: nat)
    requires Typed(cs) && Compact(env, cs, threshold).Edited? && !Collapsed(env, cs, threshold, sig) && n <= |cs|
    ensures var out := Compact(env, cs, threshold).contents;
            Members(env, Calls(Rebuild(cs[..n], Act(env, cs, threshold))), Answers(out), sig) ==
                Members(env, Calls(cs[..n]), Answers(cs), sig)
    decreases n
  {
    if n > 0 {
      var out, f, last := Compact(env, cs, threshold).contents, Act(env, cs, threshold), cs[n - 1];
      MembersRebuilt(env, cs, threshold, sig, n - 1);
      assert cs[..n][..n - 1] == cs[..n - 1];
      Prefixed(cs, n);
      MembersSnoc(env, cs[..n], Answers(cs), sig);
      ActKeeps(env, cs, threshold);
      MembersRebuiltSnoc(env, cs[..n], f, Answers(out), sig);
      LastCall(env, cs, threshold, sig, n - 1);
    }
  }

  /** A call of an uncollapsed group is kept, and fails as before. */
  lemma LastCall(env: Env, cs: seq<Content>, threshold: nat, sig: Sig, i: nat)
    requires Typed(cs) && Compact(env, cs, threshold).Edited? && !Collapsed(env, cs, threshold, sig) && i < |cs|
    ensures KindOf(cs[i]).CallOf? ==> Acted(env, cs, threshold, cs[i]) in {None, Some(cs[i])}
    ensures KindOf(cs[i]).CallOf? && CallSig(cs[i].parts) == sig ==>
              && Acted(env, cs, threshold, cs[i]) == Some(cs[i])
              && (FailedCall(env, Answers(Compact(env, cs, threshold).contents), KindOf(cs[i]).id) <==>
                  FailedCall(env, Answers(cs), KindOf(cs[i]).id))
  {
    if KindOf(cs[i]).CallOf? && CallSig(cs[i].parts) == sig {
      var id := KindOf(cs[i]).id;
      CallIs(cs, id, cs[i]);
      GroupFates(env, cs, threshold, sig, id);
      SameAnswer(env, cs, threshold, id);
    }
  }

  lemma SameRow(env: Env, cs: seq<Content>, threshold: nat, id: string)
    requires Typed(cs) && Compact(env, cs, threshold).Edited? && FateOf(env, cs, threshold, id).Stays?
    requires var out := Compact(env, cs, threshold).contents;
             Known(out, Calls(out), Answers(out), id) && Known(cs, Calls(cs), Answers(cs), id)
    ensures var out := Compact(env, cs, threshold).contents;
            RowOf(out, Calls(out), Answers(out), id) == RowOf(cs, Calls(cs), Answers(cs), id)
  {
    var out := Output(env, cs, threshold);
    var c, d := Halves(out, id);
    OutputCall(env, cs, threshold, id, c);
    OutputAnswer(env, cs, threshold, id, d);
    CallIs(cs, id, c);
    AnswerIs(cs, id, d);
  }

  /** An uncollapsed group is found again with the same contents. */
  lemma UncollapsedSame(env: Env, cs: seq<Content>, threshold: nat, sig: Sig)
    requires Typed(cs) && Compact(env, cs, threshold).Edited? && !Collapsed(env, cs, threshold, sig)
    ensures RowsIn(env, Compact(env, cs, threshold).contents, sig) == RowsIn(env, cs, sig)
  {
    var out := Output(env, cs, threshold);
    MembersRebuilt(env, cs, threshold, sig, |cs|);
    assert cs[..|cs|] == cs;
    var m := MembersIn(env, cs, sig);
    MembersKnown(env, out, sig);
    MembersKnown(env, cs, sig);
    forall k | 0 <= k < |m| ensures RowsIn(env, out, sig)[k] == RowsIn(env, cs, sig)[k] {
      assert m[k] in m;
      MembersCalling(env, cs, sig, m[k]);
      GroupFates(env, cs, threshold, sig, m[k]);
      SameRow(env, cs, threshold, m[k]);
    }
  }

  lemma NothingLeft(env: Env, cs: seq<Content>, threshold: nat, sig: Sig)
    requires Typed(cs) && Compact(env, cs, threshold).Edited?
    ensures !Collapsed(env, Compact(env, cs, threshold).contents, threshold, sig)
  {
    var out := Compact(env, cs, threshold).contents;
    if Collapsed(env, cs, threshold, sig) {
      var m := MembersIn(env, out, sig);
      if m != [] {
        CollapsedIsSpent(env, cs, threshold, sig, m[0]);
      }
    } else {
      UncollapsedSame(env, cs, threshold, sig);
    }
  }

  lemma {:induction false} NoGroupEdits(env: Env, cs: seq<Content>, threshold: nat, gs: seq<Group>)
    requires GroupsIn(env, cs, gs) && forall sig :: !Collapsed(env, cs, threshold, sig)
    ensures EditGroups(env, cs, threshold, Calls(cs), Answers(cs), gs) == Edit({}, map[])
  {
    if gs != [] {
      var g := gs[|gs| - 1];
      NoGroupEdits(env, cs, threshold, gs[..|gs| - 1]);
      assert Rows(cs, Calls(cs), Answers(cs), g.ids) == RowsIn(env, cs, g.sig);
      assert !Collapsed(env, cs, threshold, g.sig);
    }
  }

  /** Compaction is settled after one pass. */
  lemma CompactIdempotent(env: Env, cs: seq<Content>, threshold: nat)
    requires Typed(cs) && Compact(env, cs, threshold).Edited?
    ensures Compact(env, Compact(env, cs, threshold).contents, threshold) == NoEdit
  {
    var out := Compact(env, cs, threshold).contents;
    forall sig ensures !Collapsed(env, out, threshold, sig) {
      NothingLeft(env, cs, threshold, sig);
    }
    GroupsAreIn(env, out);
    NoGroupEdits(env, out, threshold, Groups(env, Calls(out), Answers(out)));
  }
}
