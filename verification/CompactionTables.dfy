/** Compaction on typed transcripts: what the lookup tables and groups contain. */
module CompactionTables {
  import opened Options
  import opened Transcript
  import opened Compaction

  function CallSig(ps: seq<Part>): (r: Sig)
  {
    if ps == [] then Sig("", "") else if ps[0].Call? then Sig(ps[0].tool, ps[0].args) else CallSig(ps[1..])
  }

  function Result(ps: seq<Part>): (r: Payload)
  {
    if ps == [] then Redacted else if ps[0].Response? then ps[0].payload else Result(ps[1..])
  }

  lemma {:induction false} CallsInTyped(ps: seq<Part>, at: nat, calls: seq<Located>)
    requires !PartsKind(ps).Mixed?
    ensures var k := PartsKind(ps);
            CallsIn(ps, at, calls) ==
              if k.CallOf? && FindCall(calls, k.id).None? then calls + [Located(k.id, at, CallSig(ps))] else calls
    decreases |ps|
  {
    if ps != [] {
      var next := AddCall(calls, ps[0], at);
      CallsInTyped(ps[1..], at, next);
      if next != calls {
        assert next[|calls|] in next;
      }
    }
  }

  lemma {:induction false} AnswersInTyped(ps: seq<Part>, at: nat, answers: seq<Answer>)
    requires !PartsKind(ps).Mixed?
    ensures var k := PartsKind(ps);
            AnswersIn(ps, at, answers) ==
              if k.ResponseOf? && FindAnswer(answers, k.id).None? then answers + [Answer(k.id, at, Result(ps))]
                  else answers
    decreases |ps|
  {
    if ps != [] {
      var next := AddAnswer(answers, ps[0], at);
      AnswersInTyped(ps[1..], at, next);
      if next != answers {
        assert next[|answers|] in next;
      }
    }
  }

  /** The entry says where the one call content of its id is, and what it calls. */
  ghost predicate CallEntry(cs: seq<Content>, e: Located)
  {
    e.at < |cs| && KindOf(cs[e.at]) == CallOf(e.id) && e.sig == CallSig(cs[e.at].parts)
  }

  ghost predicate AnswerEntry(cs: seq<Content>, e: Answer)
  {
    e.at < |cs| && KindOf(cs[e.at]) == ResponseOf(e.id) && e.payload == Result(cs[e.at].parts)
  }

  lemma TypedFront(cs: seq<Content>)
    requires Typed(cs) && cs != []
    ensures Typed(cs[..|cs| - 1]) && !KindOf(cs[|cs| - 1]).Mixed?
    ensures !KindOf(cs[|cs| - 1]).Plain? ==> !Has(cs[..|cs| - 1], KindOf(cs[|cs| - 1]))
  {
    var front, last := cs[..|cs| - 1], cs[|cs| - 1];
    assert last in cs;
    forall c | c in front && KindOf(c) == KindOf(last) ensures KindOf(c).Plain? {
      var i :| 0 <= i < |front| && front[i] == c;
      assert cs[i] == c;
    }
  }

  lemma {:induction false} CallsTyped(cs: seq<Content>)
    requires Typed(cs)
    ensures forall e :: e in Calls(cs) <==> CallEntry(cs, e)
    ensures cs != [] ==>
              var front, last := cs[..|cs| - 1], cs[|cs| - 1];
              Calls(cs) == if KindOf(last).CallOf? then Calls(front) +
                  [Located(KindOf(last).id, |cs| - 1, CallSig(last.parts))] else Calls(front)
  {
    if cs != [] {
      var front, last := cs[..|cs| - 1], cs[|cs| - 1];
      TypedFront(cs);
      CallsTyped(front);
      CallsInTyped(last.parts, |cs| - 1, Calls(front));
      forall e | e in Calls(front) ensures CallOf(e.id) != KindOf(last) {
        assert CallEntry(front, e);
        assert front[e.at] in front;
      }
      forall e ensures e in Calls(cs) <==> CallEntry(cs, e) {
        assert e in Calls(front) <==> CallEntry(front, e);
      }
    }
  }

  lemma {:induction false} AnswersTyped(cs: seq<Content>)
    requires Typed(cs)
    ensures forall e :: e in Answers(cs) <==> AnswerEntry(cs, e)
  {
    if cs != [] {
      var front, last := cs[..|cs| - 1], cs[|cs| - 1];
      TypedFront(cs);
      AnswersTyped(front);
      AnswersInTyped(last.parts, |cs| - 1, Answers(front));
      forall e | e in Answers(front) ensures ResponseOf(e.id) != KindOf(last) {
        assert AnswerEntry(front, e);
        assert front[e.at] in front;
      }
      forall e ensures e in Answers(cs) <==> AnswerEntry(cs, e) {
        assert e in Answers(front) <==> AnswerEntry(front, e);
      }
    }
  }

  /** Lookups in a typed transcript find exactly the content of the right kind. */
  lemma CallAt(cs: seq<Content>, i: nat)
    requires Typed(cs) && i < |cs| && KindOf(cs[i]).CallOf?
    ensures FindCall(Calls(cs), KindOf(cs[i]).id) == Some(Located(KindOf(cs[i]).id, i, CallSig(cs[i].parts)))
  {
    CallsTyped(cs);
    var id := KindOf(cs[i]).id;
    assert CallEntry(cs, Located(id, i, CallSig(cs[i].parts)));
    var e := FindCall(Calls(cs), id);
    assert e.Some? && CallEntry(cs, e.value);
  }

  lemma AnswerAt(cs: seq<Content>, i: nat)
    requires Typed(cs) && i < |cs| && KindOf(cs[i]).ResponseOf?
    ensures FindAnswer(Answers(cs), KindOf(cs[i]).id) == Some(Answer(KindOf(cs[i]).id, i, Result(cs[i].parts)))
  {
    AnswersTyped(cs);
    var id := KindOf(cs[i]).id;
    assert AnswerEntry(cs, Answer(id, i, Result(cs[i].parts)));
    var e := FindAnswer(Answers(cs), id);
    assert e.Some? && AnswerEntry(cs, e.value);
  }

  // ----- groups by signature

  ghost predicate DistinctIds(calls: seq<Located>)
  {
    forall i, j :: 0 <= i < j < |calls| ==> calls[i].id != calls[j].id
  }

  lemma CallsDistinct(cs: seq<Content>)
    requires Typed(cs)
    ensures DistinctIds(Calls(cs))
    decreases |cs|
  {
    if cs != [] {
      var front, last := cs[..|cs| - 1], cs[|cs| - 1];
      TypedFront(cs);
      CallsDistinct(front);
      CallsTyped(cs);
      CallsTyped(front);
      if KindOf(last).CallOf? {
        forall e | e in Calls(front) ensures e.id != KindOf(last).id {
          assert CallEntry(front, e);
          assert front[e.at] in front;
        }
      }
    }
  }

  /** The failed, answered calls with a signature, in transcript order. */
  function Members(env: Env, calls: seq<Located>, answers: seq<Answer>, sig: Sig): (r: seq<string>)
    ensures forall id <- r :: id in CallIdsOf(calls) && FailedCall(env, answers, id)
  {
    if calls == [] then []
    else
      var e, front := calls[|calls| - 1], Members(env, calls[..|calls| - 1], answers, sig);
      if e.sig == sig && FailedCall(env, answers, e.id) then front + [e.id] else front
  }

  function Listed(gs: seq<Group>, sig: Sig): (r: seq<string>)
  {
    if gs == [] then [] else if gs[0].sig == sig then gs[0].ids else Listed(gs[1..], sig)
  }

  ghost predicate DistinctSigs(gs: seq<Group>)
  {
    forall i, j :: 0 <= i < j < |gs| ==> gs[i].sig != gs[j].sig
  }

  lemma {:induction false} AddMemberListed(gs: seq<Group>, sig: Sig, id: string, s: Sig)
    ensures Listed(AddMember(gs, sig, id), s) == if s == sig then Listed(gs, s) + [id] else Listed(gs, s)
  {
    if gs != [] && gs[0].sig != sig {
      AddMemberListed(gs[1..], sig, id, s);
    }
  }

  /** Adding a member keeps the signatures in place and appends at most a new one. */
  lemma {:induction false} AddMemberSigs(gs: seq<Group>, sig: Sig, id: string)
    ensures var r := AddMember(gs, sig, id);
            && |gs| <= |r| <= |gs| + 1
            && (forall i :: 0 <= i < |gs| ==> r[i].sig == gs[i].sig)
            && (|r| > |gs| ==> r[|gs|].sig == sig && forall i :: 0 <= i < |gs| ==> gs[i].sig != sig)
  {
    if gs != [] && gs[0].sig != sig {
      AddMemberSigs(gs[1..], sig, id);
      var r := AddMember(gs, sig, id);
      assert r[1..] == AddMember(gs[1..], sig, id);
      forall i | 1 <= i < |gs| ensures r[i].sig == gs[i].sig && gs[i] == gs[1..][i - 1] {
        assert r[i] == r[1..][i - 1];
      }
    }
  }

  lemma {:induction false} GroupsListed(env: Env, calls: seq<Located>, answers: seq<Answer>, s: Sig)
    ensures Listed(Groups(env, calls, answers), s) == Members(env, calls, answers, s)
    ensures DistinctSigs(Groups(env, calls, answers))
  {
    GroupsDistinct(env, calls, answers);
    if calls != [] {
      var e, front := calls[|calls| - 1], calls[..|calls| - 1];
      GroupsListed(env, front, answers, s);
      AddMemberListed(Groups(env, front, answers), e.sig, e.id, s);
    }
  }

  lemma AddMemberDistinct(gs: seq<Group>, sig: Sig, id: string)
    requires DistinctSigs(gs)
    ensures DistinctSigs(AddMember(gs, sig, id))
  {
    AddMemberSigs(gs, sig, id);
  }

  lemma {:induction false} GroupsDistinct(env: Env, calls: seq<Located>, answers: seq<Answer>)
    ensures DistinctSigs(Groups(env, calls, answers))
  {
    if calls != [] {
      var e, front := calls[|calls| - 1], calls[..|calls| - 1];
      GroupsDistinct(env, front, answers);
      AddMemberDistinct(Groups(env, front, answers), e.sig, e.id);
    }
  }

  lemma {:induction false} ListedGroup(gs: seq<Group>, g: Group)
    requires DistinctSigs(gs) && g in gs
    ensures Listed(gs, g.sig) == g.ids
  {
    if gs[0] != g {
      var i :| 0 <= i < |gs| && gs[i] == g;
      assert gs[1..][i - 1] == g;
      ListedGroup(gs[1..], g);
    }
  }

  lemma {:induction false} ListedExists(gs: seq<Group>, s: Sig)
    requires Listed(gs, s) != []
    ensures exists g :: g in gs && g.sig == s && g.ids == Listed(gs, s)
  {
    if gs[0].sig == s {
      assert gs[0] in gs;
    } else {
      ListedExists(gs[1..], s);
      var g :| g in gs[1..] && g.sig == s && g.ids == Listed(gs, s);
      assert g in gs;
    }
  }

  ghost predicate NoRepeat(ids: seq<string>)
  {
    forall i, j :: 0 <= i < j < |ids| ==> ids[i] != ids[j]
  }

  lemma LastIsNew(calls: seq<Located>)
    requires DistinctIds(calls) && calls != []
    ensures calls[|calls| - 1].id !in CallIdsOf(calls[..|calls| - 1])
  {
    var front := calls[..|calls| - 1];
    forall f | f in front ensures f.id != calls[|calls| - 1].id {
      var k :| 0 <= k < |front| && front[k] == f;
      assert calls[k] == f;
    }
  }

  lemma {:induction false} MembersSpec(env: Env, calls: seq<Located>, answers: seq<Answer>, sig: Sig, e: Located)
    requires DistinctIds(calls) && e in calls
    ensures e.id in Members(env, calls, answers, sig) <==> e.sig == sig && FailedCall(env, answers, e.id)
  {
    var last, front := calls[|calls| - 1], calls[..|calls| - 1];
    assert calls == front + [last];
    LastIsNew(calls);
    if e != last {
      assert e in front;
      MembersSpec(env, front, answers, sig, e);
      assert e.id in CallIdsOf(front);
    }
  }

  lemma {:induction false} MembersDistinct(env: Env, calls: seq<Located>, answers: seq<Answer>, sig: Sig)
    requires DistinctIds(calls)
    ensures NoRepeat(Members(env, calls, answers, sig))
  {
    if calls != [] {
      var last, front := calls[|calls| - 1], calls[..|calls| - 1];
      MembersDistinct(env, front, answers, sig);
      LastIsNew(calls);
      var m := Members(env, front, answers, sig);
      forall i | 0 <= i < |m| ensures m[i] != last.id {
        assert m[i] in m;
      }
      assert NoRepeat(m + [last.id]);
    }
  }
}
