/** Compaction as a per-call decision: which calls stay, which go, and which one survives for its group. */
module CompactionLaws {
  import opened Options
  import opened Transcript
  import opened Editor
  import opened Compaction
  import opened CompactionTables

  function MembersIn(env: Env, cs: seq<Content>, sig: Sig): (r: seq<string>)
  {
    Members(env, Calls(cs), Answers(cs), sig)
  }

  lemma MembersKnown(env: Env, cs: seq<Content>, sig: Sig)
    ensures AllKnown(cs, Calls(cs), Answers(cs), MembersIn(env, cs, sig))
  {
    CallsInOrder(cs);
    AnswersBounded(cs);
    var m := MembersIn(env, cs, sig);
    forall k | 0 <= k < |m| ensures Known(cs, Calls(cs), Answers(cs), m[k]) {
      assert m[k] in m;
      assert m[k] in CallIdsOf(Calls(cs)) && FailedCall(env, Answers(cs), m[k]);
    }
  }

  function RowsIn(env: Env, cs: seq<Content>, sig: Sig): (r: seq<Row>)
  {
    MembersKnown(env, cs, sig);
    Rows(cs, Calls(cs), Answers(cs), MembersIn(env, cs, sig))
  }

  /** The summarized response that stands for a collapsed group. */
  function Survivor(env: Env, cs: seq<Content>, threshold: nat, sig: Sig): (r: Option<Content>)
    ensures r.Some? ==> MembersIn(env, cs, sig) != []
  {
    Collapse(env, threshold, sig, RowsIn(env, cs, sig))
  }

  datatype Fate = Stays | Goes | Survives(clone: Content)

  function FateOf(env: Env, cs: seq<Content>, threshold: nat, id: string): (r: Fate)
  {
    var e := FindCall(Calls(cs), id);
    if e.None? || !FailedCall(env, Answers(cs), id) then Stays
    else
      var s := Survivor(env, cs, threshold, e.value.sig);
      if s.None? then Stays
      else if id == MembersIn(env, cs, e.value.sig)[0] then Survives(s.value)
      else Goes
  }

  /** What becomes of one content. */
  function Acted(env: Env, cs: seq<Content>, threshold: nat, c: Content): (r: Option<Content>)
  {
    match KindOf(c)
    case CallOf(id) => if FateOf(env, cs, threshold, id).Goes? then None else Some(c)
    case ResponseOf(id) =>
      (match FateOf(env, cs, threshold, id)
       case Stays => Some(c)
       case Goes => None
       case Survives(clone) => Some(clone))
    case _ => Some(c)
  }

  function Act(env: Env, cs: seq<Content>, threshold: nat): (f: Content -> Option<Content>)
  {
    (c: Content) => Acted(env, cs, threshold, c)
  }

  // ----- the index sets of the rule agree with the per-call decisions

  /** The call id a content belongs to. */
  ghost predicate BelongsTo(c: Content, id: string)
  {
    KindOf(c) == CallOf(id) || KindOf(c) == ResponseOf(id)
  }

  lemma KnownAt(cs: seq<Content>, id: string, i: nat)
    requires Typed(cs) && Known(cs, Calls(cs), Answers(cs), id) && i < |cs|
    ensures FindCall(Calls(cs), id).value.at == i <==> KindOf(cs[i]) == CallOf(id)
    ensures FindAnswer(Answers(cs), id).value.at == i <==> KindOf(cs[i]) == ResponseOf(id)
    ensures KindOf(cs[FindAnswer(Answers(cs), id).value.at]) == ResponseOf(id)
  {
    CallsTyped(cs);
    AnswersTyped(cs);
    assert CallEntry(cs, FindCall(Calls(cs), id).value);
    assert AnswerEntry(cs, FindAnswer(Answers(cs), id).value);
    if KindOf(cs[i]) == CallOf(id) {
      CallAt(cs, i);
    }
    if KindOf(cs[i]) == ResponseOf(id) {
      AnswerAt(cs, i);
    }
  }

  lemma {:induction false} DropRowsAt(cs: seq<Content>, ids: seq<string>, i: nat)
    requires AllKnown(cs, Calls(cs), Answers(cs), ids)
    requires Typed(cs) && i < |cs|
    ensures i in DropRows(Calls(cs), Answers(cs), ids) <==> exists id :: id in ids && BelongsTo(cs[i], id)
  {
    if ids != [] {
      var front, last := ids[..|ids| - 1], ids[|ids| - 1];
      assert ids == front + [last];
      DropRowsAt(cs, front, i);
      KnownAt(cs, last, i);
      if BelongsTo(cs[i], last) {
        assert last in ids;
      }
    }
  }

  /** The call with this id has the given signature. */
  ghost predicate Calling(cs: seq<Content>, id: string, sig: Sig)
  {
    FindCall(Calls(cs), id).Some? && FindCall(Calls(cs), id).value.sig == sig
  }

  ghost predicate SigBefore(gs: seq<Group>, cs: seq<Content>, id: string)
  {
    exists g :: g in gs && Calling(cs, id, g.sig)
  }

  /** The edit after some groups says of one content what the fate of its call says. */
  ghost predicate Agrees(cs: seq<Content>, fate: Fate, covered: bool, e: Edit, i: nat)
    requires i < |cs|
  {
    && (i in e.drops <==> fate.Goes? && covered)
    && (i in e.clones <==> KindOf(cs[i]).ResponseOf? && fate.Survives? && covered)
    && (i in e.clones ==> fate == Survives(e.clones[i]))
  }

  ghost predicate Matches(env: Env, cs: seq<Content>, threshold: nat, gs: seq<Group>, e: Edit)
  {
    forall i, id :: 0 <= i < |cs| && BelongsTo(cs[i], id) ==>
      Agrees(cs, FateOf(env, cs, threshold, id), SigBefore(gs, cs, id), e, i)
  }

  ghost predicate ToolOnly(cs: seq<Content>, e: Edit)
  {
    && (forall i <- e.drops :: IsTool(cs, i))
    && (forall i <- e.clones :: IsTool(cs, i))
  }

  lemma MembersCalling(env: Env, cs: seq<Content>, sig: Sig, id: string)
    requires Typed(cs)
    ensures id in MembersIn(env, cs, sig) <==> Calling(cs, id, sig) && FailedCall(env, Answers(cs), id)
  {
    CallsDistinct(cs);
    var e := FindCall(Calls(cs), id);
    if e.Some? {
      MembersSpec(env, Calls(cs), Answers(cs), sig, e.value);
    }
    if id in MembersIn(env, cs, sig) {
      assert id in CallIdsOf(Calls(cs));
    }
  }

  lemma TailOfMembers(env: Env, cs: seq<Content>, sig: Sig, id: string)
    requires Typed(cs) && MembersIn(env, cs, sig) != []
    ensures var m := MembersIn(env, cs, sig);
            id in m[1..] <==> id in m && id != m[0]
  {
    CallsDistinct(cs);
    MembersDistinct(env, Calls(cs), Answers(cs), sig);
    var m := MembersIn(env, cs, sig);
    assert m == [m[0]] + m[1..];
  }

  /** Within a group: the first member survives, the others go, or all stay. */
  lemma GroupFates(env: Env, cs: seq<Content>, threshold: nat, sig: Sig, id: string)
    requires Typed(cs) && Calling(cs, id, sig)
    ensures var m, s := MembersIn(env, cs, sig), Survivor(env, cs, threshold, sig);
            FateOf(env, cs, threshold, id) ==
              if s.None? || id !in m then Stays else if id == m[0] then Survives(s.value) else Goes
  {
    MembersCalling(env, cs, sig, id);
  }

  lemma SigBeforeSnoc(gs: seq<Group>, g: Group, cs: seq<Content>, id: string)
    ensures SigBefore(gs + [g], cs, id) <==> SigBefore(gs, cs, id) || Calling(cs, id, g.sig)
  {
    assert g in gs + [g];
    if SigBefore(gs, cs, id) {
      var h :| h in gs && Calling(cs, id, h.sig);
      assert h in gs + [g];
    }
  }

  ghost predicate GroupIn(env: Env, cs: seq<Content>, g: Group)
  {
    g.ids != [] && g.ids == MembersIn(env, cs, g.sig) && AllKnown(cs, Calls(cs), Answers(cs), g.ids)
  }

  ghost predicate GroupsIn(env: Env, cs: seq<Content>, gs: seq<Group>)
  {
    forall k :: 0 <= k < |gs| ==> GroupIn(env, cs, gs[k])
  }

  lemma OneOwner(c: Content, id: string, ids: seq<string>)
    requires BelongsTo(c, id)
    ensures (exists x :: x in ids && BelongsTo(c, x)) <==> id in ids
  {
  }

  /** The other members of a collapsed group lose both contents. */
  lemma DropsStep(env: Env, cs: seq<Content>, threshold: nat, g: Group, i: nat, id: string)
    requires Typed(cs) && GroupIn(env, cs, g) && Survivor(env, cs, threshold, g.sig).Some?
    requires i < |cs| && BelongsTo(cs[i], id)
    ensures i in DropRows(Calls(cs), Answers(cs), g.ids[1..]) <==>
            FateOf(env, cs, threshold, id).Goes? && Calling(cs, id, g.sig)
  {
    DropRowsAt(cs, g.ids[1..], i);
    TailOfMembers(env, cs, g.sig, id);
    MembersCalling(env, cs, g.sig, id);
    OneOwner(cs[i], id, g.ids[1..]);
    if Calling(cs, id, g.sig) {
      GroupFates(env, cs, threshold, g.sig, id);
    }
  }

  /** The first member keeps its call, and its response is replaced by the summary. */
  lemma ClonesStep(env: Env, cs: seq<Content>, threshold: nat, g: Group, i: nat, id: string)
    requires Typed(cs) && GroupIn(env, cs, g) && Survivor(env, cs, threshold, g.sig).Some?
    requires i < |cs| && BelongsTo(cs[i], id)
    ensures i == FindAnswer(Answers(cs), g.ids[0]).value.at <==>
            KindOf(cs[i]).ResponseOf? && FateOf(env, cs, threshold, id).Survives? && Calling(cs, id, g.sig)
    ensures i == FindAnswer(Answers(cs), g.ids[0]).value.at ==>
              FateOf(env, cs, threshold, id) == Survives(Survivor(env, cs, threshold, g.sig).value)
  {
    KnownAt(cs, g.ids[0], i);
    MembersCalling(env, cs, g.sig, id);
    assert g.ids[0] in g.ids;
    if Calling(cs, id, g.sig) {
      GroupFates(env, cs, threshold, g.sig, id);
    }
  }

  /** What one collapsed group adds to the edit. */
  lemma AgreesStep(env: Env, cs: seq<Content>, threshold: nat, e: Edit, g: Group, i: nat, id: string, covered: bool)
    requires Typed(cs) && GroupIn(env, cs, g) && i < |cs| && BelongsTo(cs[i], id)
    requires Agrees(cs, FateOf(env, cs, threshold, id), covered, e, i)
    ensures var next := EditGroup(env, cs, threshold, Calls(cs), Answers(cs), e, g);
            Agrees(cs, FateOf(env, cs, threshold, id), covered || Calling(cs, id, g.sig), next, i)
  {
    assert Rows(cs, Calls(cs), Answers(cs), g.ids) == RowsIn(env, cs, g.sig);
    if Survivor(env, cs, threshold, g.sig).None? {
      if Calling(cs, id, g.sig) {
        GroupFates(env, cs, threshold, g.sig, id);
      }
    } else {
      DropsStep(env, cs, threshold, g, i, id);
      ClonesStep(env, cs, threshold, g, i, id);
    }
  }

  ghost predicate IsTool(cs: seq<Content>, i: nat)
  {
    i < |cs| && (KindOf(cs[i]).CallOf? || KindOf(cs[i]).ResponseOf?)
  }

  lemma {:induction false} DropRowsTool(cs: seq<Content>, ids: seq<string>, i: nat)
    requires Typed(cs) && AllKnown(cs, Calls(cs), Answers(cs), ids)
    requires i in DropRows(Calls(cs), Answers(cs), ids)
    ensures IsTool(cs, i)
  {
    var front, last := ids[..|ids| - 1], ids[|ids| - 1];
    if i in DropRows(Calls(cs), Answers(cs), front) {
      DropRowsTool(cs, front, i);
    } else {
      assert Known(cs, Calls(cs), Answers(cs), last);
      KnownAt(cs, last, i);
    }
  }

  lemma ToolOnlyStep(env: Env, cs: seq<Content>, threshold: nat, e: Edit, g: Group)
    requires Typed(cs) && GroupIn(env, cs, g) && ToolOnly(cs, e)
    ensures ToolOnly(cs, EditGroup(env, cs, threshold, Calls(cs), Answers(cs), e, g))
  {
    var tail := g.ids[1..];
    forall i | i in DropRows(Calls(cs), Answers(cs), tail) ensures IsTool(cs, i) {
      DropRowsTool(cs, tail, i);
    }
    var at := FindAnswer(Answers(cs), g.ids[0]).value.at;
    KnownAt(cs, g.ids[0], at);
  }

  lemma {:induction false} EditMatches(env: Env, cs: seq<Content>, threshold: nat, gs: seq<Group>)
    requires Typed(cs) && GroupsIn(env, cs, gs)
    ensures var e := EditGroups(env, cs, threshold, Calls(cs), Answers(cs), gs);
            Matches(env, cs, threshold, gs, e) && ToolOnly(cs, e)
  {
    if gs != [] {
      var front, g := gs[..|gs| - 1], gs[|gs| - 1];
      assert gs == front + [g];
      EditMatches(env, cs, threshold, front);
      var e := EditGroups(env, cs, threshold, Calls(cs), Answers(cs), front);
      ToolOnlyStep(env, cs, threshold, e, g);
      forall i, id | 0 <= i < |cs| && BelongsTo(cs[i], id)
        ensures Agrees(cs, FateOf(env, cs, threshold, id), SigBefore(gs, cs, id),
                EditGroup(env, cs, threshold, Calls(cs), Answers(cs), e, g), i)
      {
        SigBeforeSnoc(front, g, cs, id);
        AgreesStep(env, cs, threshold, e, g, i, id, SigBefore(front, cs, id));
      }
    }
  }

  lemma GroupsAreIn(env: Env, cs: seq<Content>)
    ensures GroupsIn(env, cs, Groups(env, Calls(cs), Answers(cs)))
  {
    var gs := Groups(env, Calls(cs), Answers(cs));
    GroupsKnown(env, cs);
    forall k | 0 <= k < |gs| ensures GroupIn(env, cs, gs[k]) {
      GroupsListed(env, Calls(cs), Answers(cs), gs[k].sig);
      ListedGroup(gs, gs[k]);
    }
  }

  /** A call whose fate is not to stay is in one of the groups. */
  lemma FatedIsGrouped(env: Env, cs: seq<Content>, threshold: nat, id: string)
    requires Typed(cs) && !FateOf(env, cs, threshold, id).Stays?
    ensures SigBefore(Groups(env, Calls(cs), Answers(cs)), cs, id)
  {
    var gs, sig := Groups(env, Calls(cs), Answers(cs)), FindCall(Calls(cs), id).value.sig;
    MembersCalling(env, cs, sig, id);
    GroupsListed(env, Calls(cs), Answers(cs), sig);
    ListedExists(gs, sig);
  }

  function EditOf(env: Env, cs: seq<Content>, threshold: nat): (e: Edit)
  {
    GroupsKnown(env, cs);
    EditGroups(env, cs, threshold, Calls(cs), Answers(cs), Groups(env, Calls(cs), Answers(cs)))
  }

  lemma MatchAt(env: Env, cs: seq<Content>, threshold: nat, gs: seq<Group>, e: Edit, i: nat, id: string)
    requires Matches(env, cs, threshold, gs, e) && i < |cs| && BelongsTo(cs[i], id)
    ensures Agrees(cs, FateOf(env, cs, threshold, id), SigBefore(gs, cs, id), e, i)
  {
  }

  lemma EditAgrees(env: Env, cs: seq<Content>, threshold: nat, i: nat, id: string)
    requires Typed(cs) && i < |cs| && BelongsTo(cs[i], id)
    ensures Agrees(cs, FateOf(env, cs, threshold, id), true, EditOf(env, cs, threshold), i)
  {
    GroupsAreIn(env, cs);
    var gs := Groups(env, Calls(cs), Answers(cs));
    EditMatches(env, cs, threshold, gs);
    MatchAt(env, cs, threshold, gs, EditOf(env, cs, threshold), i, id);
    if !FateOf(env, cs, threshold, id).Stays? {
      FatedIsGrouped(env, cs, threshold, id);
    }
  }

  lemma EditIsToolOnly(env: Env, cs: seq<Content>, threshold: nat)
    requires Typed(cs)
    ensures ToolOnly(cs, EditOf(env, cs, threshold))
  {
    GroupsAreIn(env, cs);
    EditMatches(env, cs, threshold, Groups(env, Calls(cs), Answers(cs)));
  }

  function Effect(cs: seq<Content>, e: Edit, i: nat): (r: Option<Content>)
    requires i < |cs|
  {
    if i in e.drops then None else if i in e.clones then Some(e.clones[i]) else Some(cs[i])
  }

  /** The rule's index sets do to each content exactly what its call's fate says. */
  lemma EditActs(env: Env, cs: seq<Content>, threshold: nat, i: nat)
    requires Typed(cs) && i < |cs|
    ensures Acted(env, cs, threshold, cs[i]) == Effect(cs, EditOf(env, cs, threshold), i)
  {
    var k := KindOf(cs[i]);
    EditIsToolOnly(env, cs, threshold);
    if k.CallOf? || k.ResponseOf? {
      EditAgrees(env, cs, threshold, i, k.id);
    } else {
      assert !IsTool(cs, i);
    }
  }

  lemma {:induction false} RewriteIsRebuild(cs: seq<Content>, e: Edit, f: Content -> Option<Content>)
    requires forall i :: 0 <= i < |cs| ==> f(cs[i]) == Effect(cs, e, i)
    ensures Rewrite(cs, e) == Rebuild(cs, f)
  {
    if cs != [] {
      var front := cs[..|cs| - 1];
      forall i | 0 <= i < |front| ensures f(front[i]) == Effect(front, e, i) {
        assert front[i] == cs[i] && Effect(front, e, i) == Effect(cs, e, i);
      }
      RewriteIsRebuild(front, e, f);
    }
  }

  /** Compaction is a content-by-content rebuild driven by the fates. */
  lemma CompactIsRebuild(env: Env, cs: seq<Content>, threshold: nat)
    requires Typed(cs)
    ensures Compact(env, cs, threshold) ==
              if EditOf(env, cs, threshold) == Edit({}, map[]) then NoEdit
                  else Edited(Rebuild(cs, Act(env, cs, threshold)))
  {
    forall i | 0 <= i < |cs| ensures Act(env, cs, threshold)(cs[i]) == Effect(cs, EditOf(env, cs, threshold), i) {
      EditActs(env, cs, threshold, i);
    }
    RewriteIsRebuild(cs, EditOf(env, cs, threshold), Act(env, cs, threshold));
  }
}
