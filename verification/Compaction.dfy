/** Compaction of repeated identical failed tool calls: the rule itself. */
module Compaction {
  import opened Options
  import opened Transcript
  import opened Editor

  /** Two calls with the same tool and the same canonical arguments are the same call. */
  datatype Sig = Sig(tool: string, args: string)

  datatype Located = Located(id: string, at: nat, sig: Sig)

  datatype Answer = Answer(id: string, at: nat, payload: Payload)

  // ----- locating calls and responses (first occurrence of an id wins)

  function FindCall(calls: seq<Located>, id: string): (r: Option<Located>)
    ensures r.Some? ==> r.value in calls && r.value.id == id
    ensures r.None? ==> forall e <- calls :: e.id != id
  {
    if calls == [] then None
    else if calls[0].id == id then Some(calls[0])
    else
      assert calls == [calls[0]] + calls[1..];
      FindCall(calls[1..], id)
  }

  function FindAnswer(answers: seq<Answer>, id: string): (r: Option<Answer>)
    ensures r.Some? ==> r.value in answers && r.value.id == id
    ensures r.None? ==> forall e <- answers :: e.id != id
  {
    if answers == [] then None
    else if answers[0].id == id then Some(answers[0])
    else
      assert answers == [answers[0]] + answers[1..];
      FindAnswer(answers[1..], id)
  }

  function AddCall(calls: seq<Located>, p: Part, at: nat): (r: seq<Located>)
  {
    if p.Call? && p.id != "" && FindCall(calls, p.id).None? then calls + [Located(p.id, at, Sig(p.tool, p.args))]
        else calls
  }

  function AddAnswer(answers: seq<Answer>, p: Part, at: nat): (r: seq<Answer>)
  {
    if p.Response? && p.id != "" && FindAnswer(answers, p.id).None? then answers + [Answer(p.id, at, p.payload)]
        else answers
  }

  function CallsIn(ps: seq<Part>, at: nat, calls: seq<Located>): (r: seq<Located>)
    decreases |ps|
  {
    if ps == [] then calls else CallsIn(ps[1..], at, AddCall(calls, ps[0], at))
  }

  function AnswersIn(ps: seq<Part>, at: nat, answers: seq<Answer>): (r: seq<Answer>)
    decreases |ps|
  {
    if ps == [] then answers else AnswersIn(ps[1..], at, AddAnswer(answers, ps[0], at))
  }

  function Calls(cs: seq<Content>): (r: seq<Located>)
  {
    if cs == [] then [] else CallsIn(cs[|cs| - 1].parts, |cs| - 1, Calls(cs[..|cs| - 1]))
  }

  function Answers(cs: seq<Content>): (r: seq<Answer>)
  {
    if cs == [] then [] else AnswersIn(cs[|cs| - 1].parts, |cs| - 1, Answers(cs[..|cs| - 1]))
  }

  // ----- grouping failed, answered calls by signature

  datatype Group = Group(sig: Sig, ids: seq<string>)

  function AddMember(gs: seq<Group>, sig: Sig, id: string): (r: seq<Group>)
  {
    if gs == [] then [Group(sig, [id])]
    else if gs[0].sig == sig then [Group(sig, gs[0].ids + [id])] + gs[1..]
    else [gs[0]] + AddMember(gs[1..], sig, id)
  }

  predicate FailedCall(env: Env, answers: seq<Answer>, id: string)
  {
    FindAnswer(answers, id).Some? && Failed(env, FindAnswer(answers, id).value.payload)
  }

  function Groups(env: Env, calls: seq<Located>, answers: seq<Answer>): (r: seq<Group>)
  {
    if calls == [] then []
    else
      var e, gs := calls[|calls| - 1], Groups(env, calls[..|calls| - 1], answers);
      if FailedCall(env, answers, e.id) then AddMember(gs, e.sig, e.id) else gs
  }

  // ----- the decision on one group

  /** A call of a group with its two contents and its recorded result. */
  datatype Row = Row(id: string, call: Content, answer: Content, payload: Payload)

  predicate OwnedBy(c: Content, id: string)
  {
    forall p <- c.parts :: !p.Words? ==> p.id == id
  }

  predicate AllEqual(rows: seq<Row>)
  {
    forall r <- rows :: r.payload == rows[0].payload
  }

  /** The summary claims no more than the compared results support. */
  function Summary(sig: Sig, rows: seq<Row>): (p: Payload)
    requires rows != []
  {
    Compacted(sig.tool, |rows|,
              if AllEqual(rows) then if rows[0].payload == Redacted then Elided else Identical
              else Differing(rows[|rows| - 1].payload))
  }

  function SummarizePart(p: Part, id: string, s: Payload): (r: Part)
  {
    if p.Response? && p.id == id then p.(payload := s) else p
  }

  function SummarizeParts(ps: seq<Part>, id: string, s: Payload): (r: seq<Part>)
    ensures |r| == |ps|
    ensures forall i :: 0 <= i < |ps| ==> r[i] == SummarizePart(ps[i], id, s)
  {
    seq(|ps|, i requires 0 <= i < |ps| => SummarizePart(ps[i], id, s))
  }

  function Summarize(c: Content, id: string, s: Payload): (r: Content)
  {
    Content(CloneOf(c.ident), c.role, SummarizeParts(c.parts, id, s))
  }

  predicate Answering(c: Content, id: string)
  {
    exists p :: p in c.parts && p.Response? && p.id == id
  }

  function RowBytes(env: Env, rows: seq<Row>): (r: nat)
  {
    if rows == [] then 0
    else
      var last := rows[|rows| - 1];
      RowBytes(env, rows[..|rows| - 1]) + ContentBytes(env, last.call) + ContentBytes(env, last.answer)
  }

  /** The summarized survivor when the group is worth collapsing: enough repeats, every content
      owned by its call, and strictly fewer bytes. */
  function Collapse(env: Env, threshold: nat, sig: Sig, rows: seq<Row>): (r: Option<Content>)
  {
    if |rows| < threshold || rows == [] then None
    else if exists r :: r in rows && !(OwnedBy(r.call, r.id) && OwnedBy(r.answer, r.id)) then None
    else if !Answering(rows[0].answer, rows[0].id) then None
    else
      var clone := Summarize(rows[0].answer, rows[0].id, Summary(sig, rows));
      if RowBytes(env, rows[1..]) + ContentBytes(env, rows[0].answer) <= ContentBytes(env, clone) then None
          else Some(clone)
  }

  // ----- the edit

  ghost predicate Recorded(calls: seq<Located>, answers: seq<Answer>, id: string)
  {
    FindCall(calls, id).Some? && FindAnswer(answers, id).Some?
  }

  ghost predicate Known(cs: seq<Content>, calls: seq<Located>, answers: seq<Answer>, id: string)
  {
    Recorded(calls, answers, id) && FindCall(calls, id).value.at < |cs| && FindAnswer(answers, id).value.at < |cs|
  }

  ghost predicate AllKnown(cs: seq<Content>, calls: seq<Located>, answers: seq<Answer>, ids: seq<string>)
  {
    forall k :: 0 <= k < |ids| ==> Known(cs, calls, answers, ids[k])
  }

  ghost predicate AllRecorded(calls: seq<Located>, answers: seq<Answer>, ids: seq<string>)
  {
    forall k :: 0 <= k < |ids| ==> Recorded(calls, answers, ids[k])
  }

  ghost predicate GroupsAreKnown(cs: seq<Content>, calls: seq<Located>, answers: seq<Answer>, gs: seq<Group>)
  {
    forall k :: 0 <= k < |gs| ==> gs[k].ids != [] && AllKnown(cs, calls, answers, gs[k].ids)
  }

  function RowOf(cs: seq<Content>, calls: seq<Located>, answers: seq<Answer>, id: string): (r: Row)
    requires Known(cs, calls, answers, id)
  {
    var a := FindAnswer(answers, id).value;
    Row(id, cs[FindCall(calls, id).value.at], cs[a.at], a.payload)
  }

  function Rows(cs: seq<Content>, calls: seq<Located>, answers: seq<Answer>, ids: seq<string>): (r: seq<Row>)
    requires AllKnown(cs, calls, answers, ids)
    ensures |r| == |ids|
    ensures forall i :: 0 <= i < |ids| ==> r[i] == RowOf(cs, calls, answers, ids[i])
  {
    seq(|ids|, i requires 0 <= i < |ids| => RowOf(cs, calls, answers, ids[i]))
  }

  /** Indices to drop and response contents to replace. */
  datatype Edit = Edit(drops: set<nat>, clones: map<nat, Content>)

  function DropRows(calls: seq<Located>, answers: seq<Answer>, ids: seq<string>): (r: set<nat>)
    requires AllRecorded(calls, answers, ids)
  {
    if ids == [] then {}
    else
      DropRows(calls, answers, ids[..|ids| - 1])
         + {FindCall(calls, ids[|ids| - 1]).value.at, FindAnswer(answers, ids[|ids| - 1]).value.at}
  }

  function EditGroup(env: Env, cs: seq<Content>, threshold: nat, calls: seq<Located>, answers: seq<Answer>, e: Edit,
      g: Group): (r: Edit)
    requires g.ids != [] && AllKnown(cs, calls, answers, g.ids)
  {
    var clone := Collapse(env, threshold, g.sig, Rows(cs, calls, answers, g.ids));
    if clone.None? then e
    else
      Edit(e.drops + DropRows(calls, answers, g.ids[1..]),
          e.clones[FindAnswer(answers, g.ids[0]).value.at := clone.value])
  }

  function EditGroups(env: Env, cs: seq<Content>, threshold: nat, calls: seq<Located>, answers: seq<Answer>,
      gs: seq<Group>): (r: Edit)
    requires GroupsAreKnown(cs, calls, answers, gs)
  {
    if gs == [] then Edit({}, map[])
    else EditGroup(env, cs, threshold, calls, answers, EditGroups(env, cs, threshold, calls, answers, gs[..|gs| - 1]),
        gs[|gs| - 1])
  }

  function Rewrite(cs: seq<Content>, e: Edit): (r: seq<Content>)
  {
    if cs == [] then []
    else
      var i, front := |cs| - 1, Rewrite(cs[..|cs| - 1], e);
      if i in e.drops then front
      else if i in e.clones then front + [e.clones[i]]
      else front + [cs[i]]
  }

  // ----- the tables are sound for any contents

  ghost predicate CallsOk(calls: seq<Located>, n: nat)
  {
    && (forall e <- calls :: e.at < n)
    && (forall i, j :: 0 <= i < j < |calls| ==> calls[i].at <= calls[j].at)
  }

  lemma {:induction false} CallsInOk(ps: seq<Part>, at: nat, calls: seq<Located>)
    requires CallsOk(calls, at + 1)
    ensures CallsOk(CallsIn(ps, at, calls), at + 1)
    decreases |ps|
  {
    if ps != [] {
      forall e | e in AddCall(calls, ps[0], at) ensures e.at < at + 1 {
      }
      CallsInOk(ps[1..], at, AddCall(calls, ps[0], at));
    }
  }

  /** Calls are recorded in transcript order, so sorting a group by call position changes nothing. */
  lemma {:induction false} CallsInOrder(cs: seq<Content>)
    ensures CallsOk(Calls(cs), |cs|)
  {
    if cs != [] {
      CallsInOrder(cs[..|cs| - 1]);
      CallsInOk(cs[|cs| - 1].parts, |cs| - 1, Calls(cs[..|cs| - 1]));
    }
  }

  lemma {:induction false} AnswersInOk(ps: seq<Part>, at: nat, answers: seq<Answer>)
    requires forall e <- answers :: e.at < at + 1
    ensures forall e <- AnswersIn(ps, at, answers) :: e.at < at + 1
    decreases |ps|
  {
    if ps != [] {
      AnswersInOk(ps[1..], at, AddAnswer(answers, ps[0], at));
    }
  }

  lemma {:induction false} AnswersBounded(cs: seq<Content>)
    ensures forall e <- Answers(cs) :: e.at < |cs|
  {
    if cs != [] {
      AnswersBounded(cs[..|cs| - 1]);
      AnswersInOk(cs[|cs| - 1].parts, |cs| - 1, Answers(cs[..|cs| - 1]));
    }
  }

  ghost predicate GroupsOk(gs: seq<Group>, ids: set<string>)
  {
    forall g <- gs :: g.ids != [] && forall id <- g.ids :: id in ids
  }

  lemma {:induction false} AddMemberOk(gs: seq<Group>, sig: Sig, id: string, ids: set<string>)
    requires GroupsOk(gs, ids) && id in ids
    ensures GroupsOk(AddMember(gs, sig, id), ids)
  {
    if gs != [] {
      AddMemberOk(gs[1..], sig, id, ids);
      assert gs[0] in gs;
    }
  }

  function CallIdsOf(calls: seq<Located>): (r: set<string>)
  {
    set e | e in calls :: e.id
  }

  lemma {:induction false} GroupsMembers(env: Env, calls: seq<Located>, answers: seq<Answer>)
    ensures GroupsOk(Groups(env, calls, answers), set id | id in CallIdsOf(calls) && FailedCall(env, answers, id))
  {
    if calls != [] {
      var front, e := calls[..|calls| - 1], calls[|calls| - 1];
      assert calls == front + [e];
      GroupsMembers(env, front, answers);
      var ids := set id | id in CallIdsOf(calls) && FailedCall(env, answers, id);
      assert GroupsOk(Groups(env, front, answers), ids);
      if FailedCall(env, answers, e.id) {
        AddMemberOk(Groups(env, front, answers), e.sig, e.id, ids);
      }
    }
  }

  lemma GroupsKnown(env: Env, cs: seq<Content>)
    ensures GroupsAreKnown(cs, Calls(cs), Answers(cs), Groups(env, Calls(cs), Answers(cs)))
  {
    var calls, answers := Calls(cs), Answers(cs);
    CallsInOrder(cs);
    AnswersBounded(cs);
    GroupsMembers(env, calls, answers);
    var gs := Groups(env, calls, answers);
    forall j, k | 0 <= j < |gs| && 0 <= k < |gs[j].ids| ensures Known(cs, calls, answers, gs[j].ids[k]) {
      var id := gs[j].ids[k];
      assert gs[j] in gs && id in gs[j].ids;
      assert id in CallIdsOf(calls) && FailedCall(env, answers, id);
    }
    forall j | 0 <= j < |gs| ensures gs[j].ids != [] {
      assert gs[j] in gs;
    }
  }

  /** The whole rule. */
  function Compact(env: Env, cs: seq<Content>, threshold: nat): (r: Outcome)
  {
    var calls, answers := Calls(cs), Answers(cs);
    GroupsKnown(env, cs);
    var e := EditGroups(env, cs, threshold, calls, answers, Groups(env, calls, answers));
    if e.drops == {} && e.clones == map[] then NoEdit else Edited(Rewrite(cs, e))
  }

  // ----- the loops

  method LocateCalls(cs: seq<Content>) returns (calls: seq<Located>)
    ensures calls == Calls(cs)
  {
    calls := [];
    for i := 0 to |cs|
      invariant calls == Calls(cs[..i])
    {
      var ps := cs[i].parts;
      for k := 0 to |ps|
        invariant CallsIn(ps[k..], i, calls) == CallsIn(ps, i, Calls(cs[..i]))
      {
        assert ps[k..][0] == ps[k] && ps[k..][1..] == ps[k + 1..];
        if ps[k].Call? && ps[k].id != "" && FindCall(calls, ps[k].id).None? {
          calls := calls + [Located(ps[k].id, i, Sig(ps[k].tool, ps[k].args))];
        }
      }
      assert cs[..i + 1][..i] == cs[..i];
    }
    assert cs[..|cs|] == cs;
  }

  method LocateAnswers(cs: seq<Content>) returns (answers: seq<Answer>)
    ensures answers == Answers(cs)
  {
    answers := [];
    for i := 0 to |cs|
      invariant answers == Answers(cs[..i])
    {
      var ps := cs[i].parts;
      for k := 0 to |ps|
        invariant AnswersIn(ps[k..], i, answers) == AnswersIn(ps, i, Answers(cs[..i]))
      {
        assert ps[k..][0] == ps[k] && ps[k..][1..] == ps[k + 1..];
        if ps[k].Response? && ps[k].id != "" && FindAnswer(answers, ps[k].id).None? {
          answers := answers + [Answer(ps[k].id, i, ps[k].payload)];
        }
      }
      assert cs[..i + 1][..i] == cs[..i];
    }
    assert cs[..|cs|] == cs;
  }

  method GroupFailed(env: Env, calls: seq<Located>, answers: seq<Answer>) returns (gs: seq<Group>)
    ensures gs == Groups(env, calls, answers)
  {
    gs := [];
    for i := 0 to |calls|
      invariant gs == Groups(env, calls[..i], answers)
    {
      if FailedCall(env, answers, calls[i].id) {
        gs := AddMember(gs, calls[i].sig, calls[i].id);
      }
      assert calls[..i + 1][..i] == calls[..i];
    }
    assert calls[..|calls|] == calls;
  }

  method CompactPriorReasoning(env: Env, cs: seq<Content>, threshold: nat) returns (o: Outcome)
    ensures o == Compact(env, cs, threshold)
  {
    var calls := LocateCalls(cs);
    var answers := LocateAnswers(cs);
    var gs := GroupFailed(env, calls, answers);
    GroupsKnown(env, cs);
    var e := Edit({}, map[]);
    for i := 0 to |gs|
      invariant GroupsAreKnown(cs, calls, answers, gs)
      invariant e == EditGroups(env, cs, threshold, calls, answers, gs[..i])
    {
      e := EditGroup(env, cs, threshold, calls, answers, e, gs[i]);
      assert gs[..i + 1][..i] == gs[..i];
    }
    assert gs[..|gs|] == gs;
    if e.drops == {} && e.clones == map[] {
      return NoEdit;
    }
    var out := [];
    for i := 0 to |cs|
      invariant out == Rewrite(cs[..i], e)
    {
      assert cs[..i + 1][..i] == cs[..i];
      if i !in e.drops {
        out := out + [if i in e.clones then e.clones[i] else cs[i]];
      }
    }
    assert cs[..|cs|] == cs;
    o := Edited(out);
  }
}
