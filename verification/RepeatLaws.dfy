/** Which repeated failures the compaction rule collapses, in terms of the contents of the transcript. */
module RepeatLaws {
  import opened Options
  import opened Transcript
  import opened Compaction
  import opened CompactionTables
  import opened CompactionLaws
  import opened CompactionOutcome
  import opened RuleChain

  // ----- failed calls

  /** A result that was redacted before, or a raw one that says it failed; a summary is no failure. */
  predicate FailedResult(env: Env, p: Payload)
  {
    p == Redacted || (p.Raw? && env.failed(p.code))
  }

  lemma FailedIff(env: Env, p: Payload)
    ensures Failed(env, p) <==> FailedResult(env, p)
  {
  }

  /** The content's first call part calls the tool with the arguments. */
  ghost predicate CallsWith(c: Content, tool: string, args: string)
  {
    exists k :: 0 <= k < |c.parts| && c.parts[k].Call? && c.parts[k].tool == tool && c.parts[k].args == args &&
                forall l :: 0 <= l < k ==> !c.parts[l].Call?
  }

  ghost predicate AnswersWith(d: Content, p: Payload)
  {
    exists k :: 0 <= k < |d.parts| && d.parts[k].Response? && d.parts[k].payload == p &&
                forall l :: 0 <= l < k ==> !d.parts[l].Response?
  }

  lemma {:induction false} SigOfParts(ps: seq<Part>, k: nat)
    requires k < |ps| && ps[k].Call? && forall l :: 0 <= l < k ==> !ps[l].Call?
    ensures CallSig(ps) == Sig(ps[k].tool, ps[k].args)
    decreases |ps|
  {
    if k > 0 {
      assert ps[1..][k - 1] == ps[k];
      SigOfParts(ps[1..], k - 1);
    }
  }

  lemma {:induction false} ResultOfParts(ps: seq<Part>, k: nat)
    requires k < |ps| && ps[k].Response? && forall l :: 0 <= l < k ==> !ps[l].Response?
    ensures Result(ps) == ps[k].payload
    decreases |ps|
  {
    if k > 0 {
      assert ps[1..][k - 1] == ps[k];
      ResultOfParts(ps[1..], k - 1);
    }
  }

  lemma {:induction false} FirstOfKind(ps: seq<Part>, p: Part) returns (k: nat)
    requires p in ps
    ensures k < |ps| && (p.Call? <==> ps[k].Call?) && (p.Response? <==> ps[k].Response?)
    ensures forall l :: 0 <= l < k ==> (p.Call? && !ps[l].Call?) || (p.Response? && !ps[l].Response?) || p.Words?
    decreases |ps|
  {
    if (p.Call? && ps[0].Call?) || (p.Response? && ps[0].Response?) || (p.Words? && ps[0].Words?) {
      k := 0;
    } else {
      assert p in ps[1..];
      var j := FirstOfKind(ps[1..], p);
      k := j + 1;
      assert ps[k] == ps[1..][j];
      forall l | 1 <= l < k ensures ps[l] == ps[1..][l - 1] {
      }
    }
  }

  lemma CallsWithIff(c: Content, id: string, sig: Sig)
    requires KindOf(c) == CallOf(id)
    ensures CallsWith(c, sig.tool, sig.args) <==> CallSig(c.parts) == sig
  {
    var p := KindWitness(c.parts);
    var k := FirstOfKind(c.parts, p);
    SigOfParts(c.parts, k);
    if CallsWith(c, sig.tool, sig.args) {
      var j :| 0 <= j < |c.parts| && c.parts[j].Call? && c.parts[j].tool == sig.tool && c.parts[j].args == sig.args &&
          forall l :: 0 <= l < j ==> !c.parts[l].Call?;
      SigOfParts(c.parts, j);
    }
  }

  lemma AnswersWithIff(d: Content, id: string, p: Payload)
    requires KindOf(d) == ResponseOf(id)
    ensures AnswersWith(d, p) <==> Result(d.parts) == p
  {
    var w := KindWitness(d.parts);
    var k := FirstOfKind(d.parts, w);
    ResultOfParts(d.parts, k);
    if AnswersWith(d, p) {
      var j :| 0 <= j < |d.parts| && d.parts[j].Response? && d.parts[j].payload == p &&
          forall l :: 0 <= l < j ==> !d.parts[l].Response?;
      ResultOfParts(d.parts, j);
    }
  }

  /** The call with the id was made with the tool and arguments, and its result is a failure. */
  ghost predicate FailedWith(env: Env, cs: seq<Content>, id: string, sig: Sig)
  {
    && (exists c :: c in cs && KindOf(c) == CallOf(id) && CallsWith(c, sig.tool, sig.args))
    && (exists d, p :: d in cs && KindOf(d) == ResponseOf(id) && AnswersWith(d, p) && FailedResult(env, p))
  }

  lemma CallingIff(cs: seq<Content>, id: string, sig: Sig)
    requires Typed(cs)
    ensures Calling(cs, id, sig) <==>
            exists c :: c in cs && KindOf(c) == CallOf(id) && CallsWith(c, sig.tool, sig.args)
  {
    if c :| c in cs && KindOf(c) == CallOf(id) && CallsWith(c, sig.tool, sig.args) {
      CallIs(cs, id, c);
      CallsWithIff(c, id, sig);
    }
    if Calling(cs, id, sig) {
      CallsTyped(cs);
      var e := FindCall(Calls(cs), id).value;
      assert CallEntry(cs, e);
      CallsWithIff(cs[e.at], id, sig);
    }
  }

  lemma FailedCallIff(env: Env, cs: seq<Content>, id: string)
    requires Typed(cs)
    ensures FailedCall(env, Answers(cs), id) <==>
            exists d, p :: d in cs && KindOf(d) == ResponseOf(id) && AnswersWith(d, p) && FailedResult(env, p)
  {
    if d, p :| d in cs && KindOf(d) == ResponseOf(id) && AnswersWith(d, p) && FailedResult(env, p) {
      AnswerIs(cs, id, d);
      AnswersWithIff(d, id, p);
      FailedIff(env, p);
    }
    if FailedCall(env, Answers(cs), id) {
      AnswersTyped(cs);
      var e := FindAnswer(Answers(cs), id).value;
      assert AnswerEntry(cs, e);
      AnswersWithIff(cs[e.at], id, e.payload);
      FailedIff(env, e.payload);
    }
  }

  /** A group is exactly the failed calls with one tool and the same arguments; redacted failures count. */
  lemma GroupIff(env: Env, cs: seq<Content>, sig: Sig, id: string)
    requires Typed(cs)
    ensures id in MembersIn(env, cs, sig) <==> FailedWith(env, cs, id, sig)
  {
    MembersCalling(env, cs, sig, id);
    CallingIff(cs, id, sig);
    FailedCallIff(env, cs, id);
  }

  // ----- transcript order

  /** The place of the call content of an id. */
  ghost predicate CallPlace(cs: seq<Content>, id: string, i: nat)
  {
    i < |cs| && KindOf(cs[i]) == CallOf(id)
  }

  lemma {:induction false} MembersPlaced(env: Env, calls: seq<Located>, answers: seq<Answer>, sig: Sig, k: nat, l: nat)
    requires k < l < |Members(env, calls, answers, sig)|
    ensures var m := Members(env, calls, answers, sig);
            exists i, j :: 0 <= i < j < |calls| && calls[i].id == m[k] && calls[j].id == m[l]
    decreases |calls|
  {
    var m, front, last := Members(env, calls, answers, sig), calls[..|calls| - 1], calls[|calls| - 1];
    var f := Members(env, front, answers, sig);
    if l < |f| {
      MembersPlaced(env, front, answers, sig, k, l);
      var i, j :| 0 <= i < j < |front| && front[i].id == f[k] && front[j].id == f[l];
      assert calls[i] == front[i] && calls[j] == front[j];
    } else {
      assert m == f + [last.id] && f[k] in f;
      var e :| e in front && e.id == f[k];
      var i :| 0 <= i < |front| && front[i] == e;
      assert calls[i].id == m[k] && calls[|calls| - 1].id == m[l];
    }
  }

  lemma EntryPlaced(cs: seq<Content>, e: Located)
    requires Typed(cs) && e in Calls(cs)
    ensures CallPlace(cs, e.id, e.at)
  {
    CallsTyped(cs);
    assert CallEntry(cs, e);
  }

  lemma GroupPlaces(env: Env, cs: seq<Content>, sig: Sig, k: nat, l: nat) returns (i: nat, j: nat)
    requires Typed(cs) && k < l < |MembersIn(env, cs, sig)|
    ensures i <= j && CallPlace(cs, MembersIn(env, cs, sig)[k], i) && CallPlace(cs, MembersIn(env, cs, sig)[l], j)
  {
    var m, c := MembersIn(env, cs, sig), Calls(cs);
    MembersPlaced(env, c, Answers(cs), sig, k, l);
    var a, b :| 0 <= a < b < |c| && c[a].id == m[k] && c[b].id == m[l];
    CallsInOrder(cs);
    EntryPlaced(cs, c[a]);
    EntryPlaced(cs, c[b]);
    i, j := c[a].at, c[b].at;
  }

  /** A group lists its calls in the order of the transcript, so its first member is the earliest. */
  lemma GroupInOrder(env: Env, cs: seq<Content>, sig: Sig, k: nat, l: nat, i: nat, j: nat)
    requires Typed(cs) && k < l < |MembersIn(env, cs, sig)|
    requires CallPlace(cs, MembersIn(env, cs, sig)[k], i) && CallPlace(cs, MembersIn(env, cs, sig)[l], j)
    ensures i < j
  {
    var m := MembersIn(env, cs, sig);
    var a, b := GroupPlaces(env, cs, sig, k, l);
    SamePlace(cs, m[k], a, i);
    SamePlace(cs, m[l], b, j);
    CallsDistinct(cs);
    MembersDistinct(env, Calls(cs), Answers(cs), sig);
  }

  lemma SamePlace(cs: seq<Content>, id: string, i: nat, j: nat)
    requires Typed(cs) && CallPlace(cs, id, i) && CallPlace(cs, id, j)
    ensures i == j
  {
  }

  // ----- when the built-in rule collapses a group

  /** The second and later repeats of a failed call go exactly when the group is large enough: two calls
      when the session is known to loop, otherwise the configured number but never less than two; and
      when the summary is smaller than what it stands for. */
  lemma RepeatsGoIff(env: Env, cs: seq<Content>, n: int, looping: bool, sig: Sig, k: nat)
    requires WellFormed(cs) && 1 <= k < |MembersIn(env, cs, sig)|
    ensures var m, rows, o := MembersIn(env, cs, sig), RowsIn(env, cs, sig),
                              AsRule(env, PriorReasoning(n, looping)).edit(cs);
            rows != [] &&
            (o.Edited? && Gone(o.contents, m[k]) <==>
              && (looping || |m| >= n)
              && ContentBytes(env, Shortened(sig, rows)) < RowBytes(env, rows[1..]) + ContentBytes(env, rows[0].answer))
  {
    var m, t := MembersIn(env, cs, sig), Threshold(n, looping);
    assert AsRule(env, PriorReasoning(n, looping)).edit(cs) == Compact(env, cs, t);
    CollapsesIff(env, cs, t, sig);
    if Collapsed(env, cs, t, sig) {
      CollapsedGroup(env, cs, t, sig);
    } else if Compact(env, cs, t).Edited? {
      KeptHasCall(env, cs, t, sig, k);
    }
  }

  lemma KeptHasCall(env: Env, cs: seq<Content>, t: nat, sig: Sig, k: nat)
    requires Typed(cs) && k < |MembersIn(env, cs, sig)| && !Collapsed(env, cs, t, sig) && Compact(env, cs, t).Edited?
    ensures !Gone(Compact(env, cs, t).contents, MembersIn(env, cs, sig)[k])
  {
    var id := MembersIn(env, cs, sig)[k];
    assert id in MembersIn(env, cs, sig);
    MembersCalling(env, cs, sig, id);
    GroupFates(env, cs, t, sig, id);
    RowOwned(env, cs, sig, k);
    var c := RowsIn(env, cs, sig)[k].call;
    var out := Output(env, cs, t);
    assert Acted(env, cs, t, c) == Some(c);
  }

  /** The survivor's response stands in the output as a copy that keeps its role, its other parts, its tool
      and its id; only the result is the summary. */
  lemma SurvivorShown(env: Env, cs: seq<Content>, t: nat, sig: Sig, d: Content) returns (x: Content)
    requires Typed(cs) && Collapsed(env, cs, t, sig) && d in cs && KindOf(d) == ResponseOf(MembersIn(env, cs, sig)[0])
    ensures Compact(env, cs, t).Edited? && x in Compact(env, cs, t).contents
    ensures x.ident == CloneOf(d.ident) && x.role == d.role && |x.parts| == |d.parts|
    ensures var m, rows := MembersIn(env, cs, sig), RowsIn(env, cs, sig);
            rows != [] && forall k :: 0 <= k < |d.parts| ==>
              x.parts[k] == if d.parts[k].Response? && d.parts[k].id == m[0]
                            then Response(m[0], d.parts[k].tool, Summary(sig, rows)) else d.parts[k]
  {
    CollapsedGroup(env, cs, t, sig);
    RowOwned(env, cs, sig, 0);
    x := Summarize(d, MembersIn(env, cs, sig)[0], Summary(sig, RowsIn(env, cs, sig)));
  }

  // ----- contents that hold parts of several calls

  /** All calls and responses of the content have one id. */
  ghost predicate OneId(c: Content)
  {
    forall p <- c.parts, q <- c.parts :: !p.Words? && !q.Words? ==> p.id == q.id
  }

  lemma OwnedOneId(c: Content, id: string)
    requires OwnedBy(c, id)
    ensures OneId(c)
  {
  }

  lemma {:induction false} DroppedRowsOwned(cs: seq<Content>, ids: seq<string>, i: nat)
    requires AllKnown(cs, Calls(cs), Answers(cs), ids) && i in DropRows(Calls(cs), Answers(cs), ids)
    ensures exists k :: 0 <= k < |ids| && i < |cs| &&
              var r := RowOf(cs, Calls(cs), Answers(cs), ids[k]); cs[i] == r.call || cs[i] == r.answer
    decreases |ids|
  {
    var front := ids[..|ids| - 1];
    if i in DropRows(Calls(cs), Answers(cs), front) {
      DroppedRowsOwned(cs, front, i);
      var k :| 0 <= k < |front| && i < |cs| &&
          var r := RowOf(cs, Calls(cs), Answers(cs), front[k]); cs[i] == r.call || cs[i] == r.answer;
      assert ids[k] == front[k];
    } else {
      assert Known(cs, Calls(cs), Answers(cs), ids[|ids| - 1]);
    }
  }

  /** The contents a group's edit touches all have one id. */
  lemma {:induction false} GroupTouchesOwned(env: Env, cs: seq<Content>, t: nat, e: Edit, g: Group, i: nat)
    requires g.ids != [] && AllKnown(cs, Calls(cs), Answers(cs), g.ids)
    requires var f := EditGroup(env, cs, t, Calls(cs), Answers(cs), e, g);
             (i in f.drops && i !in e.drops) || (i in f.clones && i !in e.clones)
    ensures i < |cs| && OneId(cs[i])
  {
    var rows := Rows(cs, Calls(cs), Answers(cs), g.ids);
    assert Collapse(env, t, g.sig, rows).Some?;
    assert forall r <- rows :: OwnedBy(r.call, r.id) && OwnedBy(r.answer, r.id);
    if i in DropRows(Calls(cs), Answers(cs), g.ids[1..]) {
      TailKnown(cs, g.ids);
      DroppedRowsOwned(cs, g.ids[1..], i);
      var k :| 0 <= k < |g.ids[1..]| && i < |cs| &&
          var r := RowOf(cs, Calls(cs), Answers(cs), g.ids[1..][k]); cs[i] == r.call || cs[i] == r.answer;
      assert rows[k + 1] in rows && rows[k + 1] == RowOf(cs, Calls(cs), Answers(cs), g.ids[1..][k]);
      OwnedOneId(cs[i], g.ids[k + 1]);
    } else {
      assert rows[0] in rows && cs[i] == rows[0].answer;
      OwnedOneId(cs[i], g.ids[0]);
    }
  }

  lemma TailKnown(cs: seq<Content>, ids: seq<string>)
    requires ids != [] && AllKnown(cs, Calls(cs), Answers(cs), ids)
    ensures AllKnown(cs, Calls(cs), Answers(cs), ids[1..])
  {
    forall k | 0 <= k < |ids[1..]| ensures Known(cs, Calls(cs), Answers(cs), ids[1..][k]) {
      assert Known(cs, Calls(cs), Answers(cs), ids[k + 1]);
    }
  }

  lemma {:induction false} EditTouchesOwned(env: Env, cs: seq<Content>, t: nat, gs: seq<Group>, i: nat)
    requires GroupsAreKnown(cs, Calls(cs), Answers(cs), gs)
    requires var e := EditGroups(env, cs, t, Calls(cs), Answers(cs), gs); i in e.drops || i in e.clones
    ensures i < |cs| && OneId(cs[i])
    decreases |gs|
  {
    var front, g := gs[..|gs| - 1], gs[|gs| - 1];
    var e := EditGroups(env, cs, t, Calls(cs), Answers(cs), front);
    assert g.ids != [] && AllKnown(cs, Calls(cs), Answers(cs), g.ids);
    if i in e.drops || i in e.clones {
      EditTouchesOwned(env, cs, t, front, i);
    } else {
      GroupTouchesOwned(env, cs, t, e, g, i);
    }
  }

  /** On any transcript, well-formed or not: a content that batches parts of different calls is neither
      dropped nor summarized. */
  lemma BatchedUntouched(env: Env, cs: seq<Content>, t: nat, i: nat)
    requires i < |cs| && !OneId(cs[i])
    ensures i !in EditOf(env, cs, t).drops && i !in EditOf(env, cs, t).clones
  {
    GroupsKnown(env, cs);
    if i in EditOf(env, cs, t).drops || i in EditOf(env, cs, t).clones {
      EditTouchesOwned(env, cs, t, Groups(env, Calls(cs), Answers(cs)), i);
    }
  }

  // ----- parts without an id

  lemma {:induction false} PartsNamed(ps: seq<Part>, at: nat, calls: seq<Located>, answers: seq<Answer>)
    requires (forall e <- calls :: e.id != "") && (forall e <- answers :: e.id != "")
    ensures (forall e <- CallsIn(ps, at, calls) :: e.id != "") && (forall e <- AnswersIn(ps, at, answers) :: e.id != "")
    decreases |ps|
  {
    if ps != [] {
      PartsNamed(ps[1..], at, AddCall(calls, ps[0], at), AddAnswer(answers, ps[0], at));
    }
  }

  /** Calls and responses without an id are never looked at. */
  lemma {:induction false} TablesNamed(cs: seq<Content>)
    ensures (forall e <- Calls(cs) :: e.id != "") && (forall e <- Answers(cs) :: e.id != "")
  {
    if cs != [] {
      TablesNamed(cs[..|cs| - 1]);
      PartsNamed(cs[|cs| - 1].parts, |cs| - 1, Calls(cs[..|cs| - 1]), Answers(cs[..|cs| - 1]));
    }
  }
}
