/** Compaction strictly saves bytes and entries: the accounting over the rule's index sets. */
module CompactionBytes {
  import opened Transcript
  import opened Compaction
  import opened CompactionTables
  import opened CompactionLaws

  function Weight(env: Env, cs: seq<Content>, e: Edit, i: nat): (r: nat)
    requires i < |cs|
  {
    if i in e.drops then 0 else if i in e.clones then ContentBytes(env, e.clones[i]) else ContentBytes(env, cs[i])
  }

  /** Bytes left of the first `n` contents. */
  function Left(env: Env, cs: seq<Content>, e: Edit, n: nat): (r: nat)
    requires n <= |cs|
  {
    if n == 0 then 0 else Left(env, cs, e, n - 1) + Weight(env, cs, e, n - 1)
  }

  lemma {:induction false} LeftIsBytes(env: Env, cs: seq<Content>, e: Edit, n: nat)
    requires n <= |cs|
    ensures Left(env, cs, e, n) == Bytes(env, Rewrite(cs[..n], e))
  {
    if n > 0 {
      LeftIsBytes(env, cs, e, n - 1);
      assert cs[..n][..n - 1] == cs[..n - 1];
      var r := Rewrite(cs[..n], e);
      if n - 1 !in e.drops {
        BytesSnoc(env, r);
        assert r[..|r| - 1] == Rewrite(cs[..n - 1], e);
      }
    }
  }

  lemma {:induction false} LeftAll(env: Env, cs: seq<Content>, n: nat)
    requires n <= |cs|
    ensures Left(env, cs, Edit({}, map[]), n) == Bytes(env, cs[..n])
  {
    if n > 0 {
      LeftAll(env, cs, n - 1);
      BytesSnoc(env, cs[..n]);
      assert cs[..n][..n - 1] == cs[..n - 1];
    }
  }

  ghost predicate Free(e: Edit, j: nat)
  {
    j !in e.drops && j !in e.clones
  }

  /** Two edits that differ at one index differ there in bytes. */
  lemma {:induction false} LeftDiffers(env: Env, cs: seq<Content>, e: Edit, f: Edit, j: nat, n: nat)
    requires j < |cs| && n <= |cs|
    requires forall i :: 0 <= i < |cs| && i != j ==> Weight(env, cs, f, i) == Weight(env, cs, e, i)
    ensures Left(env, cs, f, n) + (if j < n then Weight(env, cs, e, j) else 0) ==
            Left(env, cs, e, n) + (if j < n then Weight(env, cs, f, j) else 0)
  {
    if n > 0 {
      LeftDiffers(env, cs, e, f, j, n - 1);
    }
  }

  lemma DropOne(env: Env, cs: seq<Content>, e: Edit, j: nat)
    requires j < |cs| && Free(e, j)
    ensures Left(env, cs, e.(drops := e.drops + {j}), |cs|) + ContentBytes(env, cs[j]) == Left(env, cs, e, |cs|)
  {
    LeftDiffers(env, cs, e, e.(drops := e.drops + {j}), j, |cs|);
  }

  lemma CloneOne(env: Env, cs: seq<Content>, e: Edit, j: nat, c: Content)
    requires j < |cs| && Free(e, j)
    ensures Left(env, cs, e.(clones := e.clones[j := c]), |cs|) + ContentBytes(env, cs[j]) ==
            Left(env, cs, e, |cs|) + ContentBytes(env, c)
  {
    LeftDiffers(env, cs, e, e.(clones := e.clones[j := c]), j, |cs|);
  }

  /** The edit touches neither content of the call. */
  ghost predicate Apart(cs: seq<Content>, e: Edit, id: string)
  {
    forall i :: 0 <= i < |cs| && BelongsTo(cs[i], id) ==> Free(e, i)
  }

  lemma DropRow(env: Env, cs: seq<Content>, e: Edit, id: string)
    requires Typed(cs) && Known(cs, Calls(cs), Answers(cs), id) && Apart(cs, e, id)
    ensures var ci, ri := FindCall(Calls(cs), id).value.at, FindAnswer(Answers(cs), id).value.at;
            Left(env, cs, e.(drops := e.drops + {ci, ri}), |cs|) + ContentBytes(env, cs[ci]) +
                ContentBytes(env, cs[ri]) ==
            Left(env, cs, e, |cs|)
  {
    var ci, ri := FindCall(Calls(cs), id).value.at, FindAnswer(Answers(cs), id).value.at;
    KnownAt(cs, id, ci);
    KnownAt(cs, id, ri);
    assert BelongsTo(cs[ci], id) && BelongsTo(cs[ri], id);
    DropOne(env, cs, e, ci);
    DropOne(env, cs, e.(drops := e.drops + {ci}), ri);
    assert e.drops + {ci} + {ri} == e.drops + {ci, ri};
  }

  ghost predicate AllApart(cs: seq<Content>, e: Edit, ids: seq<string>)
  {
    forall k :: 0 <= k < |ids| ==> Apart(cs, e, ids[k])
  }

  /** The edit that also drops the rows of these calls. */
  ghost function Dropped(cs: seq<Content>, e: Edit, ids: seq<string>): (r: Edit)
    requires AllKnown(cs, Calls(cs), Answers(cs), ids)
  {
    e.(drops := e.drops + DropRows(Calls(cs), Answers(cs), ids))
  }

  ghost function RowsBytes(env: Env, cs: seq<Content>, ids: seq<string>): (r: nat)
    requires AllKnown(cs, Calls(cs), Answers(cs), ids)
  {
    RowBytes(env, Rows(cs, Calls(cs), Answers(cs), ids))
  }

  lemma DroppedSnoc(env: Env, cs: seq<Content>, e: Edit, ids: seq<string>)
    requires ids != [] && AllKnown(cs, Calls(cs), Answers(cs), ids)
    ensures var front, last := ids[..|ids| - 1], ids[|ids| - 1];
            var ci, ri := FindCall(Calls(cs), last).value.at, FindAnswer(Answers(cs), last).value.at;
            var f := Dropped(cs, e, front);
            && Dropped(cs, e, ids) == f.(drops := f.drops + {ci, ri})
            && RowsBytes(env, cs, ids) == RowsBytes(env, cs, front) + ContentBytes(env, cs[ci]) +
                ContentBytes(env, cs[ri])
  {
    var rows := Rows(cs, Calls(cs), Answers(cs), ids);
    assert rows[..|rows| - 1] == Rows(cs, Calls(cs), Answers(cs), ids[..|ids| - 1]);
  }

  /** Dropping the rows of several calls saves exactly their bytes: no content is counted twice. */
  lemma {:induction false} DropMany(env: Env, cs: seq<Content>, e: Edit, ids: seq<string>)
    requires Typed(cs) && AllKnown(cs, Calls(cs), Answers(cs), ids) && NoRepeat(ids) && AllApart(cs, e, ids)
    ensures Left(env, cs, Dropped(cs, e, ids), |cs|) + RowsBytes(env, cs, ids) == Left(env, cs, e, |cs|)
  {
    if ids == [] {
      assert Dropped(cs, e, ids) == e;
    } else {
      var front, last := ids[..|ids| - 1], ids[|ids| - 1];
      DropMany(env, cs, e, front);
      assert last !in front;
      StillApart(cs, e, front, last);
      DropRow(env, cs, Dropped(cs, e, front), last);
      DroppedSnoc(env, cs, e, ids);
    }
  }

  lemma StillApart(cs: seq<Content>, e: Edit, ids: seq<string>, id: string)
    requires Typed(cs) && AllKnown(cs, Calls(cs), Answers(cs), ids)
    requires Apart(cs, e, id) && id !in ids
    ensures Apart(cs, Dropped(cs, e, ids), id)
  {
    forall i | 0 <= i < |cs| && BelongsTo(cs[i], id) ensures i !in DropRows(Calls(cs), Answers(cs), ids) {
      DropRowsAt(cs, ids, i);
    }
  }

  lemma HeadAndTail(env: Env, cs: seq<Content>, e: Edit, g: Group)
    requires Typed(cs) && GroupIn(env, cs, g) && AllApart(cs, e, g.ids)
    ensures Left(env, cs, Dropped(cs, e, g.ids[1..]), |cs|) + RowsBytes(env, cs, g.ids[1..]) == Left(env, cs, e, |cs|)
    ensures Apart(cs, Dropped(cs, e, g.ids[1..]), g.ids[0])
  {
    var tail := g.ids[1..];
    CallsDistinct(cs);
    MembersDistinct(env, Calls(cs), Answers(cs), g.sig);
    assert NoRepeat(tail) && AllApart(cs, e, tail);
    DropMany(env, cs, e, tail);
    StillApart(cs, e, tail, g.ids[0]);
  }

  lemma CollapseSaves(env: Env, cs: seq<Content>, threshold: nat, g: Group)
    requires GroupIn(env, cs, g)
    ensures var clone := Collapse(env, threshold, g.sig, Rows(cs, Calls(cs), Answers(cs), g.ids));
            clone.Some? ==>
              RowsBytes(env, cs, g.ids[1..]) + ContentBytes(env, cs[FindAnswer(Answers(cs), g.ids[0]).value.at]) >
                  ContentBytes(env, clone.value)
  {
    assert Rows(cs, Calls(cs), Answers(cs), g.ids)[1..] == Rows(cs, Calls(cs), Answers(cs), g.ids[1..]);
  }

  /** A collapsed group leaves strictly fewer bytes; any other group changes nothing. */
  lemma GroupSaves(env: Env, cs: seq<Content>, threshold: nat, e: Edit, g: Group)
    requires Typed(cs) && GroupIn(env, cs, g) && AllApart(cs, e, g.ids)
    ensures var r := EditGroup(env, cs, threshold, Calls(cs), Answers(cs), e, g);
            r == e || Left(env, cs, r, |cs|) < Left(env, cs, e, |cs|)
  {
    var clone := Collapse(env, threshold, g.sig, Rows(cs, Calls(cs), Answers(cs), g.ids));
    if clone.Some? {
      HeadAndTail(env, cs, e, g);
      SurvivorSaves(env, cs, Dropped(cs, e, g.ids[1..]), g.ids[0], clone.value);
      CollapseSaves(env, cs, threshold, g);
    }
  }

  lemma SurvivorSaves(env: Env, cs: seq<Content>, e: Edit, id: string, clone: Content)
    requires Typed(cs) && Known(cs, Calls(cs), Answers(cs), id) && Apart(cs, e, id)
    ensures var at := FindAnswer(Answers(cs), id).value.at;
            Left(env, cs, e.(clones := e.clones[at := clone]), |cs|) + ContentBytes(env, cs[at]) ==
            Left(env, cs, e, |cs|) + ContentBytes(env, clone)
  {
    var at := FindAnswer(Answers(cs), id).value.at;
    KnownAt(cs, id, at);
    assert BelongsTo(cs[at], id);
    CloneOne(env, cs, e, at, clone);
  }

  /** Groups with other signatures own other contents. */
  lemma UnseenApart(env: Env, cs: seq<Content>, threshold: nat, gs: seq<Group>, e: Edit, g: Group)
    requires Typed(cs) && Matches(env, cs, threshold, gs, e) && GroupIn(env, cs, g)
    requires forall h <- gs :: h.sig != g.sig
    ensures AllApart(cs, e, g.ids)
  {
    forall k, i | 0 <= k < |g.ids| && 0 <= i < |cs| && BelongsTo(cs[i], g.ids[k]) ensures Free(e, i) {
      var id := g.ids[k];
      MembersCalling(env, cs, g.sig, id);
      assert id in g.ids;
      assert !SigBefore(gs, cs, id);
      assert Agrees(cs, FateOf(env, cs, threshold, id), SigBefore(gs, cs, id), e, i);
    }
  }

  lemma {:induction false} EditSaves(env: Env, cs: seq<Content>, threshold: nat, gs: seq<Group>)
    requires Typed(cs) && GroupsIn(env, cs, gs) && DistinctSigs(gs)
    ensures var e := EditGroups(env, cs, threshold, Calls(cs), Answers(cs), gs);
            e == Edit({}, map[]) || Left(env, cs, e, |cs|) < Bytes(env, cs)
  {
    if gs != [] {
      var front, g := gs[..|gs| - 1], gs[|gs| - 1];
      assert gs == front + [g];
      EditSaves(env, cs, threshold, front);
      EditMatches(env, cs, threshold, front);
      var e := EditGroups(env, cs, threshold, Calls(cs), Answers(cs), front);
      UnseenApart(env, cs, threshold, front, e, g);
      GroupSaves(env, cs, threshold, e, g);
      LeftAll(env, cs, |cs|);
      assert cs[..|cs|] == cs;
    }
  }

  // ----- entries

  lemma {:induction false} RewriteShorter(cs: seq<Content>, e: Edit)
    ensures |Rewrite(cs, e)| <= |cs|
    ensures (exists i :: 0 <= i < |cs| && i in e.drops) ==> |Rewrite(cs, e)| < |cs|
  {
    if cs != [] {
      RewriteShorter(cs[..|cs| - 1], e);
    }
  }

  /** With a threshold of at least two, an edit drops something. */
  lemma {:induction false} EditDrops(env: Env, cs: seq<Content>, threshold: nat, gs: seq<Group>)
    requires threshold >= 2 && GroupsIn(env, cs, gs)
    ensures var e := EditGroups(env, cs, threshold, Calls(cs), Answers(cs), gs);
            e == Edit({}, map[]) || e.drops != {}
  {
    if gs != [] {
      var front, g := gs[..|gs| - 1], gs[|gs| - 1];
      EditDrops(env, cs, threshold, front);
      var clone := Collapse(env, threshold, g.sig, Rows(cs, Calls(cs), Answers(cs), g.ids));
      if clone.Some? {
        var tail := g.ids[1..];
        assert FindCall(Calls(cs), tail[|tail| - 1]).value.at in DropRows(Calls(cs), Answers(cs), tail);
      }
    }
  }

  /** An edit by compaction strictly lowers both the total bytes and the number of entries. */
  lemma CompactionShrinks(env: Env, cs: seq<Content>, threshold: nat)
    requires Typed(cs) && threshold >= 2 && Compact(env, cs, threshold).Edited?
    ensures Bytes(env, Compact(env, cs, threshold).contents) < Bytes(env, cs)
    ensures |Compact(env, cs, threshold).contents| < |cs|
  {
    var gs, e := Groups(env, Calls(cs), Answers(cs)), EditOf(env, cs, threshold);
    GroupsAreIn(env, cs);
    GroupsListed(env, Calls(cs), Answers(cs), Sig("", ""));
    EditSaves(env, cs, threshold, gs);
    LeftIsBytes(env, cs, e, |cs|);
    assert cs[..|cs|] == cs;
    EditDrops(env, cs, threshold, gs);
    EditIsToolOnly(env, cs, threshold);
    var i :| i in e.drops;
    assert IsTool(cs, i);
    RewriteShorter(cs, e);
  }
}
