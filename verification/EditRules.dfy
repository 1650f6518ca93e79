/** The three single-pass rules: cancelled pairs, transient errors, stale notes. */
module EditRules {
  import opened Options
  import opened Text
  import opened Transcript
  import opened Editor

  // ----- cancelled pairs are dropped

  predicate Touches(c: Content, ids: set<string>)
  {
    exists p :: p in c.parts && !p.Words? && p.id != "" && p.id in ids
  }

  function KeepUntouched(ids: set<string>): (f: Content -> Option<Content>)
  {
    (c: Content) => if Touches(c, ids) then None else Some(c)
  }

  /** A rule that only drops entries reports no edit when it drops nothing or everything. */
  function Survivors(cs: seq<Content>, f: Content -> Option<Content>): (r: Outcome)
  {
    var out := Rebuild(cs, f);
    if |out| == |cs| || out == [] then NoEdit else Edited(out)
  }

  function PruneCancelled(cs: seq<Content>, ids: set<string>): (r: Outcome)
  {
    if ids == {} then NoEdit else Survivors(cs, KeepUntouched(ids))
  }

  method PruneCancelledReasoning(cs: seq<Content>, ids: set<string>) returns (r: Outcome)
    ensures r == PruneCancelled(cs, ids)
  {
    if ids == {} {
      return NoEdit;
    }
    var survivors, dropped := [], false;
    for i := 0 to |cs|
      invariant survivors == Rebuild(cs[..i], KeepUntouched(ids))
      invariant dropped <==> |survivors| < i
    {
      assert cs[..i + 1][..i] == cs[..i];
      if Touches(cs[i], ids) {
        dropped := true;
      } else {
        survivors := survivors + [cs[i]];
      }
    }
    assert cs[..|cs|] == cs;
    r := if !dropped || survivors == [] then NoEdit else Edited(survivors);
  }

  lemma {:induction false} TouchesKind(c: Content, ids: set<string>)
    requires !KindOf(c).Mixed?
    ensures Touches(c, ids) <==> (KindOf(c).CallOf? || KindOf(c).ResponseOf?) && KindOf(c).id in ids
  {
    if Touches(c, ids) {
      var p :| p in c.parts && !p.Words? && p.id != "" && p.id in ids;
      KindOfParts(c.parts, p);
    }
    if (KindOf(c).CallOf? || KindOf(c).ResponseOf?) && KindOf(c).id in ids {
      var p := KindWitness(c.parts);
    }
  }

  // ----- transient errors are redacted in place

  /** A part whose transient payload is larger than the marker that would replace it. */
  predicate Redactable(env: Env, p: Part)
  {
    p.Response? && Transient(env, p.payload) && env.size(p.payload) > env.size(Redacted)
  }

  function RedactPart(env: Env, p: Part): (r: Part)
  {
    if Redactable(env, p) then p.(payload := Redacted) else p
  }

  function RedactParts(env: Env, ps: seq<Part>): (r: seq<Part>)
    ensures |r| == |ps|
    ensures forall i :: 0 <= i < |ps| ==> r[i] == RedactPart(env, ps[i])
  {
    seq(|ps|, i requires 0 <= i < |ps| => RedactPart(env, ps[i]))
  }

  /** A redacted deep copy, or the content itself when no part qualifies. */
  function Redact(env: Env, c: Content): (r: Content)
  {
    var ps := RedactParts(env, c.parts);
    if ps == c.parts then c else Content(CloneOf(c.ident), c.role, ps)
  }

  function KeepRedacted(env: Env): (f: Content -> Option<Content>)
  {
    (c: Content) => Some(Redact(env, c))
  }

  function RedactTransient(env: Env, cs: seq<Content>): (r: Outcome)
  {
    var out := Rebuild(cs, KeepRedacted(env));
    if out == cs then NoEdit else Edited(out)
  }

  lemma {:induction false} RedactedAt(env: Env, cs: seq<Content>)
    ensures |Rebuild(cs, KeepRedacted(env))| == |cs|
    ensures forall i :: 0 <= i < |cs| ==> Rebuild(cs, KeepRedacted(env))[i] == Redact(env, cs[i])
  {
    if cs != [] {
      RedactedAt(env, cs[..|cs| - 1]);
    }
  }

  method PruneTransientErrors(env: Env, cs: seq<Content>) returns (r: Outcome)
    ensures r == RedactTransient(env, cs)
  {
    var out := cs;
    for i := 0 to |cs|
      invariant |out| == |cs|
      invariant forall j :: 0 <= j < i ==> out[j] == Redact(env, cs[j])
      invariant forall j :: i <= j < |cs| ==> out[j] == cs[j]
    {
      var c := Redact(env, cs[i]);
      if c != cs[i] {
        out := out[i := c];
      }
    }
    RedactedAt(env, cs);
    r := if out == cs then NoEdit else Edited(out);
  }

  lemma {:induction false} RedactedParts(env: Env, ps: seq<Part>)
    ensures PartsKind(RedactParts(env, ps)) == PartsKind(ps)
    ensures PartsBytes(env, RedactParts(env, ps)) <= PartsBytes(env, ps)
  {
    if ps != [] {
      var r := RedactParts(env, ps);
      assert r[1..] == RedactParts(env, ps[1..]);
      RedactedParts(env, ps[1..]);
    }
  }

  // ----- stale observer notes are dropped

  /** The constants a note is recognised by, and the bodies that are still fresh. */
  datatype NoteContext = NoteContext(footer: string, marker: string, activeBody: string, freshBodies: seq<string>)

  function TextOf(ps: seq<Part>): (r: seq<string>)
  {
    if ps == [] then []
    else if ps[0].Words? && ps[0].text != "" then [ps[0].text] + TextOf(ps[1..])
    else TextOf(ps[1..])
  }

  function Lines(ts: seq<string>): (r: string)
  {
    if ts == [] then "" else if |ts| == 1 then ts[0] else ts[0] + "\n" + Lines(ts[1..])
  }

  function ContentText(c: Content): (r: string)
  {
    Lines(TextOf(c.parts))
  }

  predicate IsNote(c: Content, ctx: NoteContext)
  {
    && (Lowered(Trim(c.role)) == "" || Lowered(Trim(c.role)) == "user")
    && (forall p <- c.parts :: p.Words?)
    && ContentText(c) != ""
    && ((ctx.marker != "" && Contains(ContentText(c), ctx.marker)) ||
        (ctx.footer != "" && Contains(ContentText(c), ctx.footer)))
  }

  predicate IsStale(c: Content, ctx: NoteContext)
  {
    && (forall b <- ctx.freshBodies :: !Contains(ContentText(c), b))
    && !(ctx.activeBody != "" && Contains(ContentText(c), ctx.activeBody))
  }

  function KeepFresh(ctx: NoteContext): (f: Content -> Option<Content>)
  {
    (c: Content) => if IsNote(c, ctx) && IsStale(c, ctx) then None else Some(c)
  }

  function PruneStale(cs: seq<Content>, ctx: NoteContext): (r: Outcome)
  {
    if ctx.footer == "" && ctx.marker == "" then NoEdit else Survivors(cs, KeepFresh(ctx))
  }

  method PruneStaleSteer(cs: seq<Content>, ctx: NoteContext) returns (r: Outcome)
    ensures r == PruneStale(cs, ctx)
  {
    if ctx.footer == "" && ctx.marker == "" {
      return NoEdit;
    }
    var survivors, dropped := [], false;
    for i := 0 to |cs|
      invariant survivors == Rebuild(cs[..i], KeepFresh(ctx))
      invariant dropped <==> |survivors| < i
    {
      assert cs[..i + 1][..i] == cs[..i];
      if IsNote(cs[i], ctx) && IsStale(cs[i], ctx) {
        dropped := true;
      } else {
        survivors := survivors + [cs[i]];
      }
    }
    assert cs[..|cs|] == cs;
    r := if !dropped || survivors == [] then NoEdit else Edited(survivors);
  }

  lemma {:induction false} NotePlain(ps: seq<Part>)
    requires forall p <- ps :: p.Words?
    ensures PartsKind(ps) == Plain
  {
    if ps != [] {
      NotePlain(ps[1..]);
    }
  }

  // ----- the rules never trip a gate

  /** The rule's answer passes every gate of the editor and keeps the transcript well-formed. */
  ghost predicate Clean(env: Env, dropOnly: bool, cs: seq<Content>, o: Outcome)
  {
    match o
    case Raised => false
    case NoEdit => true
    case Edited(out) =>
      && out != []
      && WellFormed(out)
      && Bytes(env, out) <= Bytes(env, cs)
      && |out| <= |cs|
      && (dropOnly ==> IdentitySubset(out, cs))
  }

  lemma SurvivorsClean(env: Env, cs: seq<Content>, f: Content -> Option<Content>)
    requires WellFormed(cs) && KeepsPairs(cs, f)
    requires forall c <- cs :: f(c).Some? ==> f(c).value == c
    ensures Clean(env, true, cs, Survivors(cs, f))
  {
    RebuildWellFormed(cs, f);
    RebuildNoBigger(env, cs, f);
    forall c | c in Rebuild(cs, f) ensures c in cs {
      RebuildMembers(cs, f, c);
    }
  }

  lemma PruneCancelledClean(env: Env, cs: seq<Content>, ids: set<string>)
    requires WellFormed(cs)
    ensures Clean(env, true, cs, PruneCancelled(cs, ids))
  {
    var f := KeepUntouched(ids);
    forall c, d, id | c in cs && d in cs && KindOf(c) == CallOf(id) && KindOf(d) == ResponseOf(id)
      ensures f(c).Some? <==> f(d).Some?
    {
      TouchesKind(c, ids);
      TouchesKind(d, ids);
    }
    SurvivorsClean(env, cs, f);
  }

  lemma PruneStaleClean(env: Env, cs: seq<Content>, ctx: NoteContext)
    requires WellFormed(cs)
    ensures Clean(env, true, cs, PruneStale(cs, ctx))
  {
    var f := KeepFresh(ctx);
    forall c | c in cs && f(c).None? ensures KindOf(c).Plain? {
      NotePlain(c.parts);
    }
    SurvivorsClean(env, cs, f);
  }

  lemma RedactTransientClean(env: Env, cs: seq<Content>)
    requires WellFormed(cs)
    ensures Clean(env, false, cs, RedactTransient(env, cs))
  {
    var f := KeepRedacted(env);
    forall c | c in cs ensures KindOf(f(c).value) == KindOf(c) &&
        ContentBytes(env, f(c).value) <= ContentBytes(env, c) {
      RedactedParts(env, c.parts);
    }
    RebuildWellFormed(cs, f);
    RebuildNoBigger(env, cs, f);
    if cs == [] {
    } else {
      assert f(cs[|cs| - 1]).Some?;
    }
  }

  // ----- what each rule leaves behind

  /** An edit removes every trace of the cancelled ids and nothing else. */
  lemma PruneCancelledErases(cs: seq<Content>, ids: set<string>, c: Content)
    requires PruneCancelled(cs, ids).Edited?
    ensures var out := PruneCancelled(cs, ids).contents;
            && CallIds(out) !! ids && ResponseIds(out) !! ids
            && (c in out <==> c in cs && !Touches(c, ids))
            && PruneCancelled(out, ids) == NoEdit
  {
    var out, f := PruneCancelled(cs, ids).contents, KeepUntouched(ids);
    forall d ensures d in out <==> d in cs && !Touches(d, ids) {
      RebuildMembers(cs, f, d);
    }
    KeptUnchanged(out, f);
  }

  lemma {:induction false} KeptUnchanged(cs: seq<Content>, f: Content -> Option<Content>)
    requires forall c <- cs :: f(c) == Some(c)
    ensures Rebuild(cs, f) == cs
  {
    if cs != [] {
      KeptUnchanged(cs[..|cs| - 1], f);
      assert cs == cs[..|cs| - 1] + [cs[|cs| - 1]];
    }
  }

  lemma RedactedOnce(env: Env, c: Content)
    ensures Redact(env, Redact(env, c)) == Redact(env, c)
    ensures forall p <- Redact(env, c).parts :: !Redactable(env, p)
  {
    var ps := RedactParts(env, c.parts);
    assert Redact(env, c).parts == ps;
    assert RedactParts(env, ps) == ps;
  }

  /** After redaction no response still holds a transient payload larger than the marker, calls and
      ids are as before, and a second run makes no edit. */
  lemma RedactTransientErases(env: Env, cs: seq<Content>)
    requires RedactTransient(env, cs).Edited?
    ensures var out := RedactTransient(env, cs).contents;
            && |out| == |cs|
            && (forall c <- out, p <- c.parts :: !Redactable(env, p))
            && (forall i :: 0 <= i < |cs| ==> KindOf(out[i]) == KindOf(cs[i]) && out[i].role == cs[i].role)
            && RedactTransient(env, out) == NoEdit
  {
    var out := RedactTransient(env, cs).contents;
    RedactedAt(env, cs);
    RedactedAt(env, out);
    forall i | 0 <= i < |cs| ensures Redact(env, out[i]) == out[i] && KindOf(out[i]) == KindOf(cs[i]) {
      RedactedOnce(env, cs[i]);
      RedactedParts(env, cs[i].parts);
    }
    forall c, p | c in out && p in c.parts ensures !Redactable(env, p) {
      var i :| 0 <= i < |out| && out[i] == c;
      RedactedOnce(env, cs[i]);
    }
    assert Rebuild(out, KeepRedacted(env)) == out;
  }

  /** Only stale goldfive notes are dropped: tool contents, other speech and fresh notes stay. */
  lemma PruneStaleErases(cs: seq<Content>, ctx: NoteContext, c: Content)
    requires PruneStale(cs, ctx).Edited?
    ensures var out := PruneStale(cs, ctx).contents;
            && (c in out <==> c in cs && !(IsNote(c, ctx) && IsStale(c, ctx)))
            && (c in cs && !KindOf(c).Plain? ==> c in out)
            && PruneStale(out, ctx) == NoEdit
  {
    var out, f := PruneStale(cs, ctx).contents, KeepFresh(ctx);
    forall d ensures d in out <==> d in cs && !(IsNote(d, ctx) && IsStale(d, ctx)) {
      RebuildMembers(cs, f, d);
    }
    if IsNote(c, ctx) {
      NotePlain(c.parts);
    }
    KeptUnchanged(out, f);
  }
}
