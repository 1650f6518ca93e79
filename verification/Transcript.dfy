/** Transcripts: message contents made of text, tool-call and tool-response parts. */
module Transcript {
  import opened Options

  /** What a synthesized summary says about the results it replaces. */
  datatype Claim = Identical | Elided | Differing(last: Payload)

  /** A tool result: goldfive's redaction marker, a compaction summary, or a serialised raw result. */
  datatype Payload = Redacted | Compacted(tool: string, count: nat, claim: Claim) | Raw(code: string)

  datatype Part =
    | Words(text: string)
    | Call(id: string, tool: string, args: string)
    | Response(id: string, tool: string, payload: Payload)

  /** Object identity of a content: an original, or a deep copy of another one. */
  datatype Ident = Original(n: nat) | CloneOf(of: Ident)

  datatype Content = Content(ident: Ident, role: string, parts: seq<Part>)

  /** Serialised sizes, and which raw results count as failed or as transient errors. */
  datatype Env = Env(size: Payload -> nat, failed: string -> bool, transient: string -> bool)

  predicate Failed(env: Env, p: Payload)
  {
    match p
    case Redacted => true
    case Compacted(_, _, _) => false
    case Raw(code) => env.failed(code)
  }

  predicate Transient(env: Env, p: Payload)
  {
    p.Raw? && env.transient(p.code)
  }

  function PartBytes(env: Env, p: Part): (r: nat)
  {
    match p
    case Words(text) => |text|
    case Call(_, tool, args) => |tool| + |args|
    case Response(_, tool, payload) => |tool| + env.size(payload)
  }

  function PartsBytes(env: Env, ps: seq<Part>): (r: nat)
  {
    if ps == [] then 0 else PartBytes(env, ps[0]) + PartsBytes(env, ps[1..])
  }

  function ContentBytes(env: Env, c: Content): (r: nat)
  {
    PartsBytes(env, c.parts)
  }

  function Bytes(env: Env, cs: seq<Content>): (r: nat)
  {
    if cs == [] then 0 else ContentBytes(env, cs[0]) + Bytes(env, cs[1..])
  }

  /** Equality of message lists as the editor compares them: identity is not looked at. */
  ghost predicate SameContents(a: seq<Content>, b: seq<Content>)
  {
    |a| == |b| && forall i :: 0 <= i < |a| ==> a[i].role == b[i].role && a[i].parts == b[i].parts
  }

  predicate EqualContents(a: seq<Content>, b: seq<Content>)
    ensures EqualContents(a, b) <==> SameContents(a, b)
  {
    if |a| != |b| then false
    else if a == [] then true
    else
      assert a == [a[0]] + a[1..] && b == [b[0]] + b[1..];
      a[0].role == b[0].role && a[0].parts == b[0].parts && EqualContents(a[1..], b[1..])
  }

  // ----- pairing

  function CallIds(cs: seq<Content>): (r: set<string>)
  {
    set c, p | c in cs && p in c.parts && p.Call? && p.id != "" :: p.id
  }

  function ResponseIds(cs: seq<Content>): (r: set<string>)
  {
    set c, p | c in cs && p in c.parts && p.Response? && p.id != "" :: p.id
  }

  predicate Paired(cs: seq<Content>)
  {
    CallIds(cs) == ResponseIds(cs)
  }

  // ----- well-formed transcripts

  /** What a content holds besides text. */
  datatype Kind = Plain | CallOf(id: string) | ResponseOf(id: string) | Mixed

  function PartKind(p: Part): (r: Kind)
  {
    match p
    case Words(_) => Plain
    case Call(id, _, _) => if id == "" then Mixed else CallOf(id)
    case Response(id, _, _) => if id == "" then Mixed else ResponseOf(id)
  }

  function Join(a: Kind, b: Kind): (r: Kind)
  {
    if a.Plain? then b else if b.Plain? || a == b then a else Mixed
  }

  function PartsKind(ps: seq<Part>): (r: Kind)
  {
    if ps == [] then Plain else Join(PartKind(ps[0]), PartsKind(ps[1..]))
  }

  function KindOf(c: Content): (r: Kind)
  {
    PartsKind(c.parts)
  }

  lemma {:induction false} KindOfParts(ps: seq<Part>, p: Part)
    requires p in ps && !PartsKind(ps).Mixed?
    ensures PartKind(p).Plain? || PartKind(p) == PartsKind(ps)
  {
    if p != ps[0] {
      KindOfParts(ps[1..], p);
    }
  }

  lemma {:induction false} KindWitness(ps: seq<Part>) returns (p: Part)
    requires PartsKind(ps).CallOf? || PartsKind(ps).ResponseOf?
    ensures p in ps && PartKind(p) == PartsKind(ps)
  {
    if PartKind(ps[0]) == PartsKind(ps) {
      p := ps[0];
    } else {
      p := KindWitness(ps[1..]);
    }
  }

  /** Every content is plain text or belongs to one call id, and no id has two call contents or two
      response contents. */
  ghost predicate Typed(cs: seq<Content>)
  {
    && (forall c <- cs :: !KindOf(c).Mixed?)
    && (forall i, j :: 0 <= i < j < |cs| && KindOf(cs[i]) == KindOf(cs[j]) ==> KindOf(cs[i]).Plain?)
  }

  ghost predicate Has(cs: seq<Content>, k: Kind)
  {
    exists c :: c in cs && KindOf(c) == k
  }

  /** A typed transcript in which every call has its response and every response its call. */
  ghost predicate WellFormed(cs: seq<Content>)
  {
    Typed(cs) && forall id :: Has(cs, CallOf(id)) <==> Has(cs, ResponseOf(id))
  }

  lemma CallIdsTyped(cs: seq<Content>, id: string)
    requires Typed(cs)
    ensures id in CallIds(cs) <==> Has(cs, CallOf(id))
    ensures id in ResponseIds(cs) <==> Has(cs, ResponseOf(id))
  {
    if id in CallIds(cs) {
      var c, p :| c in cs && p in c.parts && p.Call? && p.id != "" && p.id == id;
      KindOfParts(c.parts, p);
    }
    if id in ResponseIds(cs) {
      var c, p :| c in cs && p in c.parts && p.Response? && p.id != "" && p.id == id;
      KindOfParts(c.parts, p);
    }
    if Has(cs, CallOf(id)) {
      var c :| c in cs && KindOf(c) == CallOf(id);
      var p := KindWitness(c.parts);
    }
    if Has(cs, ResponseOf(id)) {
      var c :| c in cs && KindOf(c) == ResponseOf(id);
      var p := KindWitness(c.parts);
    }
  }

  /** A well-formed transcript passes the pairing check. */
  lemma WellFormedPaired(cs: seq<Content>)
    requires WellFormed(cs)
    ensures Paired(cs)
  {
    forall id ensures id in CallIds(cs) <==> id in ResponseIds(cs) {
      CallIdsTyped(cs, id);
    }
  }

  // ----- rebuilding a transcript content by content

  /** Each content is dropped or replaced, order kept. */
  function Rebuild(cs: seq<Content>, f: Content -> Option<Content>): (r: seq<Content>)
    ensures |r| <= |cs|
  {
    if cs == [] then []
    else
      var rest := Rebuild(cs[..|cs| - 1], f);
      match f(cs[|cs| - 1])
      case None => rest
      case Some(c) => rest + [c]
  }

  lemma {:induction false} RebuildMembers(cs: seq<Content>, f: Content -> Option<Content>, d: Content)
    ensures d in Rebuild(cs, f) <==> exists c :: c in cs && f(c) == Some(d)
  {
    if cs != [] {
      var front, last := cs[..|cs| - 1], cs[|cs| - 1];
      assert cs == front + [last];
      RebuildMembers(front, f, d);
      if f(last) == Some(d) {
        assert last in cs;
      }
    }
  }

  /** The rebuilt content, if any, is of the same kind. */
  ghost predicate KeepsKinds(cs: seq<Content>, f: Content -> Option<Content>)
  {
    forall c <- cs :: f(c).Some? ==> KindOf(f(c).value) == KindOf(c)
  }

  /** The two halves of a call are dropped together or kept together. */
  ghost predicate KeepsPairs(cs: seq<Content>, f: Content -> Option<Content>)
  {
    forall c, d, id | c in cs && d in cs && KindOf(c) == CallOf(id) && KindOf(d) == ResponseOf(id) :: f(c).Some? <==>
        f(d).Some?
  }

  lemma {:induction false} RebuildTyped(cs: seq<Content>, f: Content -> Option<Content>)
    requires Typed(cs) && KeepsKinds(cs, f)
    ensures Typed(Rebuild(cs, f))
  {
    if cs != [] {
      var front, last := cs[..|cs| - 1], cs[|cs| - 1];
      assert cs == front + [last];
      assert Typed(front);
      RebuildTyped(front, f);
      var r := Rebuild(front, f);
      if f(last).Some? {
        forall i | 0 <= i < |r| && KindOf(r[i]) == KindOf(f(last).value) ensures KindOf(r[i]).Plain? {
          RebuildMembers(front, f, r[i]);
          var c :| c in front && f(c) == Some(r[i]);
          var j :| 0 <= j < |front| && front[j] == c;
          assert cs[j] == c;
        }
      }
    }
  }

  lemma RebuildHas(cs: seq<Content>, f: Content -> Option<Content>, k: Kind)
    requires KeepsKinds(cs, f)
    ensures Has(Rebuild(cs, f), k) <==> exists c :: c in cs && KindOf(c) == k && f(c).Some?
  {
    if Has(Rebuild(cs, f), k) {
      var d :| d in Rebuild(cs, f) && KindOf(d) == k;
      RebuildMembers(cs, f, d);
    }
    if exists c :: c in cs && KindOf(c) == k && f(c).Some? {
      var c :| c in cs && KindOf(c) == k && f(c).Some?;
      RebuildMembers(cs, f, f(c).value);
    }
  }

  lemma RebuildWellFormed(cs: seq<Content>, f: Content -> Option<Content>)
    requires WellFormed(cs) && KeepsKinds(cs, f) && KeepsPairs(cs, f)
    ensures WellFormed(Rebuild(cs, f))
  {
    RebuildTyped(cs, f);
    forall id ensures Has(Rebuild(cs, f), CallOf(id)) <==> Has(Rebuild(cs, f), ResponseOf(id)) {
      RebuildHas(cs, f, CallOf(id));
      RebuildHas(cs, f, ResponseOf(id));
      assert Has(cs, CallOf(id)) <==> Has(cs, ResponseOf(id));
      if Has(cs, CallOf(id)) {
        var c :| c in cs && KindOf(c) == CallOf(id);
        var d :| d in cs && KindOf(d) == ResponseOf(id);
      }
    }
  }

  lemma {:induction false} BytesConcat(env: Env, a: seq<Content>, b: seq<Content>)
    ensures Bytes(env, a + b) == Bytes(env, a) + Bytes(env, b)
  {
    if a == [] {
      assert a + b == b;
    } else {
      assert (a + b)[1..] == a[1..] + b;
      BytesConcat(env, a[1..], b);
    }
  }

  lemma BytesSnoc(env: Env, cs: seq<Content>)
    requires cs != []
    ensures Bytes(env, cs) == Bytes(env, cs[..|cs| - 1]) + ContentBytes(env, cs[|cs| - 1])
  {
    assert cs == cs[..|cs| - 1] + [cs[|cs| - 1]];
    BytesConcat(env, cs[..|cs| - 1], [cs[|cs| - 1]]);
    assert [cs[|cs| - 1]][1..] == [];
  }

  lemma {:induction false} RebuildNoBigger(env: Env, cs: seq<Content>, f: Content -> Option<Content>)
    requires forall c <- cs :: f(c).Some? ==> ContentBytes(env, f(c).value) <= ContentBytes(env, c)
    ensures Bytes(env, Rebuild(cs, f)) <= Bytes(env, cs)
  {
    if cs != [] {
      RebuildNoBigger(env, cs[..|cs| - 1], f);
      BytesSnoc(env, cs);
      if f(cs[|cs| - 1]).Some? {
        var r := Rebuild(cs, f);
        BytesSnoc(env, r);
        assert r[..|r| - 1] == Rebuild(cs[..|cs| - 1], f);
      }
    }
  }
}
