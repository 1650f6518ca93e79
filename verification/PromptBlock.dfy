/** Strip-and-refresh of the marked observer-note block in a system prompt. */
module PromptBlock {
  import opened Options
  import opened Text
  import opened NoteQueue

  /** The detection prefix and the opening and closing lines of a rendered block. */
  datatype Markers = Markers(marker: string, begin: string, end: string)

  const TRIPLE := "\n\n\n"
  const PREFIX := "[GOLDFIVE OBSERVER NOTE"
  const SOURCE := " \U{2014} from an external monitoring layer, "
  const NOT_USER := "not from the user]"
  const GOLDFIVE := Markers(PREFIX, PREFIX + SOURCE + NOT_USER, "[/GOLDFIVE OBSERVER NOTE]")

  /** Single lines; the opening line starts with the marker and does not contain the closing line. */
  ghost predicate Proper(m: Markers)
  {
    && m.marker != "" && m.end != ""
    && m.marker <= m.begin
    && '\n' !in m.begin && '\n' !in m.end
    && !Occurs(m.begin, m.end)
  }

  predicate Plain(s: string)
  {
    '\n' !in s && '/' !in s
  }

  lemma PrefixPlain()
    ensures Plain(PREFIX)
  {
  }

  lemma SourcePlain()
    ensures Plain(SOURCE)
  {
    var a, b := " \U{2014} from an external ", "monitoring layer, ";
    assert Plain(a);
    assert Plain(b);
    assert SOURCE == a + b;
  }

  lemma NotUserPlain()
    ensures Plain(NOT_USER)
  {
  }

  /** The markers in use are proper: the closing line has a slash, the opening line has none. */
  lemma GoldfiveProper()
    ensures Proper(GOLDFIVE)
  {
    PrefixPlain();
    SourcePlain();
    NotUserPlain();
    var b, e := GOLDFIVE.begin, GOLDFIVE.end;
    assert '/' !in b && '\n' !in b;
    assert e[1] == '/' && '\n' !in e;
    forall i | OccursAt(b, e, i) ensures false {
      OccurrenceAt(b, e, i, 1);
    }
  }

  lemma OccurrenceAt(s: string, pat: string, i: int, k: nat)
    requires OccursAt(s, pat, i) && k < |pat|
    ensures s[i + k] == pat[k] && s[i + k] in s
  {
    assert s[i..i + |pat|][k] == s[i + k];
  }

  function Block(m: Markers, inner: string): (r: string)
  {
    m.begin + ['\n'] + (inner + ['\n'] + m.end)
  }

  /** One left-to-right pass replacing each run of three newlines by two. */
  function ReplaceTriples(s: string): (r: string)
    ensures |r| <= |s|
  {
    if s == "" then ""
    else if OccursAt(s, TRIPLE, 0) then "\n\n" + ReplaceTriples(s[3..])
    else [s[0]] + ReplaceTriples(s[1..])
  }

  lemma {:induction false} ReplaceShrinks(s: string, i: int)
    requires OccursAt(s, TRIPLE, i)
    ensures |ReplaceTriples(s)| < |s|
    decreases |s|
  {
    if !OccursAt(s, TRIPLE, 0) {
      assert s[1..][i - 1..i + 2] == s[i..i + 3];
      ReplaceShrinks(s[1..], i - 1);
    }
  }

  function Collapse(s: string): (r: string)
    ensures !Occurs(r, TRIPLE)
    decreases |s|
  {
    if Contains(s, TRIPLE) then
      ReplaceShrinks(s, Find(s, TRIPLE, 0));
      Collapse(ReplaceTriples(s))
    else s
  }

  function StripLeft(s: string): (r: string)
    ensures r == "" || r[0] != '\n'
    ensures |r| <= |s| && r == s[|s| - |r|..]
  {
    if s != "" && s[0] == '\n' then StripLeft(s[1..]) else s
  }

  function StripRight(s: string): (r: string)
    ensures r == "" || r[|r| - 1] != '\n'
    ensures |r| <= |s| && r == s[..|r|]
  {
    if s != "" && s[|s| - 1] == '\n' then StripRight(s[..|s| - 1]) else s
  }

  function StripNewlines(s: string): (r: string)
  {
    StripRight(StripLeft(s))
  }

  /** The text without the stretch from `start` to the end of the `n` characters at `end`. */
  function Cut(s: string, start: nat, end: int, n: nat): (r: string)
    requires start <= |s| && (end == -1 || 0 <= end <= |s| - n)
  {
    if end == -1 then s[..start] else s[..start] + s[end + n..]
  }

  /** The text without its observer-note block, orphan blank lines collapsed. */
  function StripPrior(m: Markers, s: string): (r: string)
  {
    var start := Find(s, m.marker, 0);
    if start == -1 then s
    else
      StripNewlines(Collapse(Cut(s, start, Find(s, m.end, start), |m.end|)))
  }

  /** The loop that collapses runs of newlines. */
  method CollapseNewlines(s: string) returns (r: string)
    ensures r == Collapse(s)
    ensures !Occurs(r, TRIPLE)
  {
    r := s;
    while Contains(r, TRIPLE)
      invariant Collapse(r) == Collapse(s)
      decreases |r|
    {
      ReplaceShrinks(r, Find(r, TRIPLE, 0));
      r := ReplaceTriples(r);
    }
  }

  method StripPriorBlock(m: Markers, existing: string) returns (r: string)
    ensures r == StripPrior(m, existing)
  {
    var start := Find(existing, m.marker, 0);
    if start == -1 {
      return existing;
    }
    var end := Find(existing, m.end, start);
    var cleaned := CollapseNewlines(Cut(existing, start, end, |m.end|));
    r := StripNewlines(cleaned);
  }

  // ----- where the block is found

  /** The text with a block appended, in the shape the occurrence lemma splits. */
  function WithBlock(m: Markers, base: string, inner: string): (r: string)
  {
    base + ['\n'] + ("" + ['\n'] + Block(m, inner))
  }

  lemma MarkerFirst(m: Markers, base: string, inner: string)
    requires Proper(m) && !Occurs(base, m.marker)
    ensures Find(WithBlock(m, base, inner), m.marker, 0) == |base| + 2
    ensures Find(Block(m, inner), m.marker, 0) == 0
  {
    var t := WithBlock(m, base, inner);
    assert t[|base| + 2..] == Block(m, inner);
    assert Block(m, inner)[..|m.marker|] == m.marker;
    assert OccursAt(t, m.marker, |base| + 2);
    forall i | OccursAt(t, m.marker, i) ensures i >= |base| + 2 {
      OccurrenceAvoids(base, '\n', "" + ['\n'] + Block(m, inner), m.marker, i);
      if !OccursAt(base, m.marker, i) {
        OccurrenceAvoids("", '\n', Block(m, inner), m.marker, i - |base| - 1);
      }
    }
  }

  lemma EndInBlock(m: Markers, inner: string, j: int)
    requires Proper(m) && !Occurs(inner, m.end)
    ensures OccursAt(Block(m, inner), m.end, j) <==> j == |Block(m, inner)| - |m.end|
  {
    var tail := inner + ['\n'] + m.end;
    var at := |Block(m, inner)| - |m.end|;
    assert Block(m, inner)[at..] == m.end;
    if OccursAt(Block(m, inner), m.end, j) {
      OccurrenceAvoids(m.begin, '\n', tail, m.end, j);
      OccurrenceAvoids(inner, '\n', m.end, m.end, j - |m.begin| - 1);
    }
  }

  lemma EndFoundAlone(m: Markers, inner: string)
    requires Proper(m) && !Occurs(inner, m.end)
    ensures Find(Block(m, inner), m.end, 0) == |Block(m, inner)| - |m.end|
  {
    var b := Block(m, inner);
    forall j ensures OccursAt(b, m.end, j) <==> j == |b| - |m.end| {
      EndInBlock(m, inner, j);
    }
    FindUnique(b, m.end, 0, |b| - |m.end|);
  }

  /** Occurrences inside the last part of a text. */
  lemma OccursInTail(head: string, tail: string, pat: string, i: int)
    requires i >= |head|
    ensures OccursAt(head + tail, pat, i) <==> OccursAt(tail, pat, i - |head|)
  {
    var t := head + tail;
    if i + |pat| <= |t| {
      assert t[i..i + |pat|] == tail[i - |head|..i - |head| + |pat|];
    }
  }

  lemma EndFound(m: Markers, base: string, inner: string)
    requires Proper(m) && !Occurs(inner, m.end)
    ensures Find(WithBlock(m, base, inner), m.end, |base| + 2) == |WithBlock(m, base, inner)| - |m.end|
  {
    var t, b, head := WithBlock(m, base, inner), Block(m, inner), base + "\n\n";
    assert t == head + b;
    forall i | i >= |head| ensures OccursAt(t, m.end, i) <==> i == |t| - |m.end| {
      OccursInTail(head, b, m.end, i);
      EndInBlock(m, inner, i - |head|);
    }
    FindUnique(t, m.end, |head|, |t| - |m.end|);
  }

  // ----- the round trip

  /** No run of three newlines and no newline at either end. */
  ghost predicate Tidy(s: string)
  {
    !Occurs(s, TRIPLE) && (s != "" ==> s[0] != '\n' && s[|s| - 1] != '\n')
  }

  lemma StripNewlinesTidy(s: string)
    requires !Occurs(s, TRIPLE)
    ensures Tidy(StripNewlines(s))
  {
    var l := StripLeft(s);
    var r := StripRight(l);
    var a := |s| - |l|;
    assert r == s[a..a + |r|];
    SliceLacks(s, a, a + |r|, TRIPLE);
  }

  lemma BlankLineMakesNoTriple(base: string)
    requires Tidy(base)
    ensures !Occurs(base + "\n\n", TRIPLE)
  {
    var s := base + "\n\n";
    forall i | OccursAt(s, TRIPLE, i) ensures false {
      if i + 3 <= |base| {
        assert s[..|base|] == base;
        assert base[i..i + 3] == s[i..i + 3];
        assert OccursAt(base, TRIPLE, i);
      } else {
        OccurrenceAt(s, TRIPLE, i, |base| - 1 - i);
      }
    }
  }

  lemma StripsBlankLine(base: string)
    requires base != "" ==> base[0] != '\n' && base[|base| - 1] != '\n'
    ensures StripNewlines(base + "\n\n") == base
  {
    var s, t := base + "\n\n", base + "\n";
    if base == "" {
      assert s[1..] == "\n" && "\n"[1..] == "";
    } else {
      assert StripLeft(s) == s;
      assert s[..|s| - 1] == t && t[..|t| - 1] == base;
      assert StripRight(base) == base;
      assert StripRight(t) == StripRight(base);
      assert StripRight(s) == StripRight(t);
    }
  }

  lemma TidyUnchanged(base: string)
    requires Tidy(base)
    ensures StripNewlines(Collapse(base + "\n\n")) == base
  {
    BlankLineMakesNoTriple(base);
    StripsBlankLine(base);
  }

  lemma StripWithBlock(m: Markers, base: string, inner: string)
    requires Proper(m) && !Occurs(base, m.marker) && !Occurs(inner, m.end)
    ensures StripPrior(m, WithBlock(m, base, inner)) == StripNewlines(Collapse(base + "\n\n"))
  {
    MarkerFirst(m, base, inner);
    EndFound(m, base, inner);
    var t := WithBlock(m, base, inner);
    assert t[..|base| + 2] + t[|t|..] == base + "\n\n";
  }

  lemma StripBlockAlone(m: Markers, inner: string)
    requires Proper(m) && !Occurs(inner, m.end)
    ensures Contains(Block(m, inner), m.marker) && StripPrior(m, Block(m, inner)) == ""
  {
    assert !Occurs("", m.marker) && !Occurs("", TRIPLE);
    MarkerFirst(m, "", inner);
    EndFoundAlone(m, inner);
    var b := Block(m, inner);
    assert b[..0] + b[|b|..] == "";
    assert Collapse("") == "";
  }

  /** Appending a block and stripping it restores the text exactly when the text has no run of
      three newlines and no newline at either end. */
  lemma RoundTripIff(m: Markers, base: string, inner: string)
    requires Proper(m) && !Occurs(base, m.marker) && !Occurs(inner, m.end)
    ensures StripPrior(m, WithBlock(m, base, inner)) == base <==> Tidy(base)
  {
    StripWithBlock(m, base, inner);
    StripNewlinesTidy(Collapse(base + "\n\n"));
    if Tidy(base) {
      TidyUnchanged(base);
    }
  }

  // ----- injection

  function Stripped(m: Markers, text: Option<string>): (r: Option<string>)
  {
    if text.Some? && Contains(text.value, m.marker) then
      var s := StripPrior(m, text.value);
      if s == "" then None else Some(s)
    else text
  }

  function Appended(text: Option<string>, block: string): (r: Option<string>)
  {
    if text.None? || text.value == "" then Some(block) else Some(text.value + "\n\n" + block)
  }

  function Inner(n: Note, planLine: string): (r: string)
  {
    if planLine != "" then Trim(n.draft.body) + "\n" + planLine else Trim(n.draft.body)
  }

  /** What one call finds to show: nothing pending, a note it renders, or a note it only consumes. */
  datatype Call = Nothing | Shown(inner: string) | Dry

  function Injected(m: Markers, text: Option<string>, c: Call): (r: Option<string>)
  {
    if c.Shown? then Appended(Stripped(m, text), Block(m, c.inner)) else Stripped(m, text)
  }

  function CallFor(best: Option<Note>, shows: bool, planLine: string): (r: Call)
  {
    if best.None? then Nothing else if shows then Shown(Inner(best.value, planLine)) else Dry
  }

  function AgentFilter(agent: string): (r: Filter)
  {
    Filter(None, agent, false, false)
  }

  class Request {
    const m: Markers
    var instruction: Option<string>

    constructor (m: Markers, instruction: Option<string>)
      ensures this.m == m && this.instruction == instruction
    {
      this.m := m;
      this.instruction := instruction;
    }

    method StripBlock()
      modifies this
      ensures instruction == Stripped(m, old(instruction))
    {
      if instruction.Some? && Contains(instruction.value, m.marker) {
        var s := StripPriorBlock(m, instruction.value);
        instruction := if s == "" then None else Some(s);
      }
    }

    method AppendBlock(block: string)
      modifies this
      ensures instruction == Appended(old(instruction), block)
    {
      if instruction.None? || instruction.value == "" {
        instruction := Some(block);
      } else {
        instruction := Some(instruction.value + "\n\n" + block);
      }
    }

    /** Strip any prior block, show at most one pending note, and mark it consumed. */
    method InjectObserverNote(q: Queue, agent: string, shows: bool, planLine: string, turn: int)
      returns (note: Option<Note>)
      modifies this, q
      ensures var best := Peek(AgentFilter(agent), old(q.notes));
              && instruction == Injected(m, old(instruction), CallFor(best, shows, planLine))
              && (best.None? ==> q.notes == old(q.notes) && note.None?)
              && (best.Some? ==>
                    && q.notes == Mark(old(q.notes), best.value.id,
                        Receipt("request_context", "before_model", turn, !shows))
                    && note == if Marks(old(q.notes), best.value.id) then best else None)
    {
      note := None;
      StripBlock();
      var best := q.PeekForRender(AgentFilter(agent));
      if best.Some? {
        if shows {
          AppendBlock(Block(m, Inner(best.value, planLine)));
        }
        var newly := q.MarkDelivered(best.value.id, Receipt("request_context", "before_model", turn, !shows));
        if newly {
          note := best;
        }
      }
    }
  }

  // ----- any number of injections

  /** No text at all, or text without the marker, without a triple newline and without outer newlines. */
  ghost predicate CleanBase(m: Markers, base: Option<string>)
  {
    base.Some? ==> !Occurs(base.value, m.marker) && Tidy(base.value)
  }

  /** A clean base that is not the empty string. */
  ghost predicate StrictBase(m: Markers, base: Option<string>)
  {
    CleanBase(m, base) && (base.Some? ==> |base.value| > 0)
  }

  ghost predicate CleanCall(m: Markers, c: Call)
  {
    c.Shown? ==> !Occurs(c.inner, m.end)
  }

  /** The base text, followed by exactly the block of the given call when it shows one. */
  function Shape(m: Markers, base: Option<string>, c: Call): (r: Option<string>)
  {
    if c.Shown? then Appended(base, Block(m, c.inner)) else base
  }

  function AfterCalls(m: Markers, text: Option<string>, calls: seq<Call>): (r: Option<string>)
  {
    if calls == [] then text else Injected(m, AfterCalls(m, text, calls[..|calls| - 1]), calls[|calls| - 1])
  }

  /** Showing a block and stripping it restores the prompt exactly when there was none, or when it was
      a non-empty text with no triple newline and no outer newline. */
  lemma StripRestoresIff(m: Markers, base: Option<string>, inner: string)
    requires Proper(m) && !Occurs(inner, m.end) && (base.Some? ==> !Occurs(base.value, m.marker))
    ensures Stripped(m, Shape(m, base, Shown(inner))) == base <==> base.None? || (base.value != "" && Tidy(base.value))
  {
    if base.None? || base.value == "" {
      StripBlockAlone(m, inner);
    } else {
      assert Shape(m, base, Shown(inner)).value == WithBlock(m, base.value, inner);
      MarkerFirst(m, base.value, inner);
      RoundTripIff(m, base.value, inner);
    }
  }

  lemma ShapeStrips(m: Markers, base: Option<string>, c: Call)
    requires Proper(m) && StrictBase(m, base) && CleanCall(m, c)
    ensures Stripped(m, Shape(m, base, c)) == base
  {
    if c.Shown? {
      StripRestoresIff(m, base, c.inner);
    }
  }

  lemma NextShape(m: Markers, base: Option<string>, c: Call, next: Call)
    requires Proper(m) && StrictBase(m, base) && CleanCall(m, c)
    ensures Injected(m, Shape(m, base, c), next) == Shape(m, base, next)
  {
    ShapeStrips(m, base, c);
  }

  ghost predicate CleanCalls(m: Markers, calls: seq<Call>)
  {
    forall k :: 0 <= k < |calls| ==> CleanCall(m, calls[k])
  }

  /** The call whose block, if any, the prompt now shows. */
  function Latest(calls: seq<Call>): (r: Call)
  {
    if calls == [] then Dry else calls[|calls| - 1]
  }

  lemma {:induction false} CallsAfter(m: Markers, base: Option<string>, calls: seq<Call>)
    requires Proper(m) && StrictBase(m, base) && CleanCalls(m, calls)
    ensures AfterCalls(m, base, calls) == Shape(m, base, Latest(calls))
  {
    if calls != [] {
      var front, last := calls[..|calls| - 1], calls[|calls| - 1];
      CallsAfter(m, base, front);
      NextShape(m, base, Latest(front), last);
    }
  }

  predicate AnyShown(calls: seq<Call>)
  {
    exists c :: c in calls && c.Shown?
  }

  lemma EmptyThen(m: Markers, c: Call)
    requires Proper(m)
    ensures Injected(m, Some(""), c) == if c.Shown? then Shape(m, None, c) else Some("")
  {
    assert !Occurs("", m.marker);
  }

  lemma ShownSnoc(calls: seq<Call>)
    requires calls != []
    ensures AnyShown(calls) <==> AnyShown(calls[..|calls| - 1]) || calls[|calls| - 1].Shown?
  {
    assert calls == calls[..|calls| - 1] + [calls[|calls| - 1]];
  }

  /** An empty prompt stays until a block is shown; from then on there is no prompt beside the block. */
  lemma {:induction false} CallsFromEmpty(m: Markers, calls: seq<Call>)
    requires Proper(m) && CleanCalls(m, calls)
    ensures AfterCalls(m, Some(""), calls) == if AnyShown(calls) then Shape(m, None, Latest(calls)) else Some("")
  {
    if calls != [] {
      var front, last := calls[..|calls| - 1], calls[|calls| - 1];
      CallsFromEmpty(m, front);
      ShownSnoc(calls);
      if AnyShown(front) {
        NextShape(m, None, Latest(front), last);
      } else {
        EmptyThen(m, last);
      }
    }
  }

  /** What is left of the prompt once the blocks are taken away. */
  function Remaining(base: Option<string>, calls: seq<Call>): (r: Option<string>)
  {
    if base.Some? && base.value == "" && AnyShown(calls) then None else base
  }

  /** After any sequence of calls the prompt is the base text, plus exactly the last call's block if
      that call showed one; a call with nothing to show restores the base. */
  lemma InjectionsNeverStack(m: Markers, base: Option<string>, calls: seq<Call>)
    requires Proper(m) && CleanBase(m, base) && CleanCalls(m, calls)
    ensures AfterCalls(m, base, calls) == Shape(m, Remaining(base, calls), Latest(calls))
  {
    if base.Some? && base.value == "" {
      CallsFromEmpty(m, calls);
      assert calls != [] ==> calls[|calls| - 1] in calls;
    } else {
      CallsAfter(m, base, calls);
    }
  }
}
