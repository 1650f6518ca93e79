/** What stripping a block does to the text around it: nothing but surplus newlines is lost. */
module PromptText {
  import opened Options
  import opened Text
  import opened NoteQueue
  import opened NoteFields
  import opened PromptBlock

  // ----- runs of newlines

  function Newlines(n: nat): (r: string)
    ensures |r| == n && forall i :: 0 <= i < n ==> r[i] == '\n'
  {
    seq(n, _ => '\n')
  }

  function AtMostTwo(k: nat): (r: nat)
  {
    if k < 2 then k else 2
  }

  /** The text with at most two newlines in a row, after `n` that were kept already. */
  function Squeezed(s: string, n: nat): (r: string)
  {
    if s == "" then ""
    else if s[0] != '\n' then [s[0]] + Squeezed(s[1..], 0)
    else if n < 2 then ['\n'] + Squeezed(s[1..], n + 1)
    else Squeezed(s[1..], n)
  }

  function KeptAfter(s: string, n: nat): (r: nat)
  {
    if s == "" then n
    else KeptAfter(s[1..], if s[0] != '\n' then 0 else if n < 2 then n + 1 else n)
  }

  lemma {:induction false} SqueezedConcat(a: string, b: string, n: nat)
    ensures Squeezed(a + b, n) == Squeezed(a, n) + Squeezed(b, KeptAfter(a, n))
    decreases |a|
  {
    if a == "" {
      assert a + b == b;
    } else {
      assert (a + b)[1..] == a[1..] + b;
      SqueezedConcat(a[1..], b, if a[0] != '\n' then 0 else if n < 2 then n + 1 else n);
    }
  }

  lemma {:induction false} SqueezedNewlines(k: nat, n: nat)
    requires n <= 2
    ensures Squeezed(Newlines(k), n) == Newlines(AtMostTwo(n + k) - n)
    ensures KeptAfter(Newlines(k), n) == AtMostTwo(n + k)
    decreases k
  {
    if k > 0 {
      assert Newlines(k)[1..] == Newlines(k - 1);
      SqueezedNewlines(k - 1, if n < 2 then n + 1 else n);
    }
  }

  /** Replacing triples changes nothing that squeezing would keep. */
  lemma {:induction false} ReplacedSqueezed(s: string, n: nat)
    requires n <= 2
    ensures Squeezed(ReplaceTriples(s), n) == Squeezed(s, n)
    decreases |s|
  {
    if s != "" {
      if OccursAt(s, TRIPLE, 0) {
        assert s == Newlines(3) + s[3..] && ReplaceTriples(s) == Newlines(2) + ReplaceTriples(s[3..]);
        SqueezedConcat(Newlines(3), s[3..], n);
        SqueezedConcat(Newlines(2), ReplaceTriples(s[3..]), n);
        SqueezedNewlines(3, n);
        SqueezedNewlines(2, n);
        ReplacedSqueezed(s[3..], 2);
      } else {
        ReplacedSqueezed(s[1..], if s[0] != '\n' then 0 else if n < 2 then n + 1 else n);
        assert ReplaceTriples(s)[1..] == ReplaceTriples(s[1..]);
      }
    }
  }

  lemma TripleFirst(t: string)
    requires |t| >= 3 && t[0] == '\n' && t[1] == '\n' && t[2] == '\n'
    ensures Occurs(t, TRIPLE)
  {
    assert t[0..3] == TRIPLE;
    assert OccursAt(t, TRIPLE, 0);
  }

  lemma {:induction false} NoTripleSqueezed(s: string, n: nat)
    requires n <= 2 && !Occurs(Newlines(n) + s, TRIPLE)
    ensures Squeezed(s, n) == s
    decreases |s|
  {
    if s != "" {
      var t := Newlines(n) + s;
      if s[0] != '\n' {
        SliceLacks(t, n + 1, |t|, TRIPLE);
        assert t[n + 1..|t|] == s[1..] == Newlines(0) + s[1..];
        NoTripleSqueezed(s[1..], 0);
      } else if n < 2 {
        assert t == Newlines(n + 1) + s[1..];
        NoTripleSqueezed(s[1..], n + 1);
      } else {
        TripleFirst(t);
      }
    }
  }

  lemma {:induction false} CollapseSqueezes(s: string)
    ensures Collapse(s) == Squeezed(s, 0)
    decreases |s|
  {
    if Contains(s, TRIPLE) {
      ReplaceShrinks(s, Find(s, TRIPLE, 0));
      CollapseSqueezes(ReplaceTriples(s));
      ReplacedSqueezed(s, 0);
    } else {
      assert Newlines(0) + s == s;
      NoTripleSqueezed(s, 0);
    }
  }

  lemma {:induction false} KeptNothing(a: string, n: nat)
    requires a != "" && a[|a| - 1] != '\n'
    ensures KeptAfter(a, n) == 0
    decreases |a|
  {
    if |a| > 1 {
      KeptNothing(a[1..], if a[0] != '\n' then 0 else if n < 2 then n + 1 else n);
    } else {
      assert a[1..] == "";
    }
  }

  /** `b` starts a new line run or none: its first character, if any, is no newline. */
  lemma SqueezedFresh(b: string, n: nat)
    requires b == "" || b[0] != '\n'
    ensures Squeezed(b, n) == Squeezed(b, 0)
  {
  }

  /** Collapsing works run by run: each maximal run of k newlines becomes one of k, or of two when
      there are more, and what is on either side is collapsed on its own. */
  lemma CollapseByRuns(a: string, k: nat, b: string)
    requires a == "" || a[|a| - 1] != '\n'
    requires b == "" || b[0] != '\n'
    ensures Collapse(a + Newlines(k) + b) == Collapse(a) + Newlines(if k < 2 then k else 2) + Collapse(b)
  {
    CollapseSqueezes(a + Newlines(k) + b);
    CollapseSqueezes(a);
    CollapseSqueezes(b);
    SqueezedConcat(a + Newlines(k), b, 0);
    SqueezedConcat(a, Newlines(k), 0);
    if a != "" {
      KeptNothing(a, 0);
    }
    SqueezedNewlines(k, 0);
    SqueezedFresh(b, KeptAfter(a + Newlines(k), 0));
  }

  lemma {:induction false} SolidLineStays(s: string)
    requires '\n' !in s
    ensures Collapse(s) == s
  {
    CollapseSqueezes(s);
    if Occurs(Newlines(0) + s, TRIPLE) {
      var i :| OccursAt(Newlines(0) + s, TRIPLE, i);
      OccurrenceAt(Newlines(0) + s, TRIPLE, i, 0);
    }
    NoTripleSqueezed(s, 0);
  }

  // ----- the characters that are not newlines

  function Solid(s: string): (r: string)
  {
    if s == "" then "" else (if s[0] == '\n' then "" else [s[0]]) + Solid(s[1..])
  }

  lemma {:induction false} SolidConcat(a: string, b: string)
    ensures Solid(a + b) == Solid(a) + Solid(b)
    decreases |a|
  {
    if a == "" {
      assert a + b == b;
    } else {
      assert (a + b)[1..] == a[1..] + b;
      SolidConcat(a[1..], b);
    }
  }

  lemma {:induction false} SqueezedSolid(s: string, n: nat)
    ensures Solid(Squeezed(s, n)) == Solid(s)
    decreases |s|
  {
    if s != "" {
      var m := if s[0] != '\n' then 0 else if n < 2 then n + 1 else n;
      SqueezedSolid(s[1..], m);
      var r := Squeezed(s, n);
      if s[0] != '\n' || n < 2 {
        assert r[1..] == Squeezed(s[1..], m);
      }
    }
  }

  lemma {:induction false} StripLeftSolid(s: string)
    ensures Solid(StripLeft(s)) == Solid(s)
  {
    if s != "" && s[0] == '\n' {
      StripLeftSolid(s[1..]);
    }
  }

  lemma SolidSnoc(s: string)
    ensures Solid(s + ['\n']) == Solid(s)
  {
    SolidConcat(s, ['\n']);
    assert ['\n'][1..] == "";
  }

  lemma {:induction false} StripRightSolid(s: string)
    ensures Solid(StripRight(s)) == Solid(s)
  {
    if s != "" && s[|s| - 1] == '\n' {
      var front := s[..|s| - 1];
      assert s == front + ['\n'];
      SolidSnoc(front);
      StripRightSolid(front);
    }
  }

  lemma {:induction false} StripLeftCuts(s: string, i: nat)
    requires i < |s| - |StripLeft(s)|
    ensures s[i] == '\n'
  {
    if i > 0 {
      StripLeftCuts(s[1..], i - 1);
    }
  }

  lemma {:induction false} StripRightCuts(s: string, i: nat)
    requires |StripRight(s)| <= i < |s|
    ensures s[i] == '\n'
  {
    if i < |s| - 1 {
      StripRightCuts(s[..|s| - 1], i);
    }
  }

  lemma StripLeftEnds(s: string) returns (i: nat)
    ensures i <= |s| && StripLeft(s) == s[i..] && (i < |s| ==> s[i] != '\n')
    ensures forall k :: 0 <= k < i ==> s[k] == '\n'
  {
    i := |s| - |StripLeft(s)|;
    forall k | 0 <= k < i ensures s[k] == '\n' {
      StripLeftCuts(s, k);
    }
  }

  lemma StripRightEnds(s: string) returns (j: nat)
    ensures j <= |s| && StripRight(s) == s[..j] && (0 < j ==> s[j - 1] != '\n')
    ensures forall k :: j <= k < |s| ==> s[k] == '\n'
  {
    j := |StripRight(s)|;
    forall k | j <= k < |s| ensures s[k] == '\n' {
      StripRightCuts(s, k);
    }
  }

  lemma TailNewlines(s: string, i: nat, j: nat)
    requires i <= |s| && j <= |s| - i && forall k :: j <= k < |s| - i ==> s[i..][k] == '\n'
    ensures forall k :: i + j <= k < |s| ==> s[k] == '\n'
  {
    forall k | i + j <= k < |s| ensures s[k] == '\n' {
      assert s[k] == s[i..][k - i];
    }
  }

  /** What is stripped from the ends are newlines, and none is left there. */
  lemma StripNewlinesEnds(s: string) returns (i: nat, j: nat)
    ensures i <= j <= |s| && StripNewlines(s) == s[i..j]
    ensures i < j ==> s[i] != '\n' && s[j - 1] != '\n'
    ensures forall k :: 0 <= k < i ==> s[k] == '\n'
    ensures forall k :: j <= k < |s| ==> s[k] == '\n'
  {
    i := StripLeftEnds(s);
    var n := StripRightEnds(s[i..]);
    j := i + n;
    TailNewlines(s, i, n);
    assert s[i..][..n] == s[i..j];
  }

  /** Collapsing and stripping lose no other character and keep the order. */
  lemma CleanedSolid(s: string)
    ensures Solid(StripNewlines(Collapse(s))) == Solid(s)
  {
    CollapseSqueezes(s);
    SqueezedSolid(s, 0);
    StripLeftSolid(Collapse(s));
    StripRightSolid(StripLeft(Collapse(s)));
  }

  // ----- a block between two texts

  /** Where the block begins: at its own marker, since the text before it has none. */
  lemma MarkerAfter(m: Markers, pre: string, tail: string)
    requires Proper(m) && !Occurs(pre, m.marker) && (pre == "" || pre[|pre| - 1] == '\n')
    requires m.marker <= tail
    ensures Find(pre + tail, m.marker, 0) == |pre|
  {
    var t := pre + tail;
    assert t[|pre|..|pre| + |m.marker|] == m.marker;
    assert OccursAt(t, m.marker, |pre|);
    if pre != "" {
      var a := pre[..|pre| - 1];
      assert t == a + ['\n'] + tail;
      forall i | OccursAt(t, m.marker, i) ensures i >= |pre| {
        OccurrenceAvoids(a, '\n', tail, m.marker, i);
        if OccursAt(a, m.marker, i) {
          assert pre[..|a|] == a;
          OccursInSlice(pre, 0, |a|, m.marker, i);
        }
      }
    }
  }

  lemma EndAfter(m: Markers, pre: string, inner: string, post: string)
    requires Proper(m) && !Occurs(inner, m.end)
    ensures Find(pre + Block(m, inner) + post, m.end, |pre|) == |pre| + |Block(m, inner)| - |m.end|
  {
    var b := Block(m, inner);
    var t := pre + b + post;
    var at := |pre| + |b| - |m.end|;
    assert b[|b| - |m.end|..] == m.end;
    assert t[at..at + |m.end|] == m.end;
    assert OccursAt(t, m.end, at);
    forall i | |pre| <= i < at ensures !OccursAt(t, m.end, i) {
      if OccursAt(t, m.end, i) {
        assert b[i - |pre|..i - |pre| + |m.end|] == t[i..i + |m.end|];
        EndInBlock(m, inner, i - |pre|);
      }
    }
  }

  /** Stripping takes the block out and joins what was before and after it, line runs collapsed. */
  lemma StripBetween(m: Markers, pre: string, inner: string, post: string)
    requires Proper(m) && !Occurs(pre, m.marker) && (pre == "" || pre[|pre| - 1] == '\n') && !Occurs(inner, m.end)
    ensures StripPrior(m, pre + Block(m, inner) + post) == StripNewlines(Collapse(pre + post))
  {
    var b := Block(m, inner);
    var t := pre + b + post;
    assert m.marker <= b + post;
    MarkerAfter(m, pre, b + post);
    assert t == pre + (b + post);
    EndAfter(m, pre, inner, post);
    assert t[..|pre|] + t[|pre| + |b|..] == pre + post;
  }

  /** Nothing of the text around the block is lost apart from newlines. */
  lemma StripKeepsText(m: Markers, pre: string, inner: string, post: string)
    requires Proper(m) && !Occurs(pre, m.marker) && (pre == "" || pre[|pre| - 1] == '\n') && !Occurs(inner, m.end)
    ensures Solid(StripPrior(m, pre + Block(m, inner) + post)) == Solid(pre) + Solid(post)
    ensures !Occurs(StripPrior(m, pre + Block(m, inner) + post), TRIPLE)
  {
    StripBetween(m, pre, inner, post);
    CleanedSolid(pre + post);
    SolidConcat(pre, post);
    StripNewlinesTidy(Collapse(pre + post));
  }

  /** A block without its closing line takes everything after it away, and nothing before it. */
  lemma StripUnclosed(m: Markers, pre: string, tail: string)
    requires Proper(m) && !Occurs(pre, m.marker) && (pre == "" || pre[|pre| - 1] == '\n')
    requires m.marker <= tail && !Occurs(tail, m.end)
    ensures StripPrior(m, pre + tail) == StripNewlines(Collapse(pre))
    ensures Solid(StripPrior(m, pre + tail)) == Solid(pre)
  {
    var t := pre + tail;
    MarkerAfter(m, pre, tail);
    forall i | i >= |pre| ensures !OccursAt(t, m.end, i) {
      OccursInTail(pre, tail, m.end, i);
    }
    assert t[..|pre|] == pre;
    CleanedSolid(pre);
  }

  /** Text without a block is left exactly as it is. */
  lemma NothingToStrip(m: Markers, s: string)
    requires !Occurs(s, m.marker)
    ensures StripPrior(m, s) == s
  {
  }

  // ----- what a call leaves on the prompt

  /** A prompt that was nothing but a block is no prompt afterwards. */
  lemma StrippedBetween(m: Markers, pre: string, inner: string, post: string)
    requires Proper(m) && !Occurs(pre, m.marker) && (pre == "" || pre[|pre| - 1] == '\n') && !Occurs(inner, m.end)
    ensures var r := StripNewlines(Collapse(pre + post));
            Stripped(m, Some(pre + Block(m, inner) + post)) == if r == "" then None else Some(r)
  {
    var t := pre + Block(m, inner) + post;
    assert t[|pre|..|pre| + |m.marker|] == m.marker;
    assert OccursAt(t, m.marker, |pre|);
    StripBetween(m, pre, inner, post);
  }

  /** The lines of a shown note: its body without outer white space, and the plan line if there is one. */
  function NoteText(body: string, planLine: string): (r: string)
  {
    if planLine == "" then Trim(body) else Trim(body) + "\n" + planLine
  }

  /** A note that is shown stands at the end of what was left of the prompt, after a blank line, between
      the opening and the closing line. */
  lemma ShownAtEnd(m: Markers, text: Option<string>, n: Note, planLine: string)
    ensures var left := Stripped(m, text);
            Injected(m, text, CallFor(Some(n), true, planLine)) ==
            Some((if left.Some? && left.value != "" then left.value + "\n\n" else "") +
                 (m.begin + ['\n'] + (NoteText(n.draft.body, planLine) + ['\n'] + m.end)))
  {
    var left, b := Stripped(m, text), Block(m, NoteText(n.draft.body, planLine));
    assert "" + b == b;
  }

  /** A note that is only consumed, and a call without one, leave just what was left of the prompt. */
  lemma HiddenOrAbsent(m: Markers, text: Option<string>, n: Note, planLine: string)
    ensures Injected(m, text, CallFor(Some(n), false, planLine)) == Stripped(m, text)
    ensures forall shows :: Injected(m, text, CallFor(None, shows, planLine)) == Stripped(m, text)
  {
  }

  /** The prompt of an agent shows notes for everyone and its own, of every kind, corrections too; a call
      that names no agent shows any. */
  lemma AgentSees(agent: string, n: Note)
    ensures Eligible(AgentFilter(agent), n) <==>
            !n.delivered &&
            (agent == "" || BareAgent(n.draft.agent) == "" || BareAgent(n.draft.agent) == BareAgent(agent))
  {
    EligibleIff(AgentFilter(agent), n);
  }

  /** The lines in use. */
  lemma MarkerLines()
    ensures GOLDFIVE.begin ==
            "[GOLDFIVE OBSERVER NOTE" + " \U{2014} from an external monitoring layer, " + "not from the user]"
    ensures GOLDFIVE.marker == "[GOLDFIVE OBSERVER NOTE"
    ensures GOLDFIVE.end == "[/GOLDFIVE OBSERVER NOTE]"
  {
  }
}
