/** The rendering order of notes in terms of what their severity says, in any letter case. */
module NotePriority {
  import opened Options
  import opened Text
  import opened NoteQueue
  import opened NoteRuns
  import opened NoteDrain

  // ----- words in any letter case

  predicate SmallLetters(w: string)
  {
    forall c <- w :: 'a' <= c <= 'z'
  }

  /** The text is the word, each letter small or capital. */
  predicate SameLetters(s: string, w: string)
  {
    |s| == |w| && forall i :: 0 <= i < |w| ==> s[i] == w[i] || (s[i] as int) + 32 == w[i] as int
  }

  lemma LoweredIff(s: string, w: string)
    requires SmallLetters(w)
    ensures Lowered(s) == w <==> SameLetters(s, w)
  {
    if SameLetters(s, w) {
      forall i | 0 <= i < |w| ensures Lower(s[i]) == w[i] {
        assert w[i] in w;
      }
    }
    if Lowered(s) == w {
      forall i | 0 <= i < |w| ensures s[i] == w[i] || (s[i] as int) + 32 == w[i] as int {
        assert Lowered(s)[i] == Lower(s[i]);
      }
    }
  }

  predicate Says(n: Note, word: string)
  {
    SameLetters(n.draft.severity, word)
  }

  /** Critical outranks everything else, warning all but critical, and info what is none of them. */
  predicate Outranks(a: Note, b: Note)
  {
    || (Says(a, "critical") && !Says(b, "critical"))
    || (Says(a, "warning") && !Says(b, "critical") && !Says(b, "warning"))
    || (Says(a, "info") && !Says(b, "critical") && !Says(b, "warning") && !Says(b, "info"))
  }

  /** Among notes that do not outrank each other: the later turn, then the later enqueue. */
  predicate Later(a: Note, b: Note)
  {
    !Outranks(b, a) && (a.draft.turn > b.draft.turn || (a.draft.turn == b.draft.turn && a.order > b.order))
  }

  lemma RankOfWords(n: Note)
    ensures Says(n, "critical") <==> SeverityRank(n.draft.severity) == 2
    ensures Says(n, "warning") <==> SeverityRank(n.draft.severity) == 1
    ensures Says(n, "info") <==> SeverityRank(n.draft.severity) == 0
  {
    LoweredIff(n.draft.severity, "critical");
    LoweredIff(n.draft.severity, "warning");
    LoweredIff(n.draft.severity, "info");
  }

  lemma BelowMeans(a: Note, b: Note)
    ensures Below(KeyOf(a), KeyOf(b)) <==> Outranks(b, a) || Later(b, a)
  {
    RankOfWords(a);
    RankOfWords(b);
  }

  /** The peeked note is eligible, no eligible note outranks it, and none of the same severity is later. */
  lemma PeekedIsFirst(f: Filter, ns: seq<Note>)
    requires Peek(f, ns).Some?
    ensures var best := Peek(f, ns).value;
            && best in ns && Eligible(f, best)
            && forall n <- ns :: Eligible(f, n) ==> !Outranks(n, best) && !Later(n, best)
  {
    BetterIsBest(f, ns, None);
    forall n | n in ns && Eligible(f, n)
      ensures !Outranks(n, Peek(f, ns).value) && !Later(n, Peek(f, ns).value)
    {
      BelowMeans(Peek(f, ns).value, n);
    }
  }

  ghost predicate SomeSays(f: Filter, ns: seq<Note>, word: string)
  {
    exists n :: n in ns && Eligible(f, n) && Says(n, word)
  }

  /** An eligible critical note keeps every other severity back, a warning all but critical ones, and
      an info note whatever says none of the three. */
  lemma PeekBySeverity(f: Filter, ns: seq<Note>)
    ensures SomeSays(f, ns, "critical") ==> Peek(f, ns).Some? && Says(Peek(f, ns).value, "critical")
    ensures !SomeSays(f, ns, "critical") && SomeSays(f, ns, "warning") ==>
              Peek(f, ns).Some? && Says(Peek(f, ns).value, "warning")
    ensures !SomeSays(f, ns, "critical") && !SomeSays(f, ns, "warning") && SomeSays(f, ns, "info") ==>
              Peek(f, ns).Some? && Says(Peek(f, ns).value, "info")
    ensures Peek(f, ns).None? <==> forall n <- ns :: !Eligible(f, n)
  {
    BetterIsBest(f, ns, None);
    if Peek(f, ns).Some? {
      PeekedIsFirst(f, ns);
    }
  }

  /** Draining delivers by severity, and within one severity later notes first. */
  lemma DrainBySeverity(f: Filter, ns: seq<Note>, r: Receipt, i: nat, j: nat)
    requires Ok(ns) && i < j < |Drain(f, ns, r).0|
    ensures var out := Drain(f, ns, r).0; Outranks(out[i], out[j]) || Later(out[i], out[j])
  {
    DrainDelivers(f, ns, r);
    var out := Drain(f, ns, r).0;
    BelowMeans(out[j], out[i]);
  }
}
