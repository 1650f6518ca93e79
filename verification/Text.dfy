/** The string operations the modelled code relies on. */
module Text {

  /** The ASCII characters that Python strips. */
  predicate IsSpace(c: char)
  {
    c == ' ' || '\t' <= c <= '\r' || '\U{1c}' <= c <= '\U{1f}'
  }

  /** Blank, tab, line feed, vertical tab, form feed, carriage return and the four ASCII separators. */
  lemma SpaceChars(c: char)
    ensures IsSpace(c) <==>
            c in {' ', '\t', '\n', '\U{b}', '\U{c}', '\r', '\U{1c}', '\U{1d}', '\U{1e}', '\U{1f}'}
  {
  }

  function TrimLeft(s: string): (r: string)
  {
    if s != "" && IsSpace(s[0]) then TrimLeft(s[1..]) else s
  }

  function TrimRight(s: string): (r: string)
  {
    if s != "" && IsSpace(s[|s| - 1]) then TrimRight(s[..|s| - 1]) else s
  }

  /** Surrounding white space removed. */
  function Trim(s: string): (r: string)
  {
    TrimRight(TrimLeft(s))
  }

  lemma {:induction false} TrimLeftEnds(s: string) returns (i: nat)
    ensures i <= |s| && TrimLeft(s) == s[i..] && (i < |s| ==> !IsSpace(s[i]))
    ensures forall k :: 0 <= k < i ==> IsSpace(s[k])
  {
    i := 0;
    if s != "" && IsSpace(s[0]) {
      var j := TrimLeftEnds(s[1..]);
      i := j + 1;
      assert forall k :: 1 <= k < i ==> s[k] == s[1..][k - 1];
    }
  }

  lemma {:induction false} TrimRightEnds(s: string) returns (j: nat)
    ensures j <= |s| && TrimRight(s) == s[..j] && (0 < j ==> !IsSpace(s[j - 1]))
    ensures forall k :: j <= k < |s| ==> IsSpace(s[k])
  {
    j := |s|;
    if s != "" && IsSpace(s[|s| - 1]) {
      j := TrimRightEnds(s[..|s| - 1]);
    }
  }

  /** Trimming takes away white space at both ends, all of it, and nothing else. */
  lemma TrimEnds(s: string) returns (i: nat, j: nat)
    ensures i <= j <= |s| && Trim(s) == s[i..j]
    ensures i < j ==> !IsSpace(s[i]) && !IsSpace(s[j - 1])
    ensures forall k :: 0 <= k < i || j <= k < |s| ==> IsSpace(s[k])
  {
    i := TrimLeftEnds(s);
    var n := TrimRightEnds(s[i..]);
    j := i + n;
    assert forall k :: j <= k < |s| ==> s[k] == s[i..][k - i];
  }

  function Lower(c: char): (r: char)
  {
    if 'A' <= c <= 'Z' then (c as int + 32) as char else c
  }

  function Lowered(s: string): (r: string)
  {
    seq(|s|, i requires 0 <= i < |s| => Lower(s[i]))
  }

  predicate OccursAt(s: string, pat: string, i: int)
  {
    0 <= i && i + |pat| <= |s| && s[i..i + |pat|] == pat
  }

  ghost predicate Occurs(s: string, pat: string)
  {
    exists i :: OccursAt(s, pat, i)
  }

  /** The first index at or after `from` where `pat` occurs, or -1. */
  function Find(s: string, pat: string, from: nat): (r: int)
    requires from <= |s|
    ensures r == -1 || (from <= r && OccursAt(s, pat, r))
    ensures forall i :: from <= i && (r == -1 || i < r) ==> !OccursAt(s, pat, i)
    decreases |s| - from
  {
    if OccursAt(s, pat, from) then from
    else if from == |s| then -1
    else Find(s, pat, from + 1)
  }

  predicate Contains(s: string, pat: string)
    ensures Contains(s, pat) <==> Occurs(s, pat)
  {
    Find(s, pat, 0) != -1
  }

  predicate EndsWith(s: string, pat: string)
  {
    OccursAt(s, pat, |s| - |pat|)
  }

  predicate StartsWith(s: string, pat: string)
  {
    OccursAt(s, pat, 0)
  }

  lemma OccurrenceCovers(s: string, pat: string, i: int, j: int)
    requires OccursAt(s, pat, i) && i <= j < i + |pat|
    ensures s[j] in pat
  {
    assert s[j] == s[i..i + |pat|][j - i];
  }

  lemma OccursInSlice(s: string, a: nat, b: nat, pat: string, i: int)
    requires a <= b <= |s| && OccursAt(s[a..b], pat, i)
    ensures OccursAt(s, pat, a + i)
  {
    var t := s[a..b];
    forall k | 0 <= k < |pat| ensures s[a + i..a + i + |pat|][k] == pat[k] {
      assert t[i..i + |pat|][k] == t[i + k] == s[a + i + k];
    }
  }

  lemma SliceLacks(s: string, a: nat, b: nat, pat: string)
    requires a <= b <= |s| && !Occurs(s, pat)
    ensures !Occurs(s[a..b], pat)
  {
    forall i | OccursAt(s[a..b], pat, i) ensures false {
      OccursInSlice(s, a, b, pat, i);
    }
  }

  lemma FindUnique(s: string, pat: string, from: nat, at: nat)
    requires from <= at <= |s| && forall i :: from <= i ==> (OccursAt(s, pat, i) <==> i == at)
    ensures Find(s, pat, from) == at
  {
    assert OccursAt(s, pat, at);
  }

  /** An occurrence of a pattern without `sep` lies on one side of every `sep`. */
  lemma OccurrenceAvoids(a: string, sep: char, b: string, pat: string, i: int)
    requires sep !in pat && OccursAt(a + [sep] + b, pat, i) && pat != ""
    ensures OccursAt(a, pat, i) || OccursAt(b, pat, i - |a| - 1)
  {
    var s := a + [sep] + b;
    if i + |pat| <= |a| {
      assert a[i..i + |pat|] == s[i..i + |pat|];
    } else if i > |a| {
      assert b[i - |a| - 1..i - |a| - 1 + |pat|] == s[i..i + |pat|];
    } else {
      OccurrenceCovers(s, pat, i, |a|);
    }
  }
}

/** Optional values. */
module Options {
  datatype Option<+T> = None | Some(value: T)
}
