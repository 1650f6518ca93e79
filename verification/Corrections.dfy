/** Pending-correction slots: string-keyed entries of the session state, one per (agent, task). */
module Corrections {
  import opened Options
  import opened Text
  import opened Plans

  datatype Payload = Payload(
    agent: string, task: string, title: string, superseded: string, supersededTitle: string,
    driftKind: string, driftReason: string, revision: int, issuedAt: int)

  datatype Value = Words(text: string) | Slot(payload: Payload) | Opaque(tag: int)

  /** The orchestration state of a session: one dictionary for every kind of entry. */
  type State = map<string, Value>

  const SLOT_FAMILY := "goldfive.pending_corrections"

  function SlotKey(agent: string, task: string): (r: string)
  {
    SLOT_FAMILY + "." + agent + "." + task
  }

  predicate InFamily(key: string)
  {
    StartsWith(key, SLOT_FAMILY + ".")
  }

  /** The garbage collector's test: family prefix and task suffix. */
  predicate Matches(key: string, task: string)
  {
    InFamily(key) && EndsWith(key, "." + task)
  }

  predicate DotFree(s: string)
  {
    '.' !in s
  }

  function ClearTask(state: State, task: string): (r: State)
  {
    if task == "" then state else map k | k in state && !Matches(k, task) :: state[k]
  }

  /** The trimmed, non-empty supersedes references of a task list. */
  function Superseded(ts: seq<Task>): (r: set<string>)
  {
    set t | t in ts && Trim(t.supersedes) != "" :: Trim(t.supersedes)
  }

  predicate Swept(key: string, tasks: set<string>)
  {
    exists y :: y in tasks && Matches(key, y)
  }

  function ClearAll(state: State, tasks: set<string>): (r: State)
  {
    map k | k in state && !Swept(k, tasks) :: state[k]
  }

  function ClearObsolete(state: State, ts: seq<Task>): (r: State)
  {
    ClearAll(state, Superseded(ts))
  }

  lemma ClearAllStep(state: State, done: set<string>, y: string)
    requires y != ""
    ensures ClearTask(ClearAll(state, done), y) == ClearAll(state, done + {y})
  {
    forall k ensures Swept(k, done + {y}) <==> Swept(k, done) || Matches(k, y) {
      if Matches(k, y) {
        assert y in done + {y};
      }
    }
  }

  /** What the triggering drift and the clock contribute to a payload. */
  datatype Trigger = Trigger(kind: string, reason: string, revision: int, now: int)

  function CorrectedTask(t: Task, revised: seq<Task>, prev: seq<Task>): (r: Option<Task>)
  {
    var y := Trim(t.supersedes);
    if Lookup(revised, y).Some? then Lookup(revised, y) else Lookup(prev, y)
  }

  predicate Eligible(t: Task, revised: seq<Task>, prev: seq<Task>)
  {
    && t.supersedesKind.Correct?
    && Trim(t.supersedes) != ""
    && Trim(t.id) != ""
    && Trim(t.assignee) != ""
    && CorrectedTask(t, revised, prev).Some?
  }

  function PayloadFor(t: Task, revised: seq<Task>, prev: seq<Task>, g: Trigger): (r: Payload)
    requires Eligible(t, revised, prev)
  {
    Payload(Trim(t.assignee), t.id, t.title, t.supersedes, CorrectedTask(t, revised, prev).value.title,
            g.kind, g.reason, g.revision, g.now)
  }

  function QueueOne(state: State, t: Task, revised: seq<Task>, prev: seq<Task>, g: Trigger): (r: State)
  {
    if Eligible(t, revised, prev)
    then state[SlotKey(Trim(t.assignee), t.id) := Slot(PayloadFor(t, revised, prev, g))]
    else state
  }

  function Queue(state: State, ts: seq<Task>, revised: seq<Task>, prev: seq<Task>, g: Trigger): (r: State)
  {
    if ts == [] then state
    else QueueOne(Queue(state, ts[..|ts| - 1], revised, prev, g), ts[|ts| - 1], revised, prev, g)
  }

  /** What an install does to the slots: collect the obsolete ones, then queue the new ones. */
  function Refresh(state: State, revised: seq<Task>, prev: seq<Task>, g: Trigger): (r: State)
  {
    Queue(ClearObsolete(state, revised), revised, revised, prev, g)
  }

  // ----- the dictionary loops

  /** The entries that are still to be looked at, or that do not match. */
  function Unpopped(state: State, task: string, todo: set<string>): (r: State)
  {
    map k | k in state && (k in todo || !Matches(k, task)) :: state[k]
  }

  lemma UnpoppedStep(state: State, task: string, todo: set<string>, k: string)
    requires k in todo && todo <= state.Keys
    ensures var r := Unpopped(state, task, todo);
            Unpopped(state, task, todo - {k}) == if Matches(k, task) then r - {k} else r
  {
  }

  /** Pops every entry keyed on `task`, over a snapshot of the keys. */
  method ClearCorrectionsForTask(state: State, task: string) returns (r: State, cleared: set<string>)
    ensures r == ClearTask(state, task)
    ensures cleared == state.Keys - r.Keys
  {
    r, cleared := state, {};
    if task == "" {
      return;
    }
    var todo := state.Keys;
    assert r == Unpopped(state, task, todo);
    while todo != {}
      invariant todo <= state.Keys
      invariant r == Unpopped(state, task, todo)
      invariant cleared == state.Keys - r.Keys
      decreases |todo|
    {
      var k :| k in todo;
      UnpoppedStep(state, task, todo, k);
      todo := todo - {k};
      if Matches(k, task) {
        r := r - {k};
        cleared := cleared + {k};
      }
    }
  }

  /** Sweeps the slots of every task the revision supersedes. */
  method ClearObsoleteOnRevision(state: State, ts: seq<Task>) returns (r: State)
    ensures r == ClearObsolete(state, ts)
  {
    r := state;
    var todo := Superseded(ts);
    while todo != {}
      invariant todo <= Superseded(ts)
      invariant r == ClearAll(state, Superseded(ts) - todo)
      decreases |todo|
    {
      var y :| y in todo;
      ClearAllStep(state, Superseded(ts) - todo, y);
      assert Superseded(ts) - (todo - {y}) == Superseded(ts) - todo + {y};
      todo := todo - {y};
      var cleared;
      r, cleared := ClearCorrectionsForTask(r, y);
    }
    assert Superseded(ts) - todo == Superseded(ts);
  }

  method QueueCorrections(state: State, revised: seq<Task>, prev: seq<Task>, g: Trigger) returns (r: State)
    ensures r == Queue(state, revised, revised, prev, g)
  {
    r := state;
    for i := 0 to |revised|
      invariant r == Queue(state, revised[..i], revised, prev, g)
    {
      var t := revised[i];
      if Eligible(t, revised, prev) {
        r := r[SlotKey(Trim(t.assignee), t.id) := Slot(PayloadFor(t, revised, prev, g))];
      }
      assert revised[..i + 1][..i] == revised[..i];
    }
    assert revised[..|revised|] == revised;
  }

  // ----- which keys the suffix test selects

  lemma TailEqual(head: string, task: string, t: string)
    requires |task| == |t|
    ensures EndsWith(head + "." + task, "." + t) <==> task == t
  {
    var key := head + "." + task;
    assert key[|head|..] == "." + task;
    assert ("." + task)[1..] == task && ("." + t)[1..] == t;
  }

  lemma TailLonger(head: string, task: string, t: string)
    requires |task| > |t|
    ensures EndsWith(head + "." + task, "." + t) <==> EndsWith(task, "." + t)
  {
    var key := head + "." + task;
    assert key[|key| - |t| - 1..] == task[|task| - |t| - 1..];
  }

  lemma EndsCancel(a: string, b: string, c: string)
    ensures EndsWith(a + c, b + c) <==> EndsWith(a, b)
  {
    if |b| <= |a| {
      var x := a[|a| - |b|..];
      assert (a + c)[|a + c| - |b + c|..] == x + c;
      assert (x + c)[..|b|] == x && (b + c)[..|b|] == b;
    }
  }

  lemma EndsShared(head: string, task: string, t: string)
    requires |task| < |t| && EndsWith(head + "." + task, "." + t)
    ensures EndsWith(t, "." + task)
  {
    var key, n := head + "." + task, |t| - |task|;
    var x := key[|key| - |t| - 1..];
    assert x == "." + t;
    assert x[n..] == key[|key| - |task| - 1..] == "." + task;
    assert ("." + t)[n..] == t[n - 1..];
  }

  lemma TailBeyond(head: string, task: string, t: string)
    requires |task| < |t|
    ensures EndsWith(head + "." + task, "." + t) <==>
            EndsWith(t, "." + task) && EndsWith(head, "." + t[..|t| - |task| - 1])
  {
    var s, c := t[..|t| - |task| - 1], "." + task;
    assert head + "." + task == head + c;
    if EndsWith(head + "." + task, "." + t) {
      EndsShared(head, task, t);
    }
    if EndsWith(t, c) {
      assert t == s + c;
      assert "." + t == ("." + s) + c;
      EndsCancel(head, "." + s, c);
    }
  }

  lemma NoDotEnds(w: string, x: string)
    requires DotFree(w)
    ensures !EndsWith(w, "." + x)
  {
    if |x| < |w| {
      var i := |w| - |x| - 1;
      assert w[i..][0] == w[i] && w[i] in w;
    }
  }

  /** The last segment of the slot family. */
  const SEGMENT := "pending_corrections"

  lemma FamilyEnds(x: string)
    ensures EndsWith(SLOT_FAMILY, "." + x) <==> x == SEGMENT
  {
    var root, last := "goldfive", SEGMENT;
    assert SLOT_FAMILY == root + "." + last;
    if |x| < |last| {
      TailLonger(root, last, x);
      NoDotEnds(last, x);
    } else if |x| == |last| {
      TailEqual(root, last, x);
    } else {
      TailBeyond(root, last, x);
      NoDotEnds(root, x[..|x| - |last| - 1]);
    }
  }

  /** Where the part of `t` before the task ends in the agent or in the family. */
  predicate EndsInAgent(agent: string, s: string)
  {
    s == agent || EndsWith(agent, "." + s) || s == SEGMENT + "." + agent
  }

  lemma AgentEnds(agent: string, s: string)
    ensures EndsWith(SLOT_FAMILY + "." + agent, "." + s) <==> EndsInAgent(agent, s)
  {
    if |s| < |agent| {
      TailLonger(SLOT_FAMILY, agent, s);
    } else if |s| == |agent| {
      TailEqual(SLOT_FAMILY, agent, s);
    } else {
      var x := s[..|s| - |agent| - 1];
      TailBeyond(SLOT_FAMILY, agent, s);
      FamilyEnds(x);
      if EndsWith(s, "." + agent) {
        assert s == x + ("." + agent);
      }
      if s == SEGMENT + "." + agent {
        assert s == SEGMENT + ("." + agent);
        assert s[|SEGMENT|..] == "." + agent && s[..|SEGMENT|] == SEGMENT;
      }
    }
  }

  /** Exactly which slots a collection for `t` removes: those of task `t`, those of tasks whose id
      ends in `.t`, and, for a dotted `t`, those of a task that ends `t` under an agent that ends what
      comes before. */
  lemma SuffixSelects(agent: string, task: string, t: string)
    ensures Matches(SlotKey(agent, task), t) <==>
            || task == t
            || EndsWith(task, "." + t)
            || (EndsWith(t, "." + task) && EndsInAgent(agent, t[..|t| - |task| - 1]))
  {
    SlotKeyInFamily(agent, task);
    var head := SLOT_FAMILY + "." + agent;
    if |task| < |t| {
      TailBeyond(head, task, t);
      AgentEnds(agent, t[..|t| - |task| - 1]);
    } else if |task| == |t| {
      TailEqual(head, task, t);
    } else {
      TailLonger(head, task, t);
    }
  }

  /** With dot-free task ids the collection for `t` removes the slots of `t` and no others. */
  lemma SuffixExact(agent: string, task: string, t: string)
    requires DotFree(task) && DotFree(t)
    ensures Matches(SlotKey(agent, task), t) <==> task == t
  {
    SuffixSelects(agent, task, t);
    NoDotEnds(task, t);
    NoDotEnds(t, task);
  }

  lemma SlotKeyInjective(a: string, u: string, b: string, v: string)
    requires DotFree(u) && DotFree(v) && SlotKey(a, u) == SlotKey(b, v)
    ensures a == b && u == v
  {
    SuffixExact(a, u, v);
    assert Matches(SlotKey(b, v), v) by { SuffixExact(b, v, v); }
    var head := SLOT_FAMILY + ".";
    assert SlotKey(a, u)[|head|..] == a + ("." + u);
    assert SlotKey(b, v)[|head|..] == b + ("." + v);
    assert (a + ("." + u))[..|a|] == a;
    assert (b + ("." + v))[..|b|] == b;
  }

  /** A dotted task id is collected together with the task its last segment names. */
  lemma DottedTaskCollected(state: State, v: Value)
    ensures var s := state[SlotKey("writer", "a.b") := v]; SlotKey("writer", "a.b") !in ClearTask(s, "b")
  {
    SuffixSelects("writer", "a.b", "b");
    assert "a.b"[1..] == ".b";
  }

  /** A dotted collected id takes a slot of another task with it when the agent's name is dotted. */
  lemma DottedAgentCollected(state: State, v: Value)
    ensures var s := state[SlotKey("x.b", "c") := v]; SlotKey("x.b", "c") !in ClearTask(s, "b.c")
  {
    SuffixSelects("x.b", "c", "b.c");
    assert "b.c"[1..] == ".c" && "b.c"[..1] == "b";
    assert "x.b"[1..] == ".b";
  }

  lemma SlotKeyInFamily(a: string, u: string)
    ensures InFamily(SlotKey(a, u))
  {
    assert SlotKey(a, u) == (SLOT_FAMILY + ".") + (a + "." + u);
  }

  // ----- the store after one install

  ghost predicate QueuedBy(t: Task, ts: seq<Task>, revised: seq<Task>, prev: seq<Task>, key: string)
  {
    t in ts && Eligible(t, revised, prev) && key == SlotKey(Trim(t.assignee), t.id)
  }

  lemma {:induction false} QueueKeys(state: State, ts: seq<Task>, revised: seq<Task>, prev: seq<Task>, g: Trigger,
      key: string)
    ensures var r := Queue(state, ts, revised, prev, g);
            key in r <==> key in state || exists t :: QueuedBy(t, ts, revised, prev, key)
    ensures (forall t :: !QueuedBy(t, ts, revised, prev, key)) && key in state ==>
              Queue(state, ts, revised, prev, g)[key] == state[key]
  {
    if ts != [] {
      var front, last := ts[..|ts| - 1], ts[|ts| - 1];
      assert ts == front + [last];
      QueueKeys(state, front, revised, prev, g, key);
      forall t ensures QueuedBy(t, ts, revised, prev, key) <==>
                       QueuedBy(t, front, revised, prev, key) || (t == last && QueuedBy(last, ts, revised, prev, key)) {
      }
      if QueuedBy(last, ts, revised, prev, key) {
        assert key in Queue(state, ts, revised, prev, g);
      }
    }
  }

  lemma {:induction false} QueueValue(state: State, ts: seq<Task>, revised: seq<Task>, prev: seq<Task>, g: Trigger,
      t: Task)
    requires UniqueIds(ts) && forall u <- ts :: DotFree(u.id)
    requires t in ts && Eligible(t, revised, prev)
    ensures var key := SlotKey(Trim(t.assignee), t.id);
            && key in Queue(state, ts, revised, prev, g)
            && Queue(state, ts, revised, prev, g)[key] == Slot(PayloadFor(t, revised, prev, g))
  {
    var front, last := ts[..|ts| - 1], ts[|ts| - 1];
    assert ts == front + [last];
    if t != last {
      assert t in front;
      QueueValue(state, front, revised, prev, g, t);
      if Eligible(last, revised, prev) && SlotKey(Trim(last.assignee), last.id) == SlotKey(Trim(t.assignee), t.id) {
        SlotKeyInjective(Trim(last.assignee), last.id, Trim(t.assignee), t.id);
      }
    }
  }

  /** After collecting and queueing, the slot of (agent, task) exists exactly when the revision
      queues a correction there, or it existed and no revision task supersedes `task`. Its content
      is the new payload in the first case and the old entry in the second. Keys outside the slot
      family are untouched. */
  lemma SlotsAfterRevision(state: State, revised: seq<Task>, prev: seq<Task>, g: Trigger, agent: string, task: string,
      other: string)
    requires UniqueIds(revised) && forall t <- revised :: DotFree(t.id) && DotFree(Trim(t.supersedes))
    requires DotFree(task) && !InFamily(other)
    ensures var r, key := Refresh(state, revised, prev, g), SlotKey(agent, task);
            && (key in r <==> (exists t :: QueuedBy(t, revised, revised, prev, key))
                              || (key in state && task !in Superseded(revised)))
            && (forall t :: QueuedBy(t, revised, revised, prev, key) ==>
                  t.id == task && Trim(t.assignee) == agent && r[key] == Slot(PayloadFor(t, revised, prev, g)))
            && ((forall t :: !QueuedBy(t, revised, revised, prev, key)) && key in r ==> r[key] == state[key])
    ensures var r := Refresh(state, revised, prev, g);
            (other in r <==> other in state) && (other in r ==> r[other] == state[other])
  {
    var mid := ClearObsolete(state, revised);
    var key := SlotKey(agent, task);
    QueueKeys(mid, revised, revised, prev, g, key);
    QueueKeys(mid, revised, revised, prev, g, other);
    forall y | y in Superseded(revised) ensures Matches(key, y) <==> task == y {
      SuffixExact(agent, task, y);
    }
    forall t ensures !QueuedBy(t, revised, revised, prev, other) {
      SlotKeyInFamily(Trim(t.assignee), t.id);
    }
    forall t | QueuedBy(t, revised, revised, prev, key)
      ensures t.id == task && Trim(t.assignee) == agent
      ensures key in Refresh(state, revised, prev, g)
      ensures Refresh(state, revised, prev, g)[key] == Slot(PayloadFor(t, revised, prev, g))
    {
      SlotKeyInjective(Trim(t.assignee), t.id, agent, task);
      QueueValue(mid, revised, revised, prev, g, t);
    }
  }
}
