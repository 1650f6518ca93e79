/** The report in terms of the signals' own fields, and the order it comes in. */
module ShadowFields {
  import opened Options
  import opened SignalLog
  import opened ShadowDiff
  import opened ShadowLaws

  // ----- what makes an aligned pair diverge

  /** The recorded value; a missing entry and an empty one are the same. */
  function Said(s: Signal, entry: string): (r: Option<string>)
  {
    if entry in s.decision then s.decision[entry] else None
  }

  /** The ladder level of the signal, or the recorded one when the signal names none. */
  function Level(s: Signal): (r: Option<string>)
  {
    if s.ladder != "" then Some(s.ladder)
    else if "ladder_level" in s.decision then s.decision["ladder_level"]
    else Some("")
  }

  /** Both signals would do the same to the agent. */
  predicate SameDecision(a: Signal, b: Signal)
  {
    && Level(a) == Level(b)
    && a.dryRun == b.dryRun
    && Said(a, "would_cancel_inflight") == Said(b, "would_cancel_inflight")
    && Said(a, "promotion") == Said(b, "promotion")
    && Said(a, "superseded_task_ids") == Said(b, "superseded_task_ids")
    && Said(a, "replacement_task_ids") == Said(b, "replacement_task_ids")
  }

  lemma FieldNames(f: string)
    ensures f in DECISION_FIELDS <==>
            f in {"ladder_level", "would_cancel_inflight", "promotion", "superseded_task_ids", "replacement_task_ids",
                  "dry_run"}
  {
    assert DECISION_FIELDS[0] == "ladder_level" && DECISION_FIELDS[1] == "would_cancel_inflight";
    assert DECISION_FIELDS[2] == "promotion" && DECISION_FIELDS[3] == "superseded_task_ids";
    assert DECISION_FIELDS[4] == "replacement_task_ids" && DECISION_FIELDS[5] == "dry_run";
  }

  lemma LevelShown(s: Signal)
    ensures Shown(s, "ladder_level") == Level(s)
  {
    assert "ladder_level"[0] == 'l' && "channel"[0] == 'c' && "dry_run"[0] == 'd';
  }

  lemma DryShown(a: Signal, b: Signal)
    ensures Shown(a, "dry_run") == Shown(b, "dry_run") <==> a.dryRun == b.dryRun
  {
    assert "dry_run"[0] == 'd' && "channel"[0] == 'c';
    assert "true"[0] == 't' && "false"[0] == 'f';
  }

  lemma EntryShown(s: Signal, f: string)
    requires f != "channel" && f != "dry_run" && f != "ladder_level"
    ensures Shown(s, f) == Said(s, f)
  {
  }

  lemma OtherName(f: string)
    requires f in {"would_cancel_inflight", "promotion", "superseded_task_ids", "replacement_task_ids"}
    ensures f != "channel" && f != "dry_run" && f != "ladder_level"
  {
    assert |"would_cancel_inflight"| == 21 && |"promotion"| == 9 && |"superseded_task_ids"| == 19 &&
           |"replacement_task_ids"| == 20 && |"channel"| == 7 && |"dry_run"| == 7 && |"ladder_level"| == 12;
  }

  /** Two signals are shown alike on every decision field exactly when they decide the same. */
  lemma ShownAlike(a: Signal, b: Signal)
    ensures SameDecision(a, b) <==> forall f <- DECISION_FIELDS :: Shown(a, f) == Shown(b, f)
  {
    LevelShown(a);
    LevelShown(b);
    DryShown(a, b);
    forall f | f in {"would_cancel_inflight", "promotion", "superseded_task_ids", "replacement_task_ids"}
      ensures Shown(a, f) == Said(a, f) && Shown(b, f) == Said(b, f)
    {
      OtherName(f);
      EntryShown(a, f);
      EntryShown(b, f);
    }
    forall f ensures f in DECISION_FIELDS <==>
        f in {"ladder_level", "would_cancel_inflight", "promotion", "superseded_task_ids", "replacement_task_ids",
              "dry_run"}
    {
      FieldNames(f);
    }
  }

  /** An aligned pair diverges exactly when the ladder level, the dry-run flag or one of the four
      recorded decisions differs; the channel never counts. */
  lemma DivergesByField(legacy: seq<Signal>, recent: seq<Signal>, e: Entry)
    requires e in Report(legacy, recent) && e.present == Both
    ensures e.key in Index(legacy) && e.key in Index(recent)
    ensures Diverged(e) <==> !SameDecision(Index(legacy)[e.key], Index(recent)[e.key])
  {
    DivergesIff(legacy, recent, e);
    ShownAlike(Index(legacy)[e.key], Index(recent)[e.key]);
  }

  // ----- transport

  lemma ChannelShown(s: Signal)
    ensures Shown(s, "channel") == Some(s.channel)
    ensures Shown(s, "channel_action") == Said(s, "channel_action")
  {
    assert |"channel_action"| == 14 && |"channel"| == 7 && |"dry_run"| == 7 && |"ladder_level"| == 12;
  }

  /** The channel and its action are listed beside an aligned pair exactly when they differ. */
  lemma TransportListed(legacy: seq<Signal>, recent: seq<Signal>, e: Entry)
    requires e in Report(legacy, recent) && e.present == Both
    ensures e.key in Index(legacy) && e.key in Index(recent)
    ensures var a, b := Index(legacy)[e.key], Index(recent)[e.key];
            && ("channel" in e.transport <==> a.channel != b.channel)
            && ("channel_action" in e.transport <==> Said(a, "channel_action") != Said(b, "channel_action"))
  {
    EntryAt(legacy, recent, e);
    var a, b := Index(legacy)[e.key], Index(recent)[e.key];
    ChannelShown(a);
    ChannelShown(b);
    assert TRANSPORT_FIELDS[0] == "channel" && TRANSPORT_FIELDS[1] == "channel_action";
    forall f | f in TRANSPORT_FIELDS
      ensures Field(DecisionView(a), f) == Shown(a, f) && Field(DecisionView(b), f) == Shown(b, f)
    {
      assert f in DECISION_FIELDS + TRANSPORT_FIELDS;
    }
  }

  /** An entry is on both sides, or on one, according to the keys of the logs. */
  lemma PresenceIff(legacy: seq<Signal>, recent: seq<Signal>, e: Entry)
    requires e in Report(legacy, recent)
    ensures e.present == Both <==> e.key in Index(legacy) && e.key in Index(recent)
    ensures e.present == LegacyOnly <==> e.key !in Index(recent)
    ensures e.present == NewOnly <==> e.key !in Index(legacy)
  {
    EntryAt(legacy, recent, e);
  }

  // ----- the order of the report

  /** `a` is a proper beginning of `b`, or smaller at the first place where they differ. */
  ghost predicate Lexicographic(a: string, b: string)
  {
    || (|a| < |b| && b[..|a|] == a)
    || exists k :: 0 <= k < |a| && k < |b| && a[..k] == b[..k] && a[k] < b[k]
  }

  lemma {:induction false} BelowIff(a: string, b: string)
    ensures Below(a, b) <==> Lexicographic(a, b)
    decreases |a|
  {
    if a != "" && b != "" {
      var s, t := a[1..], b[1..];
      BelowIff(s, t);
      if a[0] == b[0] {
        assert a == [a[0]] + s && b == [a[0]] + t;
        TailOrder(a[0], s, t);
      } else {
        if a[0] < b[0] {
          assert a[..0] == b[..0];
        }
      }
    }
  }

  lemma TailOrder(c: char, s: string, t: string)
    ensures Lexicographic([c] + s, [c] + t) <==> Lexicographic(s, t)
  {
    var a, b := [c] + s, [c] + t;
    if |s| < |t| && t[..|s|] == s {
      assert b[..|a|] == [c] + t[..|s|];
    }
    if |a| < |b| && b[..|a|] == a {
      assert b[..|a|][1..] == t[..|s|] && a[1..] == s;
    }
    if k :| 0 <= k < |s| && k < |t| && s[..k] == t[..k] && s[k] < t[k] {
      assert a[..k + 1] == [c] + s[..k] && b[..k + 1] == [c] + t[..k] && a[k + 1] < b[k + 1];
    }
    if k :| 0 <= k < |a| && k < |b| && a[..k] == b[..k] && a[k] < b[k] {
      assert k > 0 && a[..k][1..] == s[..k - 1] && b[..k][1..] == t[..k - 1] && s[k - 1] < t[k - 1];
    }
  }

  /** The report is ordered by kind, then task, then occurrence. */
  lemma ReportOrder(legacy: seq<Signal>, recent: seq<Signal>, i: nat, j: nat)
    requires i < j < |Report(legacy, recent)|
    ensures var a, b := Report(legacy, recent)[i].key, Report(legacy, recent)[j].key;
            || Lexicographic(a.kind, b.kind)
            || (a.kind == b.kind && Lexicographic(a.task, b.task))
            || (a.kind == b.kind && a.task == b.task && a.occurrence < b.occurrence)
  {
    AllKeysSpec(legacy, recent);
    var a, b := AllKeys(legacy, recent)[i], AllKeys(legacy, recent)[j];
    assert Before(a, b);
    BelowIff(a.kind, b.kind);
    BelowIff(a.task, b.task);
  }

  // ----- what an entry shows

  /** An entry shows, for each log that has its key, the fields of that log's own signal, and nothing for
      a log that has not. */
  lemma EntryShows(legacy: seq<Signal>, recent: seq<Signal>, e: Entry, f: string)
    requires e in Report(legacy, recent) && f in DECISION_FIELDS + TRANSPORT_FIELDS
    ensures e.legacy.Some? <==> e.key in Index(legacy)
    ensures e.recent.Some? <==> e.key in Index(recent)
    ensures e.legacy.Some? ==> Field(e.legacy.value, f) == Shown(Index(legacy)[e.key], f)
    ensures e.recent.Some? ==> Field(e.recent.value, f) == Shown(Index(recent)[e.key], f)
  {
    EntryAt(legacy, recent, e);
  }
}
