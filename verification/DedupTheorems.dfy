/**
  The clean-up of the deduplicator is invisible, true answers keep their distance, and
  when two alerts share a group.
*/
module DedupTheorems {
  import opened DedupModel

  // ---------------------------------------------------------------- the clean-up is invisible

  // The cleaned groups are those of the full history, except for some that have expired for all later calls.
  ghost predicate Forgets(window: real, kept: Groups, full: Groups, calls: seq<Call>, n: nat) {
    && (forall key :: key in kept ==> key in full && kept[key] == full[key])
    && (forall key :: key in full ==> full[key].firstSeen <= full[key].lastSeen)
    && (forall key :: key in full && key !in kept ==>
          forall k :: n <= k < |calls| && Timed(calls[k]) ==> Expired(window, full[key], calls[k].now))
  }

  lemma {:induction false} CleaningForgets(window: real, kept: Groups, full: Groups, calls: seq<Call>, n: nat)
    requires InOrder(calls) && n < |calls| && Timed(calls[n])
    requires Forgets(window, kept, full, calls, n)
    ensures Forgets(window, Cleaned(window, kept, calls[n].now), full, calls, n)
  {
    var now := calls[n].now;
    var cleaned := Cleaned(window, kept, now);
    forall key, k | key in full && key !in cleaned && n <= k < |calls| && Timed(calls[k])
      ensures Expired(window, full[key], calls[k].now)
    {
      if key in kept {
        assert Expired(window, kept[key], now);
        assert k > n ==> now <= calls[k].now;
      }
    }
  }

  lemma {:induction false} StatsAgree(window: real, kept: Groups, full: Groups, calls: seq<Call>, n: nat)
    requires n < |calls| && calls[n].GetStats? && Forgets(window, kept, full, calls, n)
    ensures StatsOf(window, kept, calls[n].now) == StatsOf(window, full, calls[n].now)
  {
    var now := calls[n].now;
    forall key | key in full && key !in kept ensures Expired(window, full[key], now) {
      assert Timed(calls[n]);
    }
    assert StatsOf(window, kept, now).Keys == StatsOf(window, full, now).Keys;
  }

  // Forgetting is kept when a group that both or neither hold is replaced by a new one in both.
  lemma {:induction false} ReplaceForgets(window: real, kept: Groups, full: Groups, calls: seq<Call>, n: nat,
                                          key: string, g: Group)
    requires Forgets(window, kept, full, calls, n) && g.firstSeen <= g.lastSeen
    ensures Forgets(window, kept[key := g], full[key := g], calls, n + 1)
    ensures Forgets(window, kept, full, calls, n + 1)
    // A group that only the full history holds may change its marks.
    ensures key !in kept && key in full && g.lastSeen == full[key].lastSeen ==>
              Forgets(window, kept, full[key := g], calls, n + 1)
  {
  }

  lemma {:induction false} AskAgrees(window: real, kept: Groups, full: Groups, calls: seq<Call>, n: nat)
    requires window >= 0.0 && n < |calls| && calls[n].Ask? && Forgets(window, kept, full, calls, n)
    requires AskKey(calls[n]) in full && AskKey(calls[n]) in kept ==> full[AskKey(calls[n])].lastSeen <= calls[n].now
    ensures Opens(window, kept, calls[n]) == Opens(window, full, calls[n])
    ensures AnswerAsk(window, kept, calls[n]) == AnswerAsk(window, full, calls[n])
    ensures Forgets(window, AfterAsk(window, kept, calls[n]), AfterAsk(window, full, calls[n]), calls, n + 1)
  {
    hide Forgets;
    var c := calls[n];
    var key := AskKey(c);
    ForgetsAt(window, kept, full, calls, n, key);
    var g := if Opens(window, full, c) then Fresh(c) else full[key].(count := full[key].count + 1, lastSeen := c.now);
    assert key in full && key !in kept ==> Expired(window, full[key], c.now);
    ReplaceForgets(window, kept, full, calls, n, key, g);
  }

  lemma {:induction false} ForgetsAt(window: real, kept: Groups, full: Groups, calls: seq<Call>, n: nat, key: string)
    requires n < |calls| && Forgets(window, kept, full, calls, n)
    ensures key in kept ==> key in full && kept[key] == full[key]
    ensures key in full ==> full[key].firstSeen <= full[key].lastSeen
    ensures key in full && key !in kept && Timed(calls[n]) ==> Expired(window, full[key], calls[n].now)
  {
  }

  lemma {:induction false} CallsAgree(window: real, kept: Groups, full: Groups, calls: seq<Call>, n: nat)
    requires window >= 0.0 && n < |calls|
    requires Forgets(window, kept, full, calls, n) && SeenBefore(full, calls, n)
    ensures Apply(window, kept, calls[n]).1 == Apply(window, full, calls[n]).1
    ensures Forgets(window, Apply(window, kept, calls[n]).0, Apply(window, full, calls[n]).0, calls, n + 1)
  {
    hide Forgets, AfterAsk, AnswerAsk, StatsOf;
    match calls[n] {
      case Ask(_, _, _, _) =>
        assert Timed(calls[n]);
        AskAgrees(window, kept, full, calls, n);
      case MarkInvestigated(key) =>
        ForgetsAt(window, kept, full, calls, n, key);
        if key in full {
          ReplaceForgets(window, kept, full, calls, n, key, full[key].(investigated := true, status := Investigating));
        } else {
          ReplaceForgets(window, kept, full, calls, n, key, Fresh(Ask("", "", None, 0.0)));
        }
      case MarkResolved(key) =>
        ForgetsAt(window, kept, full, calls, n, key);
        if key in full {
          ReplaceForgets(window, kept, full, calls, n, key, full[key].(status := Resolved));
        } else {
          ReplaceForgets(window, kept, full, calls, n, key, Fresh(Ask("", "", None, 0.0)));
        }
      case GetStats(_) =>
        StatsAgree(window, kept, full, calls, n);
        ReplaceForgets(window, kept, full, calls, n, "", Fresh(Ask("", "", None, 0.0)));
    }
  }

  // No group was last seen after a call that is still to come.
  ghost predicate SeenBefore(full: Groups, calls: seq<Call>, n: nat) {
    forall key, k :: key in full && n <= k < |calls| && Timed(calls[k]) ==> full[key].lastSeen <= calls[k].now
  }

  lemma {:induction false} AlwaysSeenBefore(window: real, calls: seq<Call>, n: nat)
    requires InOrder(calls) && n <= |calls|
    ensures SeenBefore(Without(window, calls, n), calls, n)
  {
    if n > 0 {
      AlwaysSeenBefore(window, calls, n - 1);
      var full, c := Without(window, calls, n), calls[n - 1];
      forall key, k | key in full && n <= k < |calls| && Timed(calls[k]) ensures full[key].lastSeen <= calls[k].now {
        assert Timed(c) ==> c.now <= calls[k].now;
      }
    }
  }

  lemma {:induction false} StatesForget(window: real, calls: seq<Call>, n: nat)
    requires window >= 0.0 && InOrder(calls) && n <= |calls|
    ensures Forgets(window, With(window, calls, n).groups, Without(window, calls, n), calls, n)
    ensures n < |calls| ==> AnswerWith(window, calls, n) == AnswerWithout(window, calls, n)
  {
    hide Forgets, Apply, Cleaned, Expired, SeenBefore;
    AlwaysSeenBefore(window, calls, n);
    if n == 0 {
      NothingForgotten(window, calls);
    } else {
      StatesForget(window, calls, n - 1);
      AlwaysSeenBefore(window, calls, n - 1);
      CollectForgets(window, calls, n - 1);
      CallsAgree(window, Collected(window, With(window, calls, n - 1), calls[n - 1]).groups,
                 Without(window, calls, n - 1), calls, n - 1);
    }
    if n < |calls| {
      CollectForgets(window, calls, n);
      CallsAgree(window, Collected(window, With(window, calls, n), calls[n]).groups, Without(window, calls, n), calls,
                 n);
    }
  }

  lemma {:induction false} NothingForgotten(window: real, calls: seq<Call>)
    ensures Forgets(window, map[], map[], calls, 0)
  {
  }

  lemma {:induction false} CollectForgets(window: real, calls: seq<Call>, n: nat)
    requires InOrder(calls) && n < |calls|
    requires Forgets(window, With(window, calls, n).groups, Without(window, calls, n), calls, n)
    ensures Forgets(window, Collected(window, With(window, calls, n), calls[n]).groups, Without(window, calls, n),
                    calls, n)
  {
    hide Forgets, Cleaned;
    if calls[n].Ask? {
      CleaningForgets(window, With(window, calls, n).groups, Without(window, calls, n), calls, n);
    }
  }

  /** Over every sequence of calls, deleting expired groups changes no answer and no statistics. */
  lemma {:induction false} CleanupInvisible(window: real, calls: seq<Call>, n: nat)
    requires window >= 0.0 && InOrder(calls) && n < |calls|
    ensures AnswerWith(window, calls, n) == AnswerWithout(window, calls, n)
  {
    StatesForget(window, calls, n);
  }

  // ---------------------------------------------------------------- spacing of investigations

  // Call k asks about the key and is told to investigate.
  predicate SaysYes(window: real, calls: seq<Call>, k: nat, key: string)
    requires k < |calls|
  {
    calls[k].Ask? && AskKey(calls[k]) == key && AnswerWith(window, calls, k) == Investigate(true, key)
  }

  // Between a true answer for the key and the next question on it inside the window, the group is marked.
  ghost predicate MarkedInTime(window: real, calls: seq<Call>, key: string) {
    forall i: nat, j: nat :: i < j < |calls| && SaysYes(window, calls, i, key) && Within(window, calls, i, j, key) ==>
                               !Unmarked(calls, i, j, key)
  }

  // Call j asks about the key no more than a window after call i.
  predicate Within(window: real, calls: seq<Call>, i: nat, j: nat, key: string)
    requires i < |calls| && j < |calls|
  {
    calls[i].Ask? && calls[j].Ask? && AskKey(calls[j]) == key && calls[j].now - calls[i].now <= window
  }

  // True answers were given no later than the group was opened, and a group opened by one is investigated
  // once it is marked.
  ghost predicate GroupTells(window: real, calls: seq<Call>, n: nat, key: string)
    requires n <= |calls|
  {
    var full := Without(window, calls, n);
    forall i: nat :: i < n && SaysYes(window, calls, i, key) ==>
      && key in full
      && calls[i].now <= full[key].firstSeen
      && (full[key].investigated || HasOpener(window, calls, n, key, full[key].firstSeen))
  }

  // The true answer j opened the group at that time, and no mark has followed.
  ghost predicate Opener(window: real, calls: seq<Call>, j: nat, n: nat, key: string, since: real)
    requires j < n <= |calls|
  {
    SaysYes(window, calls, j, key) && calls[j].now == since && Unmarked(calls, j, n, key)
  }

  ghost predicate HasOpener(window: real, calls: seq<Call>, n: nat, key: string, since: real)
    requires n <= |calls|
  {
    exists j: nat :: j < n && Opener(window, calls, j, n, key, since)
  }

  predicate Unmarked(calls: seq<Call>, j: nat, n: nat, key: string)
    requires n <= |calls|
  {
    forall m :: j < m < n ==> calls[m] != MarkInvestigated(key)
  }

  lemma {:induction false} GroupTellsRun(window: real, calls: seq<Call>, n: nat, key: string)
    requires window >= 0.0 && InOrder(calls) && MarkedInTime(window, calls, key) && n <= |calls|
    ensures GroupTells(window, calls, n, key)
  {
    hide AnswerWith, SaysYes;
    if n > 0 {
      GroupTellsRun(window, calls, n - 1, key);
      TellsStep(window, calls, n - 1, key);
    }
  }

  lemma {:induction false} TellsStep(window: real, calls: seq<Call>, n: nat, key: string)
    requires window >= 0.0 && InOrder(calls) && MarkedInTime(window, calls, key) && n < |calls|
    requires GroupTells(window, calls, n, key)
    ensures GroupTells(window, calls, n + 1, key)
  {
    hide AnswerWith, With;
    var before, after, c := Without(window, calls, n), Without(window, calls, n + 1), calls[n];
    assert after == Apply(window, before, c).0;
    YesExactly(window, calls, n, key);
    if SaysYes(window, calls, n, key) {
      forall i: nat | i < n + 1 && SaysYes(window, calls, i, key)
        ensures key in after && calls[i].now <= after[key].firstSeen
      {
        if i < n {
          YesMeansOpen(window, calls, i, n, key);
        } else {
          FirstYes(window, calls, n, key);
        }
      }
      FirstYes(window, calls, n, key);
      assert after[key].firstSeen == c.now;
      assert Opener(window, calls, n, n + 1, key, c.now);
    } else {
      forall i: nat | i < n + 1 && SaysYes(window, calls, i, key)
        ensures key in after && calls[i].now <= after[key].firstSeen
        ensures after[key].investigated
                || HasOpener(window, calls, n + 1, key, after[key].firstSeen)
      {
        assert i < n && key in before;
        if !after[key].investigated {
          assert !before[key].investigated;
          var j: nat :| j < n && Opener(window, calls, j, n, key, before[key].firstSeen);
          assert Opener(window, calls, j, n + 1, key, after[key].firstSeen);
        }
      }
    }
  }

  // A question about the key is answered yes exactly when it opens a group or finds one not investigated.
  lemma {:induction false} YesExactly(window: real, calls: seq<Call>, n: nat, key: string)
    requires window >= 0.0 && InOrder(calls) && n < |calls|
    ensures SaysYes(window, calls, n, key) <==>
              && calls[n].Ask? && AskKey(calls[n]) == key
              && (Opens(window, Without(window, calls, n), calls[n]) || !Without(window, calls, n)[key].investigated)
  {
    hide AnswerWith, Without;
    CleanupInvisible(window, calls, n);
  }

  // Every group was opened no later than now; a yes without an earlier one need not open a group of its own.
  lemma {:induction false} FirstYes(window: real, calls: seq<Call>, n: nat, key: string)
    requires window >= 0.0 && InOrder(calls) && MarkedInTime(window, calls, key) && n < |calls|
    requires GroupTells(window, calls, n, key) && SaysYes(window, calls, n, key)
    ensures Opens(window, Without(window, calls, n), calls[n])
  {
    hide AnswerWith, With;
    YesExactly(window, calls, n, key);
    var full := Without(window, calls, n);
    if key in full {
      OpenedByYes(window, calls, n, key);
      var i: nat :| i < n && SaysYes(window, calls, i, key);
      YesMeansOpen(window, calls, i, n, key);
    }
  }

  // A group exists only because some question about its key was answered yes.
  lemma {:induction false} OpenedByYes(window: real, calls: seq<Call>, n: nat, key: string)
    requires window >= 0.0 && InOrder(calls) && n <= |calls| && key in Without(window, calls, n)
    ensures exists i: nat :: i < n && SaysYes(window, calls, i, key)
  {
    hide AnswerWith, With, SaysYes;
    if key in Without(window, calls, n - 1) {
      OpenedByYes(window, calls, n - 1, key);
    } else {
      YesExactly(window, calls, n - 1, key);
      assert SaysYes(window, calls, n - 1, key);
    }
  }

  // A later true answer for the key opened a new group.
  lemma {:induction false} YesMeansOpen(window: real, calls: seq<Call>, i: nat, n: nat, key: string)
    requires window >= 0.0 && InOrder(calls) && MarkedInTime(window, calls, key) && i < n < |calls|
    requires GroupTells(window, calls, n, key)
    requires SaysYes(window, calls, i, key) && SaysYes(window, calls, n, key)
    ensures Opens(window, Without(window, calls, n), calls[n])
    ensures calls[n].now - calls[i].now > window
  {
    hide AnswerWith, With;
    YesExactly(window, calls, n, key);
    var full := Without(window, calls, n);
    assert key in full && calls[i].now <= full[key].firstSeen;
  }

  // When the groups are marked in time, two true answers for a key are more than a window apart.
  lemma {:induction false} InvestigationsSpaced(window: real, calls: seq<Call>, i: nat, n: nat, key: string)
    requires window >= 0.0 && InOrder(calls) && MarkedInTime(window, calls, key) && i < n < |calls|
    requires SaysYes(window, calls, i, key) && SaysYes(window, calls, n, key)
    ensures calls[n].now - calls[i].now > window
  {
    hide With, SaysYes, GroupTells;
    GroupTellsRun(window, calls, n, key);
    YesMeansOpen(window, calls, i, n, key);
  }

  // After a true answer, questions before the next mark find the group not investigated, or open it again.
  lemma {:induction false} OpenUntilMarked(window: real, calls: seq<Call>, i: nat, n: nat, key: string)
    requires window >= 0.0 && InOrder(calls) && i < n <= |calls|
    requires SaysYes(window, calls, i, key) && Unmarked(calls, i, n, key)
    ensures key in Without(window, calls, n) && !Without(window, calls, n)[key].investigated
    decreases n
  {
    hide AnswerWith, With, SaysYes;
    YesExactly(window, calls, i, key);
    if n > i + 1 {
      OpenUntilMarked(window, calls, i, n - 1, key);
      assert calls[n - 1] != MarkInvestigated(key);
    }
  }

  // Every two true answers for the key are more than a window apart.
  ghost predicate Spaced(window: real, calls: seq<Call>, key: string) {
    forall i: nat, n: nat :: i < n < |calls| && SaysYes(window, calls, i, key) && SaysYes(window, calls, n, key) ==>
                               calls[n].now - calls[i].now > window
  }

  /**
    The true answers for a key keep a window's distance exactly when each of them is marked before the next
    question on the key inside its window.
   */
  lemma {:induction false} SpacedExactly(window: real, calls: seq<Call>, key: string)
    requires window >= 0.0 && InOrder(calls)
    ensures Spaced(window, calls, key) <==> MarkedInTime(window, calls, key)
  {
    hide With, GroupTells, Without, AnswerWith;
    if MarkedInTime(window, calls, key) {
      forall i: nat, n: nat | i < n < |calls| && SaysYes(window, calls, i, key) && SaysYes(window, calls, n, key)
        ensures calls[n].now - calls[i].now > window
      {
        InvestigationsSpaced(window, calls, i, n, key);
      }
    }
    if Spaced(window, calls, key) {
      forall i: nat, j: nat | i < j < |calls| && SaysYes(window, calls, i, key) && Within(window, calls, i, j, key)
        ensures !Unmarked(calls, i, j, key)
      {
        if Unmarked(calls, i, j, key) {
          OpenUntilMarked(window, calls, i, j, key);
          YesExactly(window, calls, j, key);
        }
      }
    }
  }

  // ---------------------------------------------------------------- alerts received one after the other

  // Every question answered yes is followed at once by the mark of its group.
  ghost predicate YesThenMark(window: real, calls: seq<Call>) {
    forall k: nat :: k < |calls| && calls[k].Ask?
                     && AnswerWith(window, calls, k) == Investigate(true, AskKey(calls[k])) ==>
                       k + 1 < |calls| && calls[k + 1] == MarkInvestigated(AskKey(calls[k]))
  }

  lemma {:induction false} SamePrefix(window: real, calls: seq<Call>, more: seq<Call>, n: nat)
    requires n <= |calls|
    ensures With(window, calls + more, n) == With(window, calls, n)
    ensures n < |calls| ==> AnswerWith(window, calls + more, n) == AnswerWith(window, calls, n)
  {
    hide Serve;
    if n > 0 {
      SamePrefix(window, calls, more, n - 1);
    }
  }

  // The calls that one alert makes, given the answer to its question.
  function AlertCalls(ask: Call, yes: bool): seq<Call>
    requires ask.Ask?
  {
    if yes then [ask, MarkInvestigated(AskKey(ask))] else [ask]
  }

  lemma {:induction false} OneMoreAlert(window: real, calls: seq<Call>, ask: Call, yes: bool)
    requires ask.Ask? && YesThenMark(window, calls)
    requires Serve(window, With(window, calls, |calls|), ask).1 == Investigate(yes, AskKey(ask))
    ensures var all := calls + AlertCalls(ask, yes);
            && YesThenMark(window, all)
            && With(window, all, |calls| + 1) == Serve(window, With(window, calls, |calls|), ask).0
            && (yes ==> With(window, all, |all|) ==
                        Serve(window, With(window, all, |calls| + 1), MarkInvestigated(AskKey(ask))).0)
  {
    hide Serve;
    var more := AlertCalls(ask, yes);
    var all := calls + more;
    SamePrefix(window, calls, more, |calls|);
    assert all[|calls|] == ask;
    forall k: nat | k < |all| && all[k].Ask? && AnswerWith(window, all, k) == Investigate(true, AskKey(all[k]))
      ensures k + 1 < |all| && all[k + 1] == MarkInvestigated(AskKey(all[k]))
    {
      if k < |calls| {
        SamePrefix(window, calls, more, k);
        assert all[k] == calls[k];
        assert calls[k + 1] == all[k + 1];
      }
    }
  }

  lemma {:induction false} MarkedAtOnce(window: real, calls: seq<Call>, key: string)
    requires YesThenMark(window, calls)
    ensures MarkedInTime(window, calls, key)
  {
    hide AnswerWith;
    forall i: nat, j: nat | i < j < |calls| && SaysYes(window, calls, i, key) && Within(window, calls, i, j, key)
      ensures !Unmarked(calls, i, j, key)
    {
      assert calls[i + 1] == MarkInvestigated(key);
    }
  }

  /** Alerts received one after the other start investigations of one group more than a window apart. */
  lemma {:induction false} ReceivedAlertsSpaced(window: real, calls: seq<Call>, i: nat, n: nat, key: string)
    requires window >= 0.0 && InOrder(calls) && YesThenMark(window, calls) && i < n < |calls|
    requires SaysYes(window, calls, i, key) && SaysYes(window, calls, n, key)
    ensures calls[n].now - calls[i].now > window
  {
    hide SaysYes, YesThenMark, MarkedInTime;
    MarkedAtOnce(window, calls, key);
    InvestigationsSpaced(window, calls, i, n, key);
  }

  /** Without marks in time it fails: two requests that ask before either marks are both told to investigate. */
  lemma {:induction false} InterleavedBothInvestigate(window: real, c1: Call, c2: Call)
    requires window >= 0.0 && c1.Ask? && c2.Ask? && AskKey(c1) == AskKey(c2) && c1.now <= c2.now
    ensures var key := AskKey(c1);
            var calls := [c1, c2, MarkInvestigated(key), MarkInvestigated(key)];
            InOrder(calls) && SaysYes(window, calls, 0, key) && SaysYes(window, calls, 1, key)
  {
    var key := AskKey(c1);
    var calls := [c1, c2, MarkInvestigated(key), MarkInvestigated(key)];
    assert Without(window, calls, 0) == map[];
    assert Without(window, calls, 1) == map[key := Fresh(c1)];
    YesExactly(window, calls, 0, key);
    YesExactly(window, calls, 1, key);
  }

  // ---------------------------------------------------------------- keys

  // No colon could be taken for one of the two that MakeKey puts in.
  predicate Unambiguous(alertname: string, cluster: string, scope: string)
    requires scope != ""
  {
    ':' !in alertname && ':' !in cluster && ':' !in scope[..|scope| - 1]
  }

  lemma {:induction false} ScopeNeverEmpty(namespace: Option<string>)
    ensures Scope(namespace) != ""
    ensures forall s: string :: s != "" ==> Scope(Some(s)) == s
  {
  }

  // The part before the first colon, and the part after it.
  lemma {:induction false} CutAtColon(s: string) returns (x: string, y: string)
    requires ':' in s
    ensures s == x + ":" + y && ':' !in x
  {
    if s[0] == ':' {
      x, y := "", s[1..];
    } else {
      assert s == [s[0]] + s[1..];
      x, y := CutAtColon(s[1..]);
      x := [s[0]] + x;
    }
  }

  // Of two ways to read a key, the one with a colon-free first part has the shorter first part.
  lemma {:induction false} FirstColon(a: string, b: string, x: string, y: string)
    requires ':' !in a && a + ":" + x == b + ":" + y
    ensures |a| <= |b| && (|a| == |b| ==> a == b && x == y)
  {
    var s, t := a + ":" + x, b + ":" + y;
    assert t[|b|] == ':';
    assert forall k :: 0 <= k < |a| ==> s[k] == a[k];
    assert |a| == |b| ==> s[..|a|] == a && t[..|b|] == b && s[|a| + 1..] == x && t[|b| + 1..] == y;
  }

  lemma {:induction false} OneReading(a: string, c: string, s: string, a2: string, c2: string, s2: string)
    requires s != "" && s2 != "" && Unambiguous(a, c, s)
    requires a + ":" + c + ":" + s == a2 + ":" + c2 + ":" + s2
    ensures a == a2 && c == c2 && s == s2
  {
    var key := a + ":" + c + ":" + s;
    assert key == a + ":" + (c + ":" + s) == a2 + ":" + (c2 + ":" + s2);
    FirstColon(a, a2, c + ":" + s, c2 + ":" + s2);
    assert (a2 + ":" + c2) + ":" + s2 == key;
    var p, q := |a2|, |a2| + 1 + |c2|;
    assert key[p] == ':' && key[q] == ':' && q < |key| - 1;
    assert forall k :: |a| < k < |a| + 1 + |c| ==> key[k] == c[k - |a| - 1];
    assert forall k :: |a| + 1 + |c| < k < |key| - 1 ==> key[k] == s[..|s| - 1][k - |a| - |c| - 2];
    assert p == |a|;
    FirstColon(c, c2, s, s2);
  }

  // A colon inside one of the parts allows another reading, with another cluster or alert name.
  lemma {:induction false} OtherReading(a: string, c: string, s: string) returns (a2: string, c2: string, s2: string)
    requires s != "" && !Unambiguous(a, c, s)
    ensures s2 != "" && a + ":" + c + ":" + s == a2 + ":" + c2 + ":" + s2
    ensures a != a2 || c != c2
  {
    if ':' in a {
      var x, y := CutAtColon(a);
      a2, c2, s2 := x, y, c + ":" + s;
    } else if ':' in c {
      var x, y := CutAtColon(c);
      a2, c2, s2 := a, x, y + ":" + s;
    } else {
      var front := s[..|s| - 1];
      var x, y := CutAtColon(front);
      assert s == front + [s[|s| - 1]];
      a2, c2, s2 := a, c + ":" + x, y + [s[|s| - 1]];
    }
  }

  /**
    The group of an alert is its own, shared only with alerts of the same name, cluster and scope, exactly
    when its name, its cluster and all but the last character of its scope are free of colons.
   */
  lemma {:induction false} KeysSeparate(a: string, c: string, n: Option<string>)
    ensures (forall a2, c2, n2 :: MakeKey(a2, c2, n2) == MakeKey(a, c, n) ==>
                                    a2 == a && c2 == c && Scope(n2) == Scope(n))
            <==> Unambiguous(a, c, Scope(n))
  {
    hide Scope, Unambiguous;
    ScopeNeverEmpty(n);
    if Unambiguous(a, c, Scope(n)) {
      forall a2, c2, n2 | MakeKey(a2, c2, n2) == MakeKey(a, c, n) ensures a2 == a && c2 == c && Scope(n2) == Scope(n) {
        ScopeNeverEmpty(n2);
        OneReading(a, c, Scope(n), a2, c2, Scope(n2));
      }
    } else {
      var a2, c2, s2 := OtherReading(a, c, Scope(n));
      assert MakeKey(a2, c2, Some(s2)) == MakeKey(a, c, n);
    }
  }

  // A namespace that counts as all of them.
  predicate Everywhere(namespace: Option<string>) {
    namespace in {None, Some(""), Some("_all_")}
  }

  /** Two namespaces have the same scope exactly when they are equal or both count as all of them. */
  lemma {:induction false} ScopesSeparate(n1: Option<string>, n2: Option<string>)
    ensures Scope(n1) == Scope(n2) <==> n1 == n2 || (Everywhere(n1) && Everywhere(n2))
  {
  }

  /** With colons, or a namespace called "_all_", different alerts can share a group. */
  lemma {:induction false} KeysCollide()
    ensures MakeKey("a:b", "c", None) == MakeKey("a", "b:c", None)
    ensures MakeKey("a", "b", Some("_all_")) == MakeKey("a", "b", None)
  {
    assert MakeKey("a:b", "c", None) == "a:b:c:_all_";
    assert MakeKey("a", "b:c", None) == "a:b:c:_all_";
  }
}
