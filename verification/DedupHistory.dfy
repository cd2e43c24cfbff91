/**
  The deduplicator told from its calls alone: which questions open a group, what every answer is, and what
  every statistic reports, without the groups or their clean-up.
*/
module DedupHistory {
  import opened DedupModel
  import opened DedupTheorems

  predicate Asks(c: Call, key: string) {
    c.Ask? && AskKey(c) == key
  }

  // The last of the first n calls that opens the group of the key: the first question on it, or one more
  // than a window after the last opening. Negative if there is none.
  function LastOpening(window: real, calls: seq<Call>, n: nat, key: string): (o: int)
    requires n <= |calls|
    ensures -1 <= o < n && (o >= 0 ==> Asks(calls[o], key))
  {
    if n == 0 then -1
    else
      var o := LastOpening(window, calls, n - 1, key);
      if Asks(calls[n - 1], key) && (o < 0 || calls[n - 1].now - calls[o].now > window) then n - 1 else o
  }

  function LastQuestion(calls: seq<Call>, n: nat, key: string): (q: int)
    requires n <= |calls|
    ensures -1 <= q < n && (q >= 0 ==> Asks(calls[q], key))
  {
    if n == 0 then -1 else if Asks(calls[n - 1], key) then n - 1 else LastQuestion(calls, n - 1, key)
  }

  // The questions on the key among the calls from the first index up to the second.
  function Questions(calls: seq<Call>, from: nat, n: nat, key: string): nat
    requires from <= n <= |calls|
  {
    if n == from then 0 else Questions(calls, from, n - 1, key) + (if Asks(calls[n - 1], key) then 1 else 0)
  }

  // The last mark of the key in that range, as a status.
  function LastMark(calls: seq<Call>, from: nat, n: nat, key: string): Status
    requires from <= n <= |calls|
  {
    if n == from then Firing
    else if calls[n - 1] == MarkInvestigated(key) then Investigating
    else if calls[n - 1] == MarkResolved(key) then Resolved
    else LastMark(calls, from, n - 1, key)
  }

  // The group of the key as its history tells it.
  function Told(window: real, calls: seq<Call>, n: nat, key: string): Group
    requires n <= |calls| && LastOpening(window, calls, n, key) >= 0 && LastQuestion(calls, n, key) >= 0
  {
    var o := LastOpening(window, calls, n, key);
    Group(calls[o].alertname, calls[o].cluster, calls[o].namespace, calls[o].now,
          calls[LastQuestion(calls, n, key)].now, Questions(calls, o, n, key), LastMark(calls, o, n, key),
          !Unmarked(calls, o, n, key))
  }

  lemma {:induction false} OpeningIsQuestion(window: real, calls: seq<Call>, n: nat, key: string)
    requires n <= |calls|
    ensures LastOpening(window, calls, n, key) <= LastQuestion(calls, n, key)
    ensures LastQuestion(calls, n, key) >= 0 ==> LastOpening(window, calls, n, key) >= 0
  {
    if n > 0 {
      OpeningIsQuestion(window, calls, n - 1, key);
    }
  }

  // What a call does to the group of one key.
  lemma {:induction false} CallOnKey(window: real, groups: Groups, c: Call, key: string)
    ensures var after := Apply(window, groups, c).0;
            && (key in after <==> key in groups || Asks(c, key))
            && (key in after ==>
                  if Asks(c, key) then
                    if key !in groups || c.now - groups[key].firstSeen > window then after[key] == Fresh(c)
                    else after[key] == groups[key].(count := groups[key].count + 1, lastSeen := c.now)
                  else if c == MarkInvestigated(key)
                  then after[key] == groups[key].(investigated := true, status := Investigating)
                  else if c == MarkResolved(key) then after[key] == groups[key].(status := Resolved)
                  else after[key] == groups[key])
  {
  }

  // A deduplicator that never deletes holds a group exactly for the keys asked about, and it is the one told.
  lemma {:induction false} GroupIsTold(window: real, calls: seq<Call>, n: nat, key: string)
    requires n <= |calls|
    ensures key in Without(window, calls, n) <==> LastQuestion(calls, n, key) >= 0
    ensures LastQuestion(calls, n, key) >= 0 ==>
              LastOpening(window, calls, n, key) >= 0 && Without(window, calls, n)[key] == Told(window, calls, n, key)
  {
    hide Unmarked, Questions, LastMark, Apply;
    OpeningIsQuestion(window, calls, n, key);
    if n > 0 {
      CallOnKey(window, Without(window, calls, n - 1), calls[n - 1], key);
      GroupIsTold(window, calls, n - 1, key);
      OpeningIsQuestion(window, calls, n - 1, key);
      var o := LastOpening(window, calls, n, key);
      if o >= 0 {
        HistoryStep(calls, o, n, key);
      }
    }
  }

  lemma {:induction false} HistoryStep(calls: seq<Call>, o: nat, n: nat, key: string)
    requires o < n <= |calls|
    ensures Unmarked(calls, o, n, key) <==>
              o == n - 1 || (Unmarked(calls, o, n - 1, key) && calls[n - 1] != MarkInvestigated(key))
    ensures Questions(calls, o, n, key) ==
            (if o == n - 1 then 0 else Questions(calls, o, n - 1, key)) + (if Asks(calls[n - 1], key) then 1 else 0)
    ensures LastMark(calls, o, n, key) ==
            if calls[n - 1] == MarkInvestigated(key) then Investigating
            else if calls[n - 1] == MarkResolved(key) then Resolved
            else if o == n - 1 then Firing else LastMark(calls, o, n - 1, key)
  {
    assert Questions(calls, o, o, key) == 0 && LastMark(calls, o, o, key) == Firing;
    if Unmarked(calls, o, n, key) && o < n - 1 {
      assert calls[n - 1] != MarkInvestigated(key);
    }
  }

  /**
    A question is answered yes exactly when it is the first on its key, comes more than a window after the
    last opening of the group, or finds the group not marked since then.
   */
  lemma {:induction false} AnswerIsTold(window: real, calls: seq<Call>, n: nat, key: string)
    requires window >= 0.0 && InOrder(calls) && n < |calls| && Asks(calls[n], key)
    ensures var o := LastOpening(window, calls, n, key);
            var yes := o < 0 || calls[n].now - calls[o].now > window || Unmarked(calls, o, n, key);
            AnswerWith(window, calls, n) == Investigate(yes, key)
  {
    hide With, Without, LastOpening;
    CleanupInvisible(window, calls, n);
    GroupIsTold(window, calls, n, key);
    OpeningIsQuestion(window, calls, n, key);
  }

  /** The statistics report exactly the keys asked about within two windows, as their history tells them. */
  lemma {:induction false} StatsAreTold(window: real, calls: seq<Call>, n: nat, key: string)
    requires window >= 0.0 && InOrder(calls) && n < |calls| && calls[n].GetStats?
    ensures var q, o := LastQuestion(calls, n, key), LastOpening(window, calls, n, key);
            && AnswerWith(window, calls, n).Groups?
            && var stats := AnswerWith(window, calls, n).stats;
            && (key in stats <==> q >= 0 && calls[n].now - calls[q].now < 2.0 * window)
            && (key in stats ==>
                  && o >= 0
                  && stats[key] == Stats(calls[o].alertname, calls[o].cluster, calls[o].namespace,
                                         Questions(calls, o, n, key), LastMark(calls, o, n, key),
                                         calls[n].now - calls[o].now))
  {
    hide With, Without, LastOpening, LastQuestion, Questions, LastMark, Unmarked;
    CleanupInvisible(window, calls, n);
    GroupIsTold(window, calls, n, key);
    OpeningIsQuestion(window, calls, n, key);
  }

  // ---------------------------------------------------------------- when an investigation is due

  // All earlier true answers for the key are more than a window old.
  ghost predicate Due(window: real, calls: seq<Call>, n: nat, key: string)
    requires n < |calls| && calls[n].Ask?
  {
    forall i: nat :: i < n && SaysYes(window, calls, i, key) ==> calls[n].now - calls[i].now > window
  }

  lemma {:induction false} OpeningSaysYes(window: real, calls: seq<Call>, n: nat, key: string)
    requires window >= 0.0 && InOrder(calls) && n <= |calls| && LastOpening(window, calls, n, key) >= 0
    ensures SaysYes(window, calls, LastOpening(window, calls, n, key), key)
  {
    hide AnswerWith, Unmarked;
    var o := LastOpening(window, calls, n, key);
    if o == n - 1 && LastOpening(window, calls, n - 1, key) != o {
      AnswerIsTold(window, calls, o, key);
    } else {
      OpeningSaysYes(window, calls, n - 1, key);
    }
  }

  /** A question on a key whose true answers are all more than a window old is answered yes. */
  lemma {:induction false} DueIsInvestigated(window: real, calls: seq<Call>, n: nat, key: string)
    requires window >= 0.0 && InOrder(calls) && n < |calls| && Asks(calls[n], key)
    requires Due(window, calls, n, key)
    ensures SaysYes(window, calls, n, key)
  {
    hide AnswerWith, Unmarked, LastOpening;
    AnswerIsTold(window, calls, n, key);
    if LastOpening(window, calls, n, key) >= 0 {
      OpeningSaysYes(window, calls, n, key);
    }
  }

  /** With the groups marked in time, a question is answered yes exactly when an investigation is due. */
  lemma {:induction false} InvestigatedExactly(window: real, calls: seq<Call>, n: nat, key: string)
    requires window >= 0.0 && InOrder(calls) && MarkedInTime(window, calls, key) && n < |calls| && calls[n].Ask?
    ensures SaysYes(window, calls, n, key) <==> Asks(calls[n], key) && Due(window, calls, n, key)
  {
    hide AnswerWith, MarkedInTime;
    if Asks(calls[n], key) && Due(window, calls, n, key) {
      DueIsInvestigated(window, calls, n, key);
    }
    if SaysYes(window, calls, n, key) {
      forall i: nat | i < n && SaysYes(window, calls, i, key) ensures calls[n].now - calls[i].now > window {
        InvestigationsSpaced(window, calls, i, n, key);
      }
    }
  }

  // ---------------------------------------------------------------- what the clean-up is for

  function AllQuestions(calls: seq<Call>, n: nat): nat
    requires n <= |calls|
  {
    if n == 0 then 0 else AllQuestions(calls, n - 1) + (if calls[n - 1].Ask? then 1 else 0)
  }

  lemma {:induction false} CounterCounts(window: real, calls: seq<Call>, n: nat)
    requires n <= |calls|
    ensures With(window, calls, n).counter == AllQuestions(calls, n)
  {
    if n > 0 {
      CounterCounts(window, calls, n - 1);
    }
  }

  /** After every hundredth question, only groups seen within two windows are held. */
  lemma {:induction false} HundredthCleans(window: real, calls: seq<Call>, n: nat, key: string)
    requires window >= 0.0 && n < |calls| && calls[n].Ask? && AllQuestions(calls, n + 1) % 100 == 0
    ensures key in With(window, calls, n + 1).groups ==>
              calls[n].now - With(window, calls, n + 1).groups[key].lastSeen <= 2.0 * window
  {
    CounterCounts(window, calls, n);
  }
}
