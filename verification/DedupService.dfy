/**
  The deduplicator as a class: a dictionary of groups updated in place, and a clean-up
  that deletes keys in a loop.
*/
module DedupService {
  import opened DedupModel
  import opened DedupTheorems

  class AlertDeduplicator {
    const window: real
    var groups: map<string, Group>
    var cleanupCounter: int

    ghost function State(): Dedup
      reads this
    {
      Dedup(groups, cleanupCounter)
    }

    constructor (window: real)
      ensures this.window == window && State() == Dedup(map[], 0)
    {
      this.window := window;
      groups := map[];
      cleanupCounter := 0;
    }

    method ShouldInvestigate(alertname: string, cluster: string, namespace: Option<string>, now: real)
      returns (yes: bool, key: string)
      modifies this
      ensures (State(), Investigate(yes, key)) == Serve(window, old(State()), Ask(alertname, cluster, namespace, now))
    {
      key := MakeKey(alertname, cluster, namespace);
      cleanupCounter := cleanupCounter + 1;
      if cleanupCounter % 100 == 0 {
        CleanupExpired(now);
      }
      if key !in groups {
        groups := groups[key := Group(alertname, cluster, namespace, now, now, 1, Firing, false)];
        return true, key;
      }
      var group := groups[key];
      if now - group.firstSeen > window {
        groups := groups[key := Group(alertname, cluster, namespace, now, now, 1, Firing, false)];
        return true, key;
      }
      groups := groups[key := group.(count := group.count + 1, lastSeen := now)];
      yes := !group.investigated;
    }

    method MarkInvestigated(key: string)
      modifies this
      ensures (State(), Done) == Serve(window, old(State()), Call.MarkInvestigated(key))
    {
      if key in groups {
        groups := groups[key := groups[key].(investigated := true, status := Investigating)];
      }
    }

    method MarkResolved(key: string)
      modifies this
      ensures (State(), Done) == Serve(window, old(State()), Call.MarkResolved(key))
    {
      if key in groups {
        groups := groups[key := groups[key].(status := Resolved)];
      }
    }

    method GetGroupStats(now: real) returns (stats: map<string, Stats>)
      ensures stats == StatsOf(window, groups, now)
    {
      stats := map[];
      var rest := groups.Keys;
      while rest != {}
        invariant rest <= groups.Keys
        invariant stats.Keys <= groups.Keys - rest
        invariant forall key :: key in groups.Keys - rest ==>
                    (key in stats <==> now - groups[key].lastSeen < window * 2.0)
        invariant forall key :: key in stats ==>
                    stats[key] == Stats(groups[key].alertname, groups[key].cluster, groups[key].namespace,
                                        groups[key].count, groups[key].status, now - groups[key].firstSeen)
        decreases |rest|
      {
        var key :| key in rest;
        var group := groups[key];
        if now - group.lastSeen < window * 2.0 {
          stats := stats[key := Stats(group.alertname, group.cluster, group.namespace, group.count, group.status,
                                      now - group.firstSeen)];
        }
        rest := rest - {key};
      }
    }

    method CleanupExpired(now: real)
      modifies this`groups
      ensures groups == Cleaned(window, old(groups), now)
    {
      var expired := set key | key in groups && now - groups[key].lastSeen > window * 2.0;
      ghost var all := expired;
      assert groups - all == Cleaned(window, groups, now);
      while expired != {}
        invariant expired <= all && expired <= groups.Keys
        invariant groups == old(groups) - (all - expired)
        decreases |expired|
      {
        var key :| key in expired;
        groups := groups - {key};
        expired := expired - {key};
      }
      assert expired == {} && groups == old(groups) - all;
    }
  }

  // An alert's labels, and the time at which its question is asked.
  datatype Alert = Alert(alertname: string, cluster: string, namespace: Option<string>, now: real)

  function Question(a: Alert): Call {
    Ask(a.alertname, a.cluster, a.namespace, a.now)
  }

  // The alerts that are routed, and the deduplicator after them all: a yes routes the alert and marks its group.
  function Routed(window: real, s: Dedup, alerts: seq<Alert>): (Dedup, seq<Alert>) {
    if alerts == [] then (s, [])
    else
      var a := alerts[|alerts| - 1];
      var (t, routed) := Routed(window, s, alerts[..|alerts| - 1]);
      var (u, answer) := Serve(window, t, Question(a));
      if answer == Investigate(true, AskKey(Question(a)))
      then (Serve(window, u, Call.MarkInvestigated(AskKey(Question(a)))).0, routed + [a])
      else (u, routed)
  }

  // The calls made so far, and those that the alerts add: a question each, and a mark after each yes.
  function CallsFor(window: real, before: seq<Call>, alerts: seq<Alert>): seq<Call> {
    if alerts == [] then before
    else
      var calls := CallsFor(window, before, alerts[..|alerts| - 1]);
      var ask := Question(alerts[|alerts| - 1]);
      calls + AlertCalls(ask, Serve(window, With(window, calls, |calls|), ask).1 == Investigate(true, AskKey(ask)))
  }

  // The clock of the alerts goes on from the calls made so far.
  ghost predicate Continues(before: seq<Call>, alerts: seq<Alert>) {
    && (forall j, k :: 0 <= j < k < |alerts| ==> alerts[j].now <= alerts[k].now)
    && (forall j, k :: 0 <= j < |before| && 0 <= k < |alerts| && Timed(before[j]) ==> before[j].now <= alerts[k].now)
  }

  // Call at[k] is the question of processed alert k, and was answered yes; the questions are in order.
  ghost predicate AskedAt(window: real, calls: seq<Call>, processed: seq<Alert>, at: seq<nat>) {
    && |at| == |processed|
    && (forall k :: 0 <= k < |at| ==> at[k] < |calls| && calls[at[k]] == Question(processed[k])
                                      && SaysYes(window, calls, at[k], AskKey(Question(processed[k]))))
    && (forall j, k :: 0 <= j < k < |at| ==> at[j] < at[k])
  }

  // Processed alerts of one group are more than a window apart.
  ghost predicate ProcessedApart(window: real, processed: seq<Alert>) {
    forall j, k :: 0 <= j < k < |processed| && AskKey(Question(processed[j])) == AskKey(Question(processed[k])) ==>
                     processed[k].now - processed[j].now > window
  }

  /**
    The loop of the webhook, for one request at a time: every alert is either routed and marked, or counted
    as deduplicated. The calls made so far are carried along.
   */
  method ReceiveAlerts(deduplicator: AlertDeduplicator, alerts: seq<Alert>, ghost before: seq<Call>)
    returns (processed: seq<Alert>, deduplicated: nat, ghost calls: seq<Call>)
    requires deduplicator.window >= 0.0
    requires deduplicator.State() == With(deduplicator.window, before, |before|)
    requires YesThenMark(deduplicator.window, before) && InOrder(before) && Continues(before, alerts)
    modifies deduplicator
    ensures deduplicator.State() == With(deduplicator.window, calls, |calls|)
    ensures calls == CallsFor(deduplicator.window, before, alerts)
    ensures before <= calls && YesThenMark(deduplicator.window, calls) && InOrder(calls)
    ensures (deduplicator.State(), processed) == Routed(deduplicator.window, old(deduplicator.State()), alerts)
    ensures |processed| + deduplicated == |alerts|
    ensures |calls| == |before| + |alerts| + |processed|
    ensures ProcessedApart(deduplicator.window, processed)
  {
    hide Serve, YesThenMark, With, SaysYes, InOrder, AskedAt;
    processed, deduplicated, calls := [], 0, before;
    ghost var at: seq<nat> := [];
    assert AskedAt(deduplicator.window, calls, processed, at) by {
      NothingAsked(deduplicator.window, calls);
    }
    for n := 0 to |alerts|
      invariant deduplicator.State() == With(deduplicator.window, calls, |calls|)
      invariant calls == CallsFor(deduplicator.window, before, alerts[..n])
      invariant before <= calls && YesThenMark(deduplicator.window, calls)
      invariant InOrder(calls) && Continues(calls, alerts[n..])
      invariant (deduplicator.State(), processed) == Routed(deduplicator.window, old(deduplicator.State()), alerts[..n])
      invariant |processed| + deduplicated == n
      invariant |calls| == |before| + n + |processed|
      invariant AskedAt(deduplicator.window, calls, processed, at)
    {
      var a := alerts[n];
      ghost var ask := Question(a);
      assert alerts[..n + 1][..n] == alerts[..n];
      var yes, key := deduplicator.ShouldInvestigate(a.alertname, a.cluster, a.namespace, a.now);
      KeyOfAnswer(deduplicator.window, With(deduplicator.window, calls, |calls|), ask);
      OneMoreAlert(deduplicator.window, calls, ask, yes);
      InOrderStill(calls, alerts[n..], yes);
      OneMoreAsked(deduplicator.window, calls, processed, at, a, yes);
      assert alerts[n..][1..] == alerts[n + 1..];
      at := if yes then at + [|calls|] else at;
      calls := calls + AlertCalls(ask, yes);
      if !yes {
        deduplicated := deduplicated + 1;
        continue;
      }
      deduplicator.MarkInvestigated(key);
      processed := processed + [a];
    }
    assert alerts[..|alerts|] == alerts;
    AskedAreApart(deduplicator.window, calls, processed, at);
  }

  lemma {:induction false} NothingAsked(window: real, calls: seq<Call>)
    ensures AskedAt(window, calls, [], [])
  {
  }

  lemma {:induction false} InOrderStill(calls: seq<Call>, alerts: seq<Alert>, yes: bool)
    requires InOrder(calls) && alerts != [] && Continues(calls, alerts)
    ensures var more := calls + AlertCalls(Question(alerts[0]), yes);
            InOrder(more) && Continues(more, alerts[1..])
  {
  }

  lemma {:induction false} OneMoreAsked(window: real, calls: seq<Call>, processed: seq<Alert>, at: seq<nat>, a: Alert,
                                        yes: bool)
    requires AskedAt(window, calls, processed, at)
    requires Serve(window, With(window, calls, |calls|), Question(a)).1 == Investigate(yes, AskKey(Question(a)))
    ensures var more := calls + AlertCalls(Question(a), yes);
            if yes then AskedAt(window, more, processed + [a], at + [|calls|]) else AskedAt(window, more, processed, at)
  {
    hide Serve, With;
    var tail := AlertCalls(Question(a), yes);
    var more := calls + tail;
    SamePrefix(window, calls, tail, |calls|);
    assert more[|calls|] == Question(a);
    forall k | 0 <= k < |at|
      ensures more[at[k]] == Question(processed[k]) && SaysYes(window, more, at[k], AskKey(Question(processed[k])))
    {
      SamePrefix(window, calls, tail, at[k]);
    }
  }

  lemma {:induction false} AskedAreApart(window: real, calls: seq<Call>, processed: seq<Alert>, at: seq<nat>)
    requires window >= 0.0 && InOrder(calls) && YesThenMark(window, calls) && AskedAt(window, calls, processed, at)
    ensures ProcessedApart(window, processed)
  {
    hide SaysYes, YesThenMark, InOrder;
    forall j, k | 0 <= j < k < |processed| && AskKey(Question(processed[j])) == AskKey(Question(processed[k]))
      ensures processed[k].now - processed[j].now > window
    {
      ReceivedAlertsSpaced(window, calls, at[j], at[k], AskKey(Question(processed[j])));
    }
  }

  // A question is answered for its own key.
  lemma {:induction false} KeyOfAnswer(window: real, s: Dedup, ask: Call)
    requires ask.Ask?
    ensures Serve(window, s, ask).1.Investigate? && Serve(window, s, ask).1.key == AskKey(ask)
  {
  }
}
