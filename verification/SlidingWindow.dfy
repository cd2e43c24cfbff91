/**
  Sliding-window limits: a list that forgets its old entries must count like the full
  history, and a limit checked when an event is admitted must hold in every interval.
  Times are real numbers of seconds.
*/
module SlidingWindow {

  ghost predicate Sorted(times: seq<real>) {
    forall i, j :: 0 <= i < j < |times| ==> times[i] <= times[j]
  }

  // The entries not before the cutoff, in their order.
  function From(times: seq<real>, cutoff: real): seq<real> {
    if times == [] then []
    else From(times[..|times| - 1], cutoff) + (if times[|times| - 1] >= cutoff then [times[|times| - 1]] else [])
  }

  lemma {:induction false} FromJoin(a: seq<real>, b: seq<real>, cutoff: real)
    ensures From(a + b, cutoff) == From(a, cutoff) + From(b, cutoff)
  {
    if b == [] {
      assert a + b == a;
    } else {
      var n := |b| - 1;
      FromJoin(a, b[..n], cutoff);
      assert (a + b)[..|a + b| - 1] == a + b[..n];
    }
  }

  lemma {:induction false} FromNone(times: seq<real>, cutoff: real)
    requires forall k :: 0 <= k < |times| ==> times[k] < cutoff
    ensures From(times, cutoff) == []
  {
    if times != [] {
      FromNone(times[..|times| - 1], cutoff);
    }
  }

  lemma {:induction false} FromAll(times: seq<real>, cutoff: real)
    requires forall k :: 0 <= k < |times| ==> times[k] >= cutoff
    ensures From(times, cutoff) == times
  {
    if times != [] {
      FromAll(times[..|times| - 1], cutoff);
    }
  }

  /** Filtering twice is filtering by the later cutoff. */
  lemma {:induction false} FromLater(times: seq<real>, early: real, late: real)
    requires early <= late
    ensures From(From(times, early), late) == From(times, late)
    ensures |From(times, late)| <= |From(times, early)|
  {
    if times != [] {
      var n := |times| - 1;
      FromLater(times[..n], early, late);
      var last := if times[n] >= early then [times[n]] else [];
      FromJoin(From(times[..n], early), last, late);
      if times[n] >= early {
        assert last[..0] == [];
      }
    }
  }

  /** A counter that drops old timestamps from the front of its list. */
  class SlidingWindowCounter {
    const windowSeconds: real
    var timestamps: seq<real>
    // Everything ever recorded, and the last reading of the clock.
    ghost var history: seq<real>
    ghost var clock: real
    ghost var dropped: nat

    ghost predicate Valid()
      reads this
    {
      && Sorted(history)
      && (forall k :: 0 <= k < |history| ==> history[k] <= clock)
      // Nothing is missing that a later reading could count.
      && dropped <= |history| && timestamps == history[dropped..]
      && forall j :: 0 <= j < dropped ==> history[j] < clock - windowSeconds
    }

    constructor (windowSeconds: real, ghost now: real)
      ensures Valid() && history == [] && clock == now && this.windowSeconds == windowSeconds
    {
      this.windowSeconds := windowSeconds;
      timestamps := [];
      history := [];
      clock := now;
      dropped := 0;
    }

    method Cleanup(now: real)
      requires Valid() && clock <= now
      modifies this
      ensures Valid() && history == old(history) && clock == now
      ensures timestamps == From(history, now - windowSeconds)
    {
      hide From;
      var cutoff := now - windowSeconds;
      while timestamps != [] && timestamps[0] < cutoff
        invariant history == old(history) && clock == old(clock)
        invariant dropped <= |history| && timestamps == history[dropped..]
        invariant forall j :: 0 <= j < dropped ==> history[j] < cutoff
        decreases |timestamps|
      {
        timestamps := timestamps[1..];
        dropped := dropped + 1;
      }
      clock := now;
      KeptIsWindow(history, dropped, cutoff);
    }

    // The event is stamped first; the clean-up reads the clock again.
    method Record(stamp: real, now: real)
      requires Valid() && clock <= stamp <= now
      modifies this
      ensures Valid() && history == old(history) + [stamp] && clock == now
    {
      hide From;
      timestamps := timestamps + [stamp];
      history := history + [stamp];
      assert timestamps == history[dropped..];
      clock := stamp;
      Cleanup(now);
    }

    /** The count is that of the full history in the window. */
    method Count(now: real) returns (n: nat)
      requires Valid() && clock <= now
      modifies this
      ensures Valid() && history == old(history) && clock == now
      ensures n == |From(history, now - windowSeconds)|
    {
      Cleanup(now);
      n := |timestamps|;
    }
  }

  // ---------------------------------------------------------------- limits in every interval

  // Each event was admitted at a check, no later than the event, that counted fewer than the limit.
  ghost predicate Admitted(events: seq<real>, checks: seq<real>, window: real, limit: int) {
    && |checks| == |events|
    && Sorted(events)
    && forall k :: 0 <= k < |events| ==> checks[k] <= events[k] && |From(events[..k], checks[k] - window)| < limit
  }

  function Within(times: seq<real>, from: real, to: real): nat {
    if times == [] then 0
    else Within(times[..|times| - 1], from, to)
         + (if from <= times[|times| - 1] <= to then 1 else 0)
  }

  // The interval of that width starting there holds no more events than the limit.
  predicate Capped(times: seq<real>, from: real, width: real, limit: int) {
    Within(times, from, from + width) <= (if limit > 0 then limit else 0)
  }

  lemma {:induction false} WithinBelow(times: seq<real>, from: real, to: real, cutoff: real)
    requires cutoff <= from
    ensures Within(times, from, to) <= |From(times, cutoff)|
  {
    if times != [] {
      WithinBelow(times[..|times| - 1], from, to, cutoff);
    }
  }

  // An admitted list is one admitted event more than an admitted list.
  lemma {:induction false} AdmittedParts(events: seq<real>, checks: seq<real>, window: real, limit: int, n: nat)
    requires Admitted(events, checks, window, limit) && n + 1 == |events|
    ensures |checks| == |events| && Admitted(events[..n], checks[..n], window, limit)
    ensures checks[n] <= events[n] && |From(events[..n], checks[n] - window)| < limit
  {
    hide From;
    forall k | 0 <= k < n ensures |From(events[..n][..k], checks[..n][k] - window)| < limit {
      assert events[..n][..k] == events[..k];
    }
  }

  lemma {:induction false} AdmittedIsSorted(events: seq<real>, checks: seq<real>, window: real, limit: int)
    requires Admitted(events, checks, window, limit)
    ensures Sorted(events) && |checks| == |events|
  {
  }

  /** No interval as long as the window, wherever it starts, holds more events than the limit. */
  lemma {:induction false} LimitInEveryInterval(events: seq<real>, checks: seq<real>, window: real, limit: int,
                                                from: real)
    requires Admitted(events, checks, window, limit)
    ensures Capped(events, from, window, limit)
  {
    hide From, Admitted;
    if events != [] {
      var n := |events| - 1;
      AdmittedParts(events, checks, window, limit, n);
      if from <= events[n] <= from + window {
        WithinBelow(events[..n], from, from + window, checks[n] - window);
      } else {
        LimitInEveryInterval(events[..n], checks[..n], window, limit, from);
      }
    }
  }

  // From an entry in the window on, all are counted.
  lemma {:induction false} FromAtLeast(times: seq<real>, cutoff: real, i: nat)
    requires Sorted(times) && i < |times| && times[i] >= cutoff
    ensures |From(times, cutoff)| >= |times| - i
  {
    hide From;
    assert times == times[..i] + times[i..];
    FromJoin(times[..i], times[i..], cutoff);
    FromAll(times[i..], cutoff);
  }

  /** One more event than the limit always takes longer than the window. */
  lemma {:induction false} NoBurst(events: seq<real>, checks: seq<real>, window: real, limit: nat, i: nat)
    requires Admitted(events, checks, window, limit) && limit > 0 && i + limit < |events|
    ensures events[i + limit] - events[i] > window
  {
    hide From;
    var k := i + limit;
    assert checks[k] <= events[k] && |From(events[..k], checks[k] - window)| < limit;
    if events[i] >= checks[k] - window {
      FromAtLeast(events[..k], checks[k] - window, i);
    }
  }

  /** An interval counts every entry in it, its two ends included. */
  lemma {:induction false} WithinAll(times: seq<real>, i: nat, j: nat, from: real, to: real)
    requires i <= j <= |times|
    requires forall k :: i <= k < j ==> from <= times[k] <= to
    requires forall k :: 0 <= k < i || j <= k < |times| ==> !(from <= times[k] <= to)
    ensures Within(times, from, to) == j - i
  {
    if times != [] {
      var n := |times| - 1;
      WithinAll(times[..n], if i > n then n else i, if j > n then n else j, from, to);
    }
  }

  // ---------------------------------------------------------------- the webhook limit

  /** check_rate_limit and the list it keeps: one clock reading both checks and records. */
  class RequestGate {
    const limit: int
    var requestTimestamps: seq<real>
    ghost var accepted: seq<real>
    ghost var clock: real
    ghost var dropped: nat

    ghost predicate Valid()
      reads this
    {
      && Admitted(accepted, accepted, 60.0, limit)
      && (forall k :: 0 <= k < |accepted| ==> accepted[k] <= clock)
      && dropped <= |accepted| && requestTimestamps == accepted[dropped..]
      && forall j :: 0 <= j < dropped ==> accepted[j] < clock - 60.0
    }

    constructor (limit: int, ghost now: real)
      ensures Valid() && accepted == [] && clock == now && this.limit == limit
    {
      this.limit := limit;
      requestTimestamps := [];
      accepted := [];
      clock := now;
      dropped := 0;
    }

    method CheckRateLimit(now: real) returns (ok: bool)
      requires Valid() && clock <= now
      modifies this
      ensures Valid() && clock == now
      ensures ok <==> |From(old(accepted), now - 60.0)| < limit
      ensures accepted == old(accepted) + (if ok then [now] else [])
      // Whatever has been accepted so far, no minute of it exceeds the limit.
      ensures forall from :: Capped(accepted, from, 60.0, limit)
    {
      hide From, Capped, Admitted, Sorted;
      AdmittedIsSorted(accepted, accepted, 60.0, limit);
      var cutoff := now - 60.0;
      while requestTimestamps != [] && requestTimestamps[0] < cutoff
        invariant accepted == old(accepted) && clock == old(clock)
        invariant dropped <= |accepted| && requestTimestamps == accepted[dropped..]
        invariant forall j :: 0 <= j < dropped ==> accepted[j] < cutoff
        decreases |requestTimestamps|
      {
        requestTimestamps := requestTimestamps[1..];
        dropped := dropped + 1;
      }
      clock := now;
      KeptIsWindow(accepted, dropped, cutoff);
      ok := |requestTimestamps| < limit;
      if ok {
        AdmitOne(accepted, accepted, now, now, 60.0, limit);
        requestTimestamps := requestTimestamps + [now];
        accepted := accepted + [now];
        assert requestTimestamps == accepted[dropped..];
      }
      EveryMinute(accepted, limit);
    }
  }

  lemma {:induction false} EveryMinute(events: seq<real>, limit: int)
    requires Admitted(events, events, 60.0, limit)
    ensures forall from :: Capped(events, from, 60.0, limit)
  {
    hide Admitted, Capped;
    forall from ensures Capped(events, from, 60.0, limit) {
      LimitInEveryInterval(events, events, 60.0, limit, from);
    }
  }

  lemma {:induction false} KeptIsWindow(times: seq<real>, k: nat, cutoff: real)
    requires Sorted(times) && k <= |times|
    requires forall j :: 0 <= j < k ==> times[j] < cutoff
    requires k < |times| ==> times[k] >= cutoff
    ensures From(times, cutoff) == times[k..]
  {
    hide From;
    assert times == times[..k] + times[k..];
    FromJoin(times[..k], times[k..], cutoff);
    FromNone(times[..k], cutoff);
    FromAll(times[k..], cutoff);
  }

  lemma {:induction false} AdmitOne(events: seq<real>, checks: seq<real>, check: real, event: real, window: real,
                                    limit: int)
    requires Admitted(events, checks, window, limit)
    requires check <= event && forall k :: 0 <= k < |events| ==> events[k] <= event
    requires |From(events, check - window)| < limit
    ensures Admitted(events + [event], checks + [check], window, limit)
  {
    hide From;
    var more := events + [event];
    forall k | 0 <= k < |more|
      ensures (checks + [check])[k] <= more[k] && |From(more[..k], (checks + [check])[k] - window)| < limit
    {
      assert more[..k] == events[..k];
      assert k == |events| ==> events[..k] == events;
    }
  }
}
