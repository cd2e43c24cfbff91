/**
  The breaker told from the recorded operations alone: when it opens, when it lets requests through and when
  it closes, without its windows.
*/
module BreakerHistory {
  import opened SlidingWindow
  import opened RateLimiter

  // The successes among the first n operations that are stamped no earlier than the cutoff.
  function SuccessesFrom(ops: seq<Op>, n: nat, cutoff: real): nat
    requires n <= |ops|
  {
    if n == 0 then 0
    else SuccessesFrom(ops, n - 1, cutoff) + (if ops[n - 1].Success? && ops[n - 1].stamp >= cutoff then 1 else 0)
  }

  function FailuresFrom(ops: seq<Op>, n: nat, cutoff: real): nat
    requires n <= |ops|
  {
    if n == 0 then 0
    else FailuresFrom(ops, n - 1, cutoff) + (if ops[n - 1].Failure? && ops[n - 1].r.stamp >= cutoff then 1 else 0)
  }

  // The time of the last failure, and zero before the first.
  function LastFailureTime(ops: seq<Op>, n: nat): real
    requires n <= |ops|
  {
    if n == 0 then 0.0 else if ops[n - 1].Failure? then ops[n - 1].r.last else LastFailureTime(ops, n - 1)
  }

  lemma {:induction false} FromOne(times: seq<real>, t: real, cutoff: real)
    ensures |From(times + [t], cutoff)| == |From(times, cutoff)| + (if t >= cutoff then 1 else 0)
  {
    FromJoin(times, [t], cutoff);
    assert [t][..0] == [];
  }

  // The windows count the operations.
  lemma {:induction false} WindowsCountOps(p: BreakerParams, bs: seq<Breaker>, ops: seq<Op>, n: nat, cutoff: real)
    requires IsRun(p, bs, ops) && n <= |ops|
    ensures |From(bs[n].successes, cutoff)| == SuccessesFrom(ops, n, cutoff)
    ensures |From(bs[n].failures, cutoff)| == FailuresFrom(ops, n, cutoff)
    ensures bs[n].lastFailure == LastFailureTime(ops, n)
  {
    hide Trips, From;
    if n > 0 {
      WindowsCountOps(p, bs, ops, n - 1, cutoff);
      var op := ops[n - 1];
      assert bs[n] == Next(p, bs[n - 1], op);
      if op.Success? {
        FromOne(bs[n - 1].successes, op.stamp, cutoff);
      } else if op.Failure? {
        FromOne(bs[n - 1].failures, op.r.stamp, cutoff);
      }
    } else {
      NothingCounted(cutoff);
    }
  }

  lemma {:induction false} NothingCounted(cutoff: real)
    ensures From([], cutoff) == []
  {
  }

  // The outcomes recorded up to operation k in the windows of its readings.
  function Outcomes(p: BreakerParams, ops: seq<Op>, k: nat): nat
    requires k < |ops| && ops[k].Failure?
  {
    SuccessesFrom(ops, k + 1, ops[k].r.good - p.window) + FailuresFrom(ops, k + 1, ops[k].r.bad - p.window)
  }

  /**
    After a failure the breaker is open exactly when it was, or when at least five outcomes have been recorded
    in the window and the share of the failures exceeds the threshold.
   */
  lemma {:induction false} FailureOpensExactly(p: BreakerParams, bs: seq<Breaker>, ops: seq<Op>, k: nat)
    requires IsRun(p, bs, ops) && k < |ops| && ops[k].Failure?
    ensures var total, failed := Outcomes(p, ops, k), FailuresFrom(ops, k + 1, ops[k].r.again - p.window);
            bs[k + 1].state ==
            if total >= 5 && failed as real / total as real > p.threshold then Open else bs[k].state
  {
    hide From;
    var r := ops[k].r;
    assert bs[k + 1] == Next(p, bs[k], ops[k]);
    WindowsCountOps(p, bs, ops, k + 1, r.good - p.window);
    WindowsCountOps(p, bs, ops, k + 1, r.bad - p.window);
    WindowsCountOps(p, bs, ops, k + 1, r.again - p.window);
  }

  /** A request is let through exactly when the breaker is not open or the cooldown since the last failure is over. */
  lemma {:induction false} AllowedExactly(p: BreakerParams, bs: seq<Breaker>, ops: seq<Op>, k: nat)
    requires IsRun(p, bs, ops) && k < |ops| && ops[k].Ask?
    ensures Allowed(p, bs, ops, k) <==> bs[k].state != Open || ops[k].t - LastFailureTime(ops, k) >= p.cooldown
    ensures bs[k + 1].state == if bs[k].state == Open && Allowed(p, bs, ops, k) then HalfOpen else bs[k].state
  {
    assert bs[k + 1] == Next(p, bs[k], ops[k]);
    WindowsCountOps(p, bs, ops, k, 0.0);
  }

  /** A success closes a half-open breaker and moves no other. */
  lemma {:induction false} SuccessClosesExactly(p: BreakerParams, bs: seq<Breaker>, ops: seq<Op>, k: nat)
    requires IsRun(p, bs, ops) && k < |ops| && ops[k].Success?
    ensures bs[k + 1].state != bs[k].state <==> bs[k].state == HalfOpen
    ensures bs[k].state == HalfOpen ==> bs[k + 1].state == Closed
  {
    assert bs[k + 1] == Next(p, bs[k], ops[k]);
  }

  /** Three successes and two failures are five outcomes, two fifths of them failures: that opens the breaker. */
  lemma {:induction false} TwoOfFiveOpen() returns (bs: seq<Breaker>, ops: seq<Op>)
    ensures IsRun(DEFAULT_BREAKER, bs, ops) && |ops| == 5
    ensures forall k :: 0 <= k < 5 ==> ops[k].Success? == (k < 3) && ops[k].Failure? == (k >= 3)
    ensures bs[4].state == Closed && bs[5].state == Open
  {
    hide Next, Trips;
    ops := [Success(1.0, 1.0), Success(2.0, 2.0), Success(3.0, 3.0), FailureAt(4.0), FailureAt(5.0)];
    bs := Replayed(DEFAULT_BREAKER, ops);
    ReplayedIsRun(DEFAULT_BREAKER, ops);
    FailureOpensExactly(DEFAULT_BREAKER, bs, ops, 4);
    CountsOfFive(ops, -295.0);
    CountsOfFour(DEFAULT_BREAKER, bs, ops);
  }

  // The run that the operations make.
  function Replayed(p: BreakerParams, ops: seq<Op>): (bs: seq<Breaker>)
    ensures |bs| == |ops| + 1
  {
    if ops == [] then [NEW_BREAKER]
    else
      var n := |ops| - 1;
      var bs := Replayed(p, ops[..n]);
      bs + [Next(p, bs[n], ops[n])]
  }

  lemma {:induction false} ReplayedIsRun(p: BreakerParams, ops: seq<Op>)
    requires forall k :: 0 <= k < |ops| ==> ops[k].Ordered()
    requires forall j, k :: 0 <= j < k < |ops| ==> ops[j].Last() <= ops[k].First()
    ensures IsRun(p, Replayed(p, ops), ops)
  {
    hide Next;
    if ops != [] {
      var n := |ops| - 1;
      ReplayedIsRun(p, ops[..n]);
      var bs, before := Replayed(p, ops), Replayed(p, ops[..n]);
      forall k {:trigger ops[k]} | 0 <= k < |ops| ensures bs[k + 1] == Next(p, bs[k], ops[k]) {
        if k < n {
          assert ops[..n][k] == ops[k] && before[k + 1] == Next(p, before[k], ops[..n][k]);
        }
      }
    }
  }

  lemma {:induction false} CountsOfFive(ops: seq<Op>, cutoff: real)
    requires |ops| == 5 && cutoff <= 1.0
    requires forall k :: 0 <= k < 3 ==> ops[k].Success? && ops[k].stamp >= 1.0
    requires forall k :: 3 <= k < 5 ==> ops[k].Failure? && ops[k].r.stamp >= 1.0
    ensures SuccessesFrom(ops, 5, cutoff) == 3 && FailuresFrom(ops, 5, cutoff) == 2
    ensures SuccessesFrom(ops, 4, cutoff) == 3 && FailuresFrom(ops, 4, cutoff) == 1
  {
    assert SuccessesFrom(ops, 1, cutoff) == 1 && FailuresFrom(ops, 1, cutoff) == 0;
    assert SuccessesFrom(ops, 2, cutoff) == 2 && FailuresFrom(ops, 2, cutoff) == 0;
    assert SuccessesFrom(ops, 3, cutoff) == 3 && FailuresFrom(ops, 3, cutoff) == 0;
    assert SuccessesFrom(ops, 4, cutoff) == 3 && FailuresFrom(ops, 4, cutoff) == 1;
  }

  // Up to the fourth outcome nothing can open the breaker.
  lemma {:induction false} CountsOfFour(p: BreakerParams, bs: seq<Breaker>, ops: seq<Op>)
    requires IsRun(p, bs, ops) && |ops| == 5
    requires forall k :: 0 <= k < 3 ==> ops[k].Success?
    requires ops[3].Failure?
    ensures bs[4].state == Closed
  {
    hide Next, Trips;
    SuccessClosesExactly(p, bs, ops, 0);
    SuccessClosesExactly(p, bs, ops, 1);
    SuccessClosesExactly(p, bs, ops, 2);
    FailureOpensExactly(p, bs, ops, 3);
    AtMostAll(ops, 4, ops[3].r.good - p.window, ops[3].r.bad - p.window);
  }

  lemma {:induction false} AtMostAll(ops: seq<Op>, n: nat, good: real, bad: real)
    requires n <= |ops|
    ensures SuccessesFrom(ops, n, good) + FailuresFrom(ops, n, bad) <= n
  {
    if n > 0 {
      AtMostAll(ops, n - 1, good, bad);
    }
  }
}
